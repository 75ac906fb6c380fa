/** The code index of one vault: its durable state, the durable steps of a run, and the plan of
    steps that `code ingest` takes from a given state.  A run that crashes or fails is a run whose
    plan is cut after some number of steps. */
module CodeIndex {
  import opened Wrappers
  import opened Text

  type Path = string
  type Sha = string
  type Bytes = seq<bv8>

  const MAX_FAILURES: nat := 3
  const MAX_RETRY: nat := 3
  const U32_MAX: nat := 0xFFFF_FFFF

  datatype Visibility = Pub | All

  datatype Lang = Rust | Python | Bash | TypeScript | Tsx

  datatype Note = Note(title: string, body: string)

  /** Foreign code: UTF-8 decoding, the SHA-256 of a file, and tree-sitter plus note building. */
  datatype Toolchain = Toolchain(
    decode: Bytes -> Option<string>,
    hash: Bytes -> string,
    parse: (Lang, Path, string, bool) -> Option<seq<Note>>)

  /** One `code_freshness` row together with the notes it owns. */
  datatype Row = Row(hash: string, sha: Sha, notes: seq<Note>)

  datatype VaultState = VaultState(
    rows: map<Path, Row>,
    visibility: Option<Visibility>,
    marker: Option<string>)

  /** What git and the disk answer during one run: HEAD, `ls-files`, the readable working files,
      and, for each base commit, whether `diff --name-status -z <base>..HEAD` succeeds and what it prints. */
  datatype Repo = Repo(
    head: Sha, listed: seq<Path>, tree: map<Path, Bytes>, knows: Sha -> bool, diffOutput: Sha -> string)

  // ---------------------------------------------------------------- routing

  const SUPPORTED_EXTENSIONS: seq<string> := [".rs", ".py", ".sh", ".bash", ".ts", ".tsx"]

  predicate Supported(path: Path) {
    exists i :: 0 <= i < |SUPPORTED_EXTENSIONS| && EndsWith(path, SUPPORTED_EXTENSIONS[i])
  }

  function LangOf(path: Path): Option<Lang> {
    if EndsWith(path, ".rs") then Some(Rust)
    else if EndsWith(path, ".py") then Some(Python)
    else if EndsWith(path, ".sh") || EndsWith(path, ".bash") then Some(Bash)
    else if EndsWith(path, ".ts") then Some(TypeScript)
    else if EndsWith(path, ".tsx") then Some(Tsx)
    else None
  }

  predicate Absolute(path: Path) {
    path != [] && path[0] == '/'
  }

  /** A path the pipeline derives notes for. */
  predicate Tracked(path: Path) {
    Supported(path) && !Absolute(path)
  }

  /** The extension filter and the parser routing table accept the same paths, so the
      "extension not routed" branches of both commands are dead. */
  lemma RoutingCoversFilter(path: Path)
    ensures Supported(path) <==> LangOf(path).Some?
  {
    var e := SUPPORTED_EXTENSIONS;
    assert e[0] == ".rs" && e[1] == ".py" && e[2] == ".sh" && e[3] == ".bash" && e[4] == ".ts" && e[5] == ".tsx";
    if LangOf(path).Some? {
      assert EndsWith(path, e[0]) || EndsWith(path, e[1]) || EndsWith(path, e[2])
          || EndsWith(path, e[3]) || EndsWith(path, e[4]) || EndsWith(path, e[5]);
    }
  }

  /** Bash has no visibility modifier: the mode is ignored there. */
  function ParseFile(tc: Toolchain, path: Path, content: string, vis: Visibility): Option<seq<Note>> {
    match LangOf(path)
    case None => None
    case Some(Bash) => tc.parse(Bash, path, content, false)
    case Some(lang) => tc.parse(lang, path, content, vis == All)
  }

  /** Notes of a file's bytes, when the bytes are UTF-8 and parse. */
  function Derive(tc: Toolchain, path: Path, bytes: Bytes, vis: Visibility): Option<seq<Note>> {
    match tc.decode(bytes)
    case None => None
    case Some(content) => ParseFile(tc, path, content, vis)
  }

  // ---------------------------------------------------------------- marker

  function ReadAttempts(content: string): nat {
    ParseUnsigned(Trim(content), U32_MAX).GetOr(0)
  }

  function WriteAttempts(count: nat): string {
    Decimal(count)
  }

  lemma AttemptsRoundTrip(count: nat)
    requires count <= U32_MAX
    ensures ReadAttempts(WriteAttempts(count)) == count
  {
    ParseDecimal(count, U32_MAX);
  }

  predicate CircuitBreakerShouldOpen(failures: nat) {
    failures >= MAX_FAILURES
  }

  // ---------------------------------------------------------------- durable steps

  datatype Op =
    | WriteMarker(count: nat)
    | Drop
    | SetVisibility(visibility: Visibility)
    | Batch(path: Path, hash: string, sha: Sha, notes: seq<Note>)
    | DropRow(path: Path)
    | RemoveMarker

  function Apply(s: VaultState, op: Op): VaultState {
    match op
    case WriteMarker(n) => s.(marker := Some(WriteAttempts(n)))
    case Drop => s.(rows := map[], visibility := None)
    case SetVisibility(v) => s.(visibility := Some(v))
    case Batch(p, h, sha, notes) => s.(rows := s.rows[p := Row(h, sha, notes)])
    case DropRow(p) => s.(rows := s.rows - {p})
    case RemoveMarker => s.(marker := None)
  }

  function ApplyAll(s: VaultState, ops: seq<Op>): VaultState
    decreases |ops|
  {
    if ops == [] then s else ApplyAll(Apply(s, ops[0]), ops[1..])
  }

  /** The steps performed by a run that is cut after `budget` of them. */
  function Cut(ops: seq<Op>, budget: nat): seq<Op> {
    if budget < |ops| then ops[..budget] else ops
  }

  lemma {:induction false} ApplyAllConcat(s: VaultState, a: seq<Op>, b: seq<Op>)
    ensures ApplyAll(s, a + b) == ApplyAll(ApplyAll(s, a), b)
    decreases |a|
  {
    if a == [] {
      assert a + b == b;
    } else {
      ApplyAllConcat(Apply(s, a[0]), a[1..], b);
      assert (a + b)[1..] == a[1..] + b;
    }
  }

  lemma ApplyTwo(s: VaultState, a: Op, b: Op)
    ensures ApplyAll(s, [a, b]) == Apply(Apply(s, a), b)
  {
    assert [a, b][1..] == [b];
    assert ApplyAll(Apply(s, a), [b]) == Apply(Apply(s, a), b);
  }

  lemma ApplyThree(s: VaultState, a: Op, b: Op, c: Op)
    ensures ApplyAll(s, [a, b, c]) == Apply(Apply(Apply(s, a), b), c)
  {
    assert [a, b, c][1..] == [b, c];
    ApplyTwo(Apply(s, a), b, c);
  }

  // ---------------------------------------------------------------- the ingest plan

  datatype Verdict =
    | Ignored                                    // unsupported, absolute, unreadable or not UTF-8
    | Unchanged                                  // stored hash equals the file's hash
    | ParseFailed
    | Fresh(hash: string, notes: seq<Note>)

  function Classify(tc: Toolchain, repo: Repo, vis: Visibility, indexed: map<Path, string>, path: Path): Verdict {
    if !Supported(path) || Absolute(path) || path !in repo.tree then Ignored
    else
      var bytes := repo.tree[path];
      var hash := tc.hash(bytes);
      if path in indexed && indexed[path] == hash then Unchanged
      else match tc.decode(bytes)
        case None => Ignored
        case Some(content) =>
          match ParseFile(tc, path, content, vis)
          case None => ParseFailed
          case Some(notes) => Fresh(hash, notes)
  }

  function Verdicts(tc: Toolchain, repo: Repo, vis: Visibility, indexed: map<Path, string>): Path -> Verdict {
    (p: Path) => Classify(tc, repo, vis, indexed, p)
  }

  /** Phase 1: the batches written for `files`, given the number of consecutive parse failures.
      The breaker ends the phase, not the run. */
  function Phase1(verdict: Path -> Verdict, head: Sha, files: seq<Path>, failures: nat): seq<Op> {
    if files == [] then []
    else match verdict(files[0])
      case Ignored => Phase1(verdict, head, files[1..], failures)
      case Unchanged => Phase1(verdict, head, files[1..], failures)
      case ParseFailed =>
        if CircuitBreakerShouldOpen(failures + 1) then []
        else Phase1(verdict, head, files[1..], failures + 1)
      case Fresh(hash, notes) =>
        [Batch(files[0], hash, head, notes)] + Phase1(verdict, head, files[1..], 0)
  }

  /** Phase 2: deletion propagation, in the iteration order `order` of the indexed paths. */
  function Phase2(repo: Repo, indexed: map<Path, string>, order: seq<Path>): seq<Op> {
    if order == [] then []
    else if order[0] in indexed && order[0] !in repo.listed then
      [Batch(order[0], "", "", []), DropRow(order[0])] + Phase2(repo, indexed, order[1..])
    else Phase2(repo, indexed, order[1..])
  }

  function Hashes(rows: map<Path, Row>): map<Path, string> {
    map p | p in rows :: rows[p].hash
  }

  /** The anti-loop guard refuses the run. */
  predicate Refused(s: VaultState) {
    s.marker.Some? && ReadAttempts(s.marker.value) >= MAX_RETRY
  }

  predicate NeedsRebuild(s: VaultState, rebuild: bool) {
    rebuild || s.marker.Some?
  }

  /** Steps before Phase 1: marker first, drop second, then the repository row. */
  function Opening(s: VaultState, rebuild: bool, vis: Visibility): seq<Op>
    requires !Refused(s)
  {
    if s.marker.Some? then [WriteMarker(ReadAttempts(s.marker.value) + 1), Drop, SetVisibility(vis)]
    else if rebuild then [WriteMarker(0), Drop, SetVisibility(vis)]
    else [SetVisibility(vis), WriteMarker(0)]
  }

  /** The freshness map read after the opening: empty once the vault was dropped. */
  function IndexedAfterOpening(s: VaultState, rebuild: bool): map<Path, string> {
    if NeedsRebuild(s, rebuild) then map[] else Hashes(s.rows)
  }

  function IngestPlan(tc: Toolchain, s: VaultState, rebuild: bool, vis: Visibility, repo: Repo,
                      order: seq<Path>): seq<Op> {
    if Refused(s) then []
    else
      var indexed := IndexedAfterOpening(s, rebuild);
      Opening(s, rebuild, vis)
      + Phase1(Verdicts(tc, repo, vis, indexed), repo.head, repo.listed, 0)
      + Phase2(repo, indexed, order)
      + [RemoveMarker]
  }
}
