/** The O(diff) update: it starts from the most frequent `ingested_sha`, replays the diff from that
    commit to HEAD, and is exact exactly when the paths outside that diff were already right. */
module CodeUpdate {
  import opened Wrappers
  import opened CodeIndex
  import opened CodeIngest
  import opened GitDiff

  // ---------------------------------------------------------------- the base commit

  /** Strict lexicographic order, the tie-break of the query. */
  predicate Before(a: string, b: string) {
    b != [] && (a == [] || a[0] < b[0] || (a[0] == b[0] && Before(a[1..], b[1..])))
  }

  lemma {:induction false} BeforeTotal(a: string, b: string)
    ensures a == b || Before(a, b) || Before(b, a)
    ensures !(Before(a, b) && Before(b, a))
    decreases |a|
  {
    if a != [] && b != [] {
      BeforeTotal(a[1..], b[1..]);
      if a[0] == b[0] && a[1..] == b[1..] {
        assert a == [a[0]] + a[1..] && b == [b[0]] + b[1..];
      }
    }
  }

  lemma {:induction false} BeforeTransitive(a: string, b: string, c: string)
    requires Before(a, b) && Before(b, c)
    ensures Before(a, c)
    decreases |a|
  {
    if a != [] && a[0] == b[0] == c[0] {
      BeforeTransitive(a[1..], b[1..], c[1..]);
    }
  }

  function ShaCount(rows: map<Path, Row>, sha: Sha): nat {
    |set p | p in rows && rows[p].sha == sha|
  }

  /** `sha` ranks at least as high as `other` under `COUNT(*) DESC, ingested_sha DESC`. */
  predicate RanksAtLeast(rows: map<Path, Row>, sha: Sha, other: Sha) {
    ShaCount(rows, other) < ShaCount(rows, sha) || (ShaCount(rows, other) == ShaCount(rows, sha) && !Before(sha, other))
  }

  function Shas(rows: map<Path, Row>): set<Sha> {
    set p | p in rows && rows[p].sha != "" :: rows[p].sha
  }

  /** What `get_last_ingested_sha` selects: the mode of the non-empty shas. */
  ghost predicate IsLastSha(rows: map<Path, Row>, last: Option<Sha>) {
    match last
    case None => Shas(rows) == {}
    case Some(sha) => sha in Shas(rows) && forall t :: t in Shas(rows) ==> RanksAtLeast(rows, sha, t)
  }

  method LastIngestedSha(rows: map<Path, Row>) returns (last: Option<Sha>)
    ensures IsLastSha(rows, last)
  {
    var todo := Shas(rows);
    last := None;
    while todo != {}
      invariant todo <= Shas(rows)
      invariant last.None? ==> todo == Shas(rows)
      invariant last.Some? ==>
                  && last.value in Shas(rows)
                  && forall t :: t in Shas(rows) - todo ==> RanksAtLeast(rows, last.value, t)
      decreases todo
    {
      var t :| t in todo;
      if last.None? || !RanksAtLeast(rows, last.value, t) {
        if last.Some? {
          var best := last.value;
          forall u | u in Shas(rows) - (todo - {t}) ensures RanksAtLeast(rows, t, u) {
            assert u == t || u in Shas(rows) - todo;
            assert u == t || RanksAtLeast(rows, best, u);
            BeforeTotal(t, u);
            BeforeTotal(best, u);
            if Before(t, u) && Before(best, t) { BeforeTransitive(best, t, u); }
          }
        } else {
          BeforeTotal(t, t);
        }
        last := Some(t);
      }
      todo := todo - {t};
    }
  }

  /** The query has one answer. */
  lemma LastShaUnique(rows: map<Path, Row>, a: Option<Sha>, b: Option<Sha>)
    requires IsLastSha(rows, a) && IsLastSha(rows, b)
    ensures a == b
  {
    if a.Some? && b.Some? {
      BeforeTotal(a.value, b.value);
    }
  }

  // ---------------------------------------------------------------- the update plan

  function ChangeOps(tc: Toolchain, repo: Repo, vis: Visibility, c: Change): seq<Op> {
    if !Supported(c.path) then []
    else match c.status
      case Deleted => [Batch(c.path, "", "", []), DropRow(c.path)]
      case AddedOrModified =>
        if Absolute(c.path) || c.path !in repo.tree then []
        else match Derive(tc, c.path, repo.tree[c.path], vis)
          case None => []
          case Some(notes) => [Batch(c.path, tc.hash(repo.tree[c.path]), repo.head, notes)]
  }

  function DiffOps(tc: Toolchain, repo: Repo, vis: Visibility, changes: seq<Change>): seq<Op> {
    if changes == [] then []
    else ChangeOps(tc, repo, vis, changes[0]) + DiffOps(tc, repo, vis, changes[1..])
  }

  function EffectiveVisibility(s: VaultState, override: Option<Visibility>): Visibility {
    if s.marker.Some? then override.GetOr(Pub) else override.GetOr(s.visibility.GetOr(Pub))
  }

  /** What `git diff` reports against `base`; nothing when git does not know that commit and the
      command stops with an error. */
  function ReadDiff(repo: Repo, base: Sha): seq<Change> {
    if repo.knows(base) then Changes(Fields(repo.diffOutput(base), [])) else []
  }

  /** The steps of `code update`; `last` is the answer of the sha query on the current rows. */
  function UpdatePlan(tc: Toolchain, s: VaultState, last: Option<Sha>, override: Option<Visibility>,
                      repo: Repo, order: seq<Path>): seq<Op> {
    var vis := EffectiveVisibility(s, override);
    if s.marker.Some? then IngestPlan(tc, s, true, vis, repo, order)
    else match last
      case None => IngestPlan(tc, s, false, vis, repo, order)
      case Some(base) => [SetVisibility(vis)] + DiffOps(tc, repo, vis, ReadDiff(repo, base))
  }

  // ---------------------------------------------------------------- exactness

  predicate Differs(base: map<Path, Bytes>, tree: map<Path, Bytes>, p: Path) {
    Lookup(base, p) != Lookup(tree, p)
  }

  ghost predicate Lists(changes: seq<Change>, p: Path) {
    exists c :: c in changes && c.path == p
  }

  /** `changes` lists every path that differs between the two trees, and as deleted only what is gone.  It may
      list others: git prints a file whose mode changed and whose bytes did not, or one that cannot be read. */
  ghost predicate IsDiff(base: map<Path, Bytes>, tree: map<Path, Bytes>, changes: seq<Change>) {
    && (forall c :: c in changes && c.status == Deleted ==> c.path !in tree)
    && (forall p :: Differs(base, tree, p) ==> Lists(changes, p))
  }

  ghost predicate CleanTree(tc: Toolchain, tree: map<Path, Bytes>, vis: Visibility) {
    forall p :: p in tree && Supported(p) ==> !Absolute(p) && Derive(tc, p, tree[p], vis).Some?
  }

  ghost predicate ExactTree(tc: Toolchain, tree: map<Path, Bytes>, vis: Visibility, rows: map<Path, Row>) {
    forall p :: ContentOf(Lookup(rows, p)) == Reference(tc, tree, p, vis)
  }

  function FreshRow(tc: Toolchain, repo: Repo, vis: Visibility, p: Path): Option<Row> {
    match Reference(tc, repo.tree, p, vis)
    case None => None
    case Some(c) => Some(Row(c.hash, repo.head, c.notes))
  }

  /** The change leads to a write: a deletion, or a file that reads, decodes and parses. */
  predicate Rewrites(tc: Toolchain, repo: Repo, vis: Visibility, c: Change) {
    && Supported(c.path)
    && (c.status == Deleted
        || (!Absolute(c.path) && c.path in repo.tree && Derive(tc, c.path, repo.tree[c.path], vis).Some?))
  }

  ghost predicate Rewritten(tc: Toolchain, repo: Repo, vis: Visibility, changes: seq<Change>, p: Path) {
    exists c :: c in changes && c.path == p && Rewrites(tc, repo, vis, c)
  }

  lemma ChangeLookup(tc: Toolchain, repo: Repo, vis: Visibility, c: Change, s: VaultState, p: Path)
    requires c.status == Deleted ==> c.path !in repo.tree
    ensures var r := ApplyAll(s, ChangeOps(tc, repo, vis, c));
            && r.marker == s.marker && r.visibility == s.visibility
            && Lookup(r.rows, p) ==
               (if c.path == p && Rewrites(tc, repo, vis, c) then FreshRow(tc, repo, vis, p) else Lookup(s.rows, p))
  {
    if Supported(c.path) && c.status == Deleted {
      ApplyTwo(s, Batch(c.path, "", "", []), DropRow(c.path));
    }
  }

  lemma RewrittenStep(tc: Toolchain, repo: Repo, vis: Visibility, changes: seq<Change>, p: Path)
    requires changes != []
    ensures Rewritten(tc, repo, vis, changes, p) <==>
            (changes[0].path == p && Rewrites(tc, repo, vis, changes[0])) || Rewritten(tc, repo, vis, changes[1..], p)
  {
    assert forall c :: c in changes <==> c == changes[0] || c in changes[1..];
  }

  lemma {:induction false} DiffLookup(tc: Toolchain, repo: Repo, vis: Visibility, changes: seq<Change>, s: VaultState,
                                      p: Path)
    requires forall c :: c in changes && c.status == Deleted ==> c.path !in repo.tree
    ensures var r := ApplyAll(s, DiffOps(tc, repo, vis, changes));
            && r.marker == s.marker && r.visibility == s.visibility
            && Lookup(r.rows, p) ==
               (if Rewritten(tc, repo, vis, changes, p) then FreshRow(tc, repo, vis, p) else Lookup(s.rows, p))
    decreases |changes|
  {
    if changes != [] {
      var ops := ChangeOps(tc, repo, vis, changes[0]);
      var s' := ApplyAll(s, ops);
      ChangeLookup(tc, repo, vis, changes[0], s, p);
      ApplyAllConcat(s, ops, DiffOps(tc, repo, vis, changes[1..]));
      DiffLookup(tc, repo, vis, changes[1..], s', p);
      RewrittenStep(tc, repo, vis, changes, p);
    }
  }

  /** The printed pairs are a true diff of the two trees: `D` only for what is gone, every other path that
      differs with a write status, and every path that is gone with some status. */
  ghost predicate IsPrintedDiff(base: map<Path, Bytes>, tree: map<Path, Bytes>, raw: seq<RawChange>) {
    && (forall p :: Prints(raw, p, {'D'}) ==> p !in tree)
    && (forall p :: p in tree && Differs(base, tree, p) ==> Prints(raw, p, {'A', 'M', 'T'}))
    && (forall p :: p !in tree && Differs(base, tree, p) ==> Prints(raw, p, {'A', 'M', 'T', 'D'}))
  }

  ghost predicate PrintsAs(base: Sha, repo: Repo, raw: seq<RawChange>) {
    repo.knows(base) && repo.diffOutput(base) == Render(raw) && Printable(raw)
  }

  /** git prints the true diff between the commit `base` and the working tree. */
  ghost predicate PrintsDiff(baseTree: map<Path, Bytes>, base: Sha, repo: Repo) {
    exists raw :: PrintsAs(base, repo, raw) && IsPrintedDiff(baseTree, repo.tree, raw)
  }

  /** What the command reads back from a true diff. */
  lemma ReadsTrueDiff(baseTree: map<Path, Bytes>, base: Sha, repo: Repo)
    requires PrintsDiff(baseTree, base, repo)
    ensures IsDiff(baseTree, repo.tree, ReadDiff(repo, base))
  {
    var raw :| PrintsAs(base, repo, raw) && IsPrintedDiff(baseTree, repo.tree, raw);
    var changes := ReadDiff(repo, base);
    forall c | c in changes && c.status == Deleted ensures c.path !in repo.tree {
      ParsedIff(raw, c.path);
      assert c == Change(Deleted, c.path);
    }
    forall p | Differs(baseTree, repo.tree, p) ensures Lists(changes, p) {
      ParsedIff(raw, p);
      PrintsEither(raw, p);
    }
  }

  lemma PrintsEither(raw: seq<RawChange>, p: Path)
    ensures Prints(raw, p, {'A', 'M', 'T', 'D'}) <==> Prints(raw, p, {'A', 'M', 'T'}) || Prints(raw, p, {'D'})
  {
  }

  /** A completed diff update, path by path, whatever reads or parses. */
  lemma UpdateLookup(tc: Toolchain, s: VaultState, base: Sha, override: Option<Visibility>,
                     repo: Repo, order: seq<Path>, baseTree: map<Path, Bytes>, p: Path)
    requires s.marker.None? && PrintsDiff(baseTree, base, repo)
    ensures var vis := EffectiveVisibility(s, override);
            var r := ApplyAll(s, UpdatePlan(tc, s, Some(base), override, repo, order));
            && r.marker == None && r.visibility == Some(vis)
            && Lookup(r.rows, p) ==
               (if Rewritten(tc, repo, vis, ReadDiff(repo, base), p) then FreshRow(tc, repo, vis, p)
                else Lookup(s.rows, p))
  {
    var vis := EffectiveVisibility(s, override);
    ReadsTrueDiff(baseTree, base, repo);
    var changes := ReadDiff(repo, base);
    var first := [SetVisibility(vis)];
    ApplyAllConcat(s, first, DiffOps(tc, repo, vis, changes));
    DiffLookup(tc, repo, vis, changes, ApplyAll(s, first), p);
  }

  /** The update is exact if and only if every path it does not rewrite was right before: those its diff does
      not list, and the listed files that do not read, decode or parse. */
  lemma UpdateExactIff(tc: Toolchain, s: VaultState, base: Sha, override: Option<Visibility>,
                       repo: Repo, order: seq<Path>, baseTree: map<Path, Bytes>)
    requires s.marker.None? && PrintsDiff(baseTree, base, repo)
    ensures var vis := EffectiveVisibility(s, override);
            ExactTree(tc, repo.tree, vis, ApplyAll(s, UpdatePlan(tc, s, Some(base), override, repo, order)).rows)
            <==> forall p :: !Rewritten(tc, repo, vis, ReadDiff(repo, base), p) ==>
                             ContentOf(Lookup(s.rows, p)) == Reference(tc, repo.tree, p, vis)
  {
    var vis := EffectiveVisibility(s, override);
    var rows := ApplyAll(s, UpdatePlan(tc, s, Some(base), override, repo, order)).rows;
    forall p
      ensures ContentOf(Lookup(rows, p)) == Reference(tc, repo.tree, p, vis)
              <==> (!Rewritten(tc, repo, vis, ReadDiff(repo, base), p) ==>
                    ContentOf(Lookup(s.rows, p)) == Reference(tc, repo.tree, p, vis))
    {
      UpdateLookup(tc, s, base, override, repo, order, baseTree, p);
    }
  }

  ghost predicate IdealHash(tc: Toolchain) {
    forall a, b :: tc.hash(a) == tc.hash(b) ==> a == b
  }

  /** From an index that was exact at the previous HEAD, the update is exact if and only if every path it does
      not rewrite has the notes it had there. */
  lemma UpdateExactIffNothingReverted(tc: Toolchain, s: VaultState, base: Sha, override: Option<Visibility>,
                                      repo: Repo, order: seq<Path>, baseTree: map<Path, Bytes>, prev: map<Path, Bytes>)
    requires s.marker.None? && PrintsDiff(baseTree, base, repo)
    requires ExactTree(tc, prev, EffectiveVisibility(s, override), s.rows)
    ensures var vis := EffectiveVisibility(s, override);
            ExactTree(tc, repo.tree, vis, ApplyAll(s, UpdatePlan(tc, s, Some(base), override, repo, order)).rows)
            <==> forall p :: !Rewritten(tc, repo, vis, ReadDiff(repo, base), p) ==>
                             Reference(tc, prev, p, vis) == Reference(tc, repo.tree, p, vis)
  {
    var vis := EffectiveVisibility(s, override);
    UpdateExactIff(tc, s, base, override, repo, order, baseTree);
    assert forall p :: ContentOf(Lookup(s.rows, p)) == Reference(tc, prev, p, vis);
  }

  /** From an index exact at the base, only the listed files that are not rewritten matter: the update is exact
      if and only if each of them has the notes it had at the base. */
  lemma UpdateFromBaseExactIff(tc: Toolchain, s: VaultState, base: Sha, override: Option<Visibility>,
                               repo: Repo, order: seq<Path>, baseTree: map<Path, Bytes>)
    requires s.marker.None? && PrintsDiff(baseTree, base, repo)
    requires ExactTree(tc, baseTree, EffectiveVisibility(s, override), s.rows)
    ensures var vis := EffectiveVisibility(s, override);
            ExactTree(tc, repo.tree, vis, ApplyAll(s, UpdatePlan(tc, s, Some(base), override, repo, order)).rows)
            <==> forall p :: Lists(ReadDiff(repo, base), p) && !Rewritten(tc, repo, vis, ReadDiff(repo, base), p) ==>
                             Reference(tc, baseTree, p, vis) == Reference(tc, repo.tree, p, vis)
  {
    var vis, changes := EffectiveVisibility(s, override), ReadDiff(repo, base);
    UpdateExactIffNothingReverted(tc, s, base, override, repo, order, baseTree, baseTree);
    ReadsTrueDiff(baseTree, base, repo);
    forall p | !Lists(changes, p) ensures Reference(tc, baseTree, p, vis) == Reference(tc, repo.tree, p, vis) {
      SameBytesSameNotes(tc, baseTree, repo.tree, p, vis);
    }
  }

  lemma SameBytesSameNotes(tc: Toolchain, a: map<Path, Bytes>, b: map<Path, Bytes>, p: Path, vis: Visibility)
    requires !Differs(a, b, p)
    ensures Reference(tc, a, p, vis) == Reference(tc, b, p, vis)
  {
  }

  /** From the printed pair to the row: a supported path printed with `A`, `M` or `T` whose file has notes gets
      the row of that file, and one printed with `D` that is gone has none. */
  lemma PrintedChangeIsApplied(tc: Toolchain, s: VaultState, base: Sha, override: Option<Visibility>, repo: Repo,
                               order: seq<Path>, baseTree: map<Path, Bytes>, raw: seq<RawChange>, p: Path)
    requires s.marker.None? && PrintsDiff(baseTree, base, repo) && PrintsAs(base, repo, raw) && Supported(p)
    ensures var vis := EffectiveVisibility(s, override);
            var row := Lookup(ApplyAll(s, UpdatePlan(tc, s, Some(base), override, repo, order)).rows, p);
            var now := Reference(tc, repo.tree, p, vis);
            && (Prints(raw, p, {'A', 'M', 'T'}) && now.Some? ==>
                  row == Some(Row(now.value.hash, repo.head, now.value.notes)))
            && (Prints(raw, p, {'D'}) ==> row == None)
  {
    var vis, changes := EffectiveVisibility(s, override), ReadDiff(repo, base);
    UpdateLookup(tc, s, base, override, repo, order, baseTree, p);
    ReadsTrueDiff(baseTree, base, repo);
    ParsedIff(raw, p);
    if Prints(raw, p, {'A', 'M', 'T'}) && Reference(tc, repo.tree, p, vis).Some? {
      assert Rewrites(tc, repo, vis, Change(AddedOrModified, p));
    }
    if Prints(raw, p, {'D'}) {
      assert Rewrites(tc, repo, vis, Change(Deleted, p));
    }
  }
}
