/** What a completed `code ingest` leaves in the index, and when the hash-skipping run agrees
    with a rebuild from nothing. */
module CodeIngest {
  import opened Wrappers
  import opened CodeIndex
  import opened Text

  /** What a reader of the index can tell about one path. */
  datatype Content = Content(hash: string, notes: seq<Note>)

  function Lookup<K, V>(m: map<K, V>, k: K): Option<V> {
    if k in m then Some(m[k]) else None
  }

  function ContentOf(row: Option<Row>): Option<Content> {
    match row
    case None => None
    case Some(r) => Some(Content(r.hash, r.notes))
  }

  /** The reference: hash and notes of `path` in a tree, by definition and without any index. */
  function Reference(tc: Toolchain, tree: map<Path, Bytes>, path: Path, vis: Visibility): Option<Content> {
    if Tracked(path) && path in tree && Derive(tc, path, tree[path], vis).Some?
    then Some(Content(tc.hash(tree[path]), Derive(tc, path, tree[path], vis).value))
    else None
  }

  /** The index holds the reference of every listed path and nothing else. */
  ghost predicate Exact(tc: Toolchain, repo: Repo, vis: Visibility, rows: map<Path, Row>) {
    forall p :: ContentOf(Lookup(rows, p)) ==
                (if p in repo.listed then Reference(tc, repo.tree, p, vis) else None)
  }

  /** Every listed file the pipeline takes reads and parses. */
  ghost predicate ParseClean(tc: Toolchain, repo: Repo, vis: Visibility) {
    forall p :: p in repo.listed && Tracked(p) ==>
      p in repo.tree && Derive(tc, p, repo.tree[p], vis).Some?
  }

  ghost predicate Enumerates(order: seq<Path>, elements: set<Path>) {
    forall p :: p in order <==> p in elements
  }

  // ---------------------------------------------------------------- one path through the phases

  function AfterPhase1(verdict: Verdict, head: Sha, before: Option<Row>): Option<Row> {
    match verdict
    case Fresh(hash, notes) => Some(Row(hash, head, notes))
    case _ => before
  }

  /** Parse failures at the end of `files`, counting back to the last file that parsed. */
  function Streak(verdict: Path -> Verdict, files: seq<Path>): nat {
    if files == [] then 0
    else
      var n := |files| - 1;
      match verdict(files[n])
      case Fresh(_, _) => 0
      case ParseFailed => Streak(verdict, files[..n]) + 1
      case _ => Streak(verdict, files[..n])
  }

  /** The breaker trips at file `i`. */
  ghost predicate Trips(verdict: Path -> Verdict, files: seq<Path>, i: int) {
    0 <= i < |files| && verdict(files[i]).ParseFailed? && CircuitBreakerShouldOpen(Streak(verdict, files[..i + 1]))
  }

  /** Phase 1, started at file `k`, comes to `p` before the breaker trips. */
  ghost predicate Reached(verdict: Path -> Verdict, files: seq<Path>, k: nat, p: Path) {
    exists i :: k <= i < |files| && files[i] == p && forall j :: k <= j <= i ==> !Trips(verdict, files, j)
  }

  lemma ReachedStep(verdict: Path -> Verdict, files: seq<Path>, k: nat, p: Path)
    requires k < |files|
    ensures Reached(verdict, files, k, p) <==>
            !Trips(verdict, files, k) && (files[k] == p || Reached(verdict, files, k + 1, p))
  {
    if !Trips(verdict, files, k) && Reached(verdict, files, k + 1, p) {
      var i :| k + 1 <= i < |files| && files[i] == p && forall j :: k + 1 <= j <= i ==> !Trips(verdict, files, j);
      assert forall j :: k <= j <= i ==> !Trips(verdict, files, j);
    }
  }

  lemma StreakStep(verdict: Path -> Verdict, files: seq<Path>, k: nat)
    requires k < |files|
    ensures Streak(verdict, files[..k + 1]) ==
            match verdict(files[k])
            case Fresh(_, _) => 0
            case ParseFailed => Streak(verdict, files[..k]) + 1
            case _ => Streak(verdict, files[..k])
  {
    assert files[..k + 1][..k] == files[..k];
  }

  lemma {:induction false} Phase1Lookup(verdict: Path -> Verdict, head: Sha, files: seq<Path>, k: nat,
                                        s: VaultState, p: Path)
    requires k <= |files|
    ensures var r := ApplyAll(s, Phase1(verdict, head, files[k..], Streak(verdict, files[..k])));
            && r.marker == s.marker && r.visibility == s.visibility
            && Lookup(r.rows, p) ==
               (if Reached(verdict, files, k, p) then AfterPhase1(verdict(p), head, Lookup(s.rows, p))
                else Lookup(s.rows, p))
    decreases |files| - k
  {
    if k < |files| {
      var v := verdict(files[k]);
      StreakStep(verdict, files, k);
      ReachedStep(verdict, files, k, p);
      assert files[k..][1..] == files[k + 1..];
      if v.Fresh? {
        var op := Batch(files[k], v.hash, head, v.notes);
        Phase1Lookup(verdict, head, files, k + 1, Apply(s, op), p);
        var rest := Phase1(verdict, head, files[k + 1..], 0);
        assert ([op] + rest)[1..] == rest;
      } else if !Trips(verdict, files, k) {
        Phase1Lookup(verdict, head, files, k + 1, s, p);
      }
    }
  }

  lemma CleanFilesAreReached(tc: Toolchain, repo: Repo, vis: Visibility, indexed: map<Path, string>, p: Path)
    requires ParseClean(tc, repo, vis)
    ensures Reached(Verdicts(tc, repo, vis, indexed), repo.listed, 0, p) <==> p in repo.listed
  {
    var verdict := Verdicts(tc, repo, vis, indexed);
    forall j ensures !Trips(verdict, repo.listed, j) {
      if 0 <= j < |repo.listed| {
        assert repo.listed[j] in repo.listed;
      }
    }
  }

  lemma {:induction false} Phase2Lookup(repo: Repo, indexed: map<Path, string>, order: seq<Path>, s: VaultState,
                                        p: Path)
    ensures var r := ApplyAll(s, Phase2(repo, indexed, order));
            && r.marker == s.marker && r.visibility == s.visibility
            && Lookup(r.rows, p) ==
               (if p in order && p in indexed && p !in repo.listed then None else Lookup(s.rows, p))
    decreases |order|
  {
    if order != [] {
      assert order == [order[0]] + order[1..];
      if order[0] in indexed && order[0] !in repo.listed {
        var first := [Batch(order[0], "", "", []), DropRow(order[0])];
        var s' := ApplyAll(s, first);
        ApplyTwo(s, first[0], first[1]);
        ApplyAllConcat(s, first, Phase2(repo, indexed, order[1..]));
        Phase2Lookup(repo, indexed, order[1..], s', p);
      } else {
        Phase2Lookup(repo, indexed, order[1..], s, p);
      }
    }
  }

  /** The row of one path after the opening steps. */
  lemma OpeningState(s: VaultState, rebuild: bool, vis: Visibility)
    requires !Refused(s)
    ensures var r := ApplyAll(s, Opening(s, rebuild, vis));
            && r.rows == (if NeedsRebuild(s, rebuild) then map[] else s.rows)
            && r.visibility == Some(vis) && r.marker.Some?
  {
    if s.marker.Some? {
      ApplyThree(s, WriteMarker(ReadAttempts(s.marker.value) + 1), Drop, SetVisibility(vis));
    } else if rebuild {
      ApplyThree(s, WriteMarker(0), Drop, SetVisibility(vis));
    } else {
      ApplyTwo(s, SetVisibility(vis), WriteMarker(0));
    }
  }

  lemma ApplyFour(s: VaultState, a: seq<Op>, b: seq<Op>, c: seq<Op>, d: Op)
    ensures ApplyAll(s, a + b + c + [d]) == Apply(ApplyAll(ApplyAll(ApplyAll(s, a), b), c), d)
  {
    ApplyAllConcat(s, a, b);
    ApplyAllConcat(s, a + b, c);
    ApplyAllConcat(s, a + b + c, [d]);
  }

  /** A completed run, path by path, whatever reads or parses: a fresh file that Phase 1 comes to
      before the breaker trips replaces its row, any other listed file keeps the row the opening left,
      and a path git no longer lists has no row.  The marker goes, tripped or not. */
  lemma IngestLookup(tc: Toolchain, s: VaultState, rebuild: bool, vis: Visibility, repo: Repo, order: seq<Path>,
                     p: Path)
    requires !Refused(s) && Enumerates(order, s.rows.Keys)
    ensures var r := ApplyAll(s, IngestPlan(tc, s, rebuild, vis, repo, order));
            var verdict := Verdicts(tc, repo, vis, IndexedAfterOpening(s, rebuild));
            && r.marker == None && r.visibility == Some(vis)
            && Lookup(r.rows, p) ==
               IngestedRow(verdict, repo, if NeedsRebuild(s, rebuild) then None else Lookup(s.rows, p), p)
  {
    var indexed := IndexedAfterOpening(s, rebuild);
    PhasesLookup(Verdicts(tc, repo, vis, indexed), s, rebuild, vis, indexed, repo, order, p);
  }

  ghost function IngestedRow(verdict: Path -> Verdict, repo: Repo, before: Option<Row>, p: Path): Option<Row> {
    if p !in repo.listed then None
    else if Reached(verdict, repo.listed, 0, p) then AfterPhase1(verdict(p), repo.head, before)
    else before
  }

  lemma PhasesLookup(verdict: Path -> Verdict, s: VaultState, rebuild: bool, vis: Visibility,
                     indexed: map<Path, string>, repo: Repo, order: seq<Path>, p: Path)
    requires !Refused(s) && Enumerates(order, s.rows.Keys)
    requires indexed == IndexedAfterOpening(s, rebuild)
    ensures var r := ApplyAll(s, Opening(s, rebuild, vis) + Phase1(verdict, repo.head, repo.listed, 0)
                                 + Phase2(repo, indexed, order) + [RemoveMarker]);
            && r.marker == None && r.visibility == Some(vis)
            && Lookup(r.rows, p) ==
               IngestedRow(verdict, repo, if NeedsRebuild(s, rebuild) then None else Lookup(s.rows, p), p)
  {
    var a := Opening(s, rebuild, vis);
    var b := Phase1(verdict, repo.head, repo.listed, 0);
    var c := Phase2(repo, indexed, order);
    ApplyFour(s, a, b, c, RemoveMarker);
    OpeningState(s, rebuild, vis);
    var sa := ApplyAll(s, a);
    Phase1Lookup(verdict, repo.head, repo.listed, 0, sa, p);
    assert repo.listed[0..] == repo.listed;
    Phase2Lookup(repo, indexed, order, ApplyAll(sa, b), p);
  }

  // ---------------------------------------------------------------- fast form against rebuild

  /** A listed path the hash-skipping run leaves wrong: a row for a file that has no notes to hold, a row
      with the current hash over other notes, or a file to write that the breaker trips before. */
  ghost predicate LeftWrong(tc: Toolchain, s: VaultState, vis: Visibility, repo: Repo, p: Path) {
    && p in repo.listed
    && match Reference(tc, repo.tree, p, vis)
       case None => p in s.rows
       case Some(c) =>
         if p in s.rows && s.rows[p].hash == c.hash then s.rows[p].notes != c.notes
         else !Reached(Verdicts(tc, repo, vis, Hashes(s.rows)), repo.listed, 0, p)
  }

  /** A rebuild is exact, whatever the index held before, if and only if the breaker trips on no way
      to a file that has notes. */
  lemma RebuildExactIff(tc: Toolchain, s: VaultState, rebuild: bool, vis: Visibility, repo: Repo, order: seq<Path>)
    requires !Refused(s) && NeedsRebuild(s, rebuild) && Enumerates(order, s.rows.Keys)
    ensures Exact(tc, repo, vis, ApplyAll(s, IngestPlan(tc, s, rebuild, vis, repo, order)).rows)
            <==> forall p :: p in repo.listed && Reference(tc, repo.tree, p, vis).Some? ==>
                   Reached(Verdicts(tc, repo, vis, map[]), repo.listed, 0, p)
  {
    var rows := ApplyAll(s, IngestPlan(tc, s, rebuild, vis, repo, order)).rows;
    var verdict := Verdicts(tc, repo, vis, map[]);
    forall p
      ensures ContentOf(Lookup(rows, p)) == (if p in repo.listed then Reference(tc, repo.tree, p, vis) else None)
              <==> (p in repo.listed && Reference(tc, repo.tree, p, vis).Some? ==> Reached(verdict, repo.listed, 0, p))
    {
      IngestLookup(tc, s, rebuild, vis, repo, order, p);
    }
    if Exact(tc, repo, vis, rows) {
      forall p | p in repo.listed && Reference(tc, repo.tree, p, vis).Some?
        ensures Reached(verdict, repo.listed, 0, p)
      {
        assert ContentOf(Lookup(rows, p)) == Reference(tc, repo.tree, p, vis);
      }
    }
  }

  /** When every file parses, a rebuild is exact whatever the index held before. */
  lemma RebuildIsExact(tc: Toolchain, s: VaultState, rebuild: bool, vis: Visibility, repo: Repo, order: seq<Path>)
    requires !Refused(s) && NeedsRebuild(s, rebuild)
    requires ParseClean(tc, repo, vis) && Enumerates(order, s.rows.Keys)
    ensures Exact(tc, repo, vis, ApplyAll(s, IngestPlan(tc, s, rebuild, vis, repo, order)).rows)
  {
    forall p | p in repo.listed ensures Reached(Verdicts(tc, repo, vis, map[]), repo.listed, 0, p) {
      CleanFilesAreReached(tc, repo, vis, map[], p);
    }
    RebuildExactIff(tc, s, rebuild, vis, repo, order);
  }

  // A tree whose first three files do not parse.

  function StrictToolchain(): Toolchain {
    Toolchain(bytes => Some(""), bytes => "h",
              (lang: Lang, p: Path, c: string, private: bool) => if p == "d.rs" then Some([]) else None)
  }

  function StrictRepo(): Repo {
    Repo("c0", ["a.rs", "b.rs", "c.rs", "d.rs"],
         map["a.rs" := [], "b.rs" := [], "c.rs" := [], "d.rs" := []], sha => true, sha => "")
  }

  lemma StrictVerdict(p: Path)
    requires p in StrictRepo().listed
    ensures Verdicts(StrictToolchain(), StrictRepo(), Pub, map[])(p)
            == if p == "d.rs" then Fresh("h", []) else ParseFailed
    ensures Reference(StrictToolchain(), StrictRepo().tree, "d.rs", Pub).Some?
  {
    assert EndsWith(p, SUPPORTED_EXTENSIONS[0]);
    assert EndsWith("d.rs", SUPPORTED_EXTENSIONS[0]);
  }

  lemma ThirdFailureTrips(verdict: Path -> Verdict, files: seq<Path>)
    requires |files| >= 3 && verdict(files[0]) == verdict(files[1]) == verdict(files[2]) == ParseFailed
    ensures Trips(verdict, files, 2)
  {
    StreakStep(verdict, files, 0);
    StreakStep(verdict, files, 1);
    StreakStep(verdict, files, 2);
  }

  /** Three files that do not parse keep a fourth out of a rebuilt index, and no marker says so. */
  lemma TrippedRebuildLooksComplete(s: VaultState) returns (tc: Toolchain, repo: Repo)
    requires s == VaultState(map[], None, None)
    ensures repo.listed == ["a.rs", "b.rs", "c.rs", "d.rs"] && Reference(tc, repo.tree, "d.rs", Pub).Some?
    ensures var r := ApplyAll(s, IngestPlan(tc, s, true, Pub, repo, []));
            "d.rs" !in r.rows && r.marker.None?
  {
    tc, repo := StrictToolchain(), StrictRepo();
    var verdict := Verdicts(tc, repo, Pub, map[]);
    var files := repo.listed;
    StrictVerdict(files[0]);
    StrictVerdict(files[1]);
    StrictVerdict(files[2]);
    ThirdFailureTrips(verdict, files);
    FourthIsNotReached(verdict, files);
    IngestLookup(tc, s, true, Pub, repo, [], files[3]);
  }

  lemma FourthIsNotReached(verdict: Path -> Verdict, files: seq<Path>)
    requires files == ["a.rs", "b.rs", "c.rs", "d.rs"] && Trips(verdict, files, 2)
    ensures !Reached(verdict, files, 0, "d.rs")
  {
    assert forall i :: 0 <= i < |files| && files[i] == "d.rs" ==> i == 3;
  }

  /** The hash-skipping run equals the rebuild exactly when it leaves no path wrong, whatever reads or parses. */
  lemma FastIngestExactIff(tc: Toolchain, s: VaultState, vis: Visibility, repo: Repo, order: seq<Path>)
    requires s.marker.None? && Enumerates(order, s.rows.Keys)
    ensures Exact(tc, repo, vis, ApplyAll(s, IngestPlan(tc, s, false, vis, repo, order)).rows)
            <==> forall p :: !LeftWrong(tc, s, vis, repo, p)
  {
    var rows := ApplyAll(s, IngestPlan(tc, s, false, vis, repo, order)).rows;
    forall p
      ensures ContentOf(Lookup(rows, p)) == (if p in repo.listed then Reference(tc, repo.tree, p, vis) else None)
              <==> !LeftWrong(tc, s, vis, repo, p)
    {
      FastIngestAt(tc, s, vis, repo, order, p);
    }
    if Exact(tc, repo, vis, rows) {
      forall p ensures !LeftWrong(tc, s, vis, repo, p) {
        assert ContentOf(Lookup(rows, p)) == (if p in repo.listed then Reference(tc, repo.tree, p, vis) else None);
      }
    }
  }

  lemma FastIngestAt(tc: Toolchain, s: VaultState, vis: Visibility, repo: Repo, order: seq<Path>, p: Path)
    requires s.marker.None? && Enumerates(order, s.rows.Keys)
    ensures var rows := ApplyAll(s, IngestPlan(tc, s, false, vis, repo, order)).rows;
            ContentOf(Lookup(rows, p)) == (if p in repo.listed then Reference(tc, repo.tree, p, vis) else None)
            <==> !LeftWrong(tc, s, vis, repo, p)
  {
    IngestLookup(tc, s, false, vis, repo, order, p);
  }

  /** When every file parses, only a row outside the pipeline or with the current hash can be left wrong. */
  lemma CleanLeftWrongIff(tc: Toolchain, s: VaultState, vis: Visibility, repo: Repo, p: Path)
    requires ParseClean(tc, repo, vis)
    ensures LeftWrong(tc, s, vis, repo, p) <==>
            && p in s.rows && p in repo.listed
            && (!Tracked(p)
                || (s.rows[p].hash == tc.hash(repo.tree[p])
                    && Some(s.rows[p].notes) != Derive(tc, p, repo.tree[p], vis)))
  {
    CleanFilesAreReached(tc, repo, vis, Hashes(s.rows), p);
  }

  /** Replaying a completed run on an unchanged repository writes no batch and deletes no row. */
  lemma SecondIngestWritesNothing(tc: Toolchain, s: VaultState, vis: Visibility, repo: Repo, order: seq<Path>)
    requires s.marker.None? && Exact(tc, repo, vis, s.rows)
    ensures IngestPlan(tc, s, false, vis, repo, order) == [SetVisibility(vis), WriteMarker(0), RemoveMarker]
  {
    Phase1Idle(tc, repo, vis, s, repo.listed, 0);
    Phase2Idle(repo, s, tc, vis, order);
  }

  lemma {:induction false} Phase1Idle(tc: Toolchain, repo: Repo, vis: Visibility, s: VaultState, files: seq<Path>,
                                      failures: nat)
    requires Exact(tc, repo, vis, s.rows) && forall q :: q in files ==> q in repo.listed
    ensures Phase1(Verdicts(tc, repo, vis, Hashes(s.rows)), repo.head, files, failures) == []
    decreases |files|
  {
    if files != [] {
      var p := files[0];
      assert ContentOf(Lookup(s.rows, p)) == Reference(tc, repo.tree, p, vis);
      Phase1Idle(tc, repo, vis, s, files[1..], failures);
      Phase1Idle(tc, repo, vis, s, files[1..], failures + 1);
    }
  }

  lemma {:induction false} Phase2Idle(repo: Repo, s: VaultState, tc: Toolchain, vis: Visibility, order: seq<Path>)
    requires Exact(tc, repo, vis, s.rows)
    ensures Phase2(repo, Hashes(s.rows), order) == []
    decreases |order|
  {
    if order != [] {
      var p := order[0];
      assert p !in repo.listed ==> ContentOf(Lookup(s.rows, p)) == None;
      Phase2Idle(repo, s, tc, vis, order[1..]);
    }
  }

  /** The hash skip ignores a change of visibility: a concrete row that is wrongly kept. */
  lemma VisibilityChangeIsSkipped() returns (tc: Toolchain, s: VaultState, repo: Repo)
    ensures s.marker.None? && ParseClean(tc, repo, All)
    ensures s.rows == map["a.rs" := Row("h", "c0", [])]
    ensures !Exact(tc, repo, All, ApplyAll(s, IngestPlan(tc, s, false, All, repo, ["a.rs"])).rows)
  {
    tc := Toolchain(bytes => Some(""), bytes => "h",
                    (lang: Lang, p: Path, c: string, private: bool) => Some(if private then [Note("f", "")] else []));
    repo := Repo("c0", ["a.rs"], map["a.rs" := []], sha => true, sha => "");
    s := VaultState(map["a.rs" := Row("h", "c0", [])], Some(Pub), None);
    assert EndsWith("a.rs", SUPPORTED_EXTENSIONS[0]);
    CleanLeftWrongIff(tc, s, All, repo, "a.rs");
    FastIngestExactIff(tc, s, All, repo, ["a.rs"]);
  }
}
