/** Exactness over whole histories: what any history at one visibility leaves for the next ingest,
    and how long a chain of diff updates stays exact. */
module CodeHistory {
  import opened Wrappers
  import opened Text
  import opened CodeIndex
  import opened CodeIngest
  import opened CodeUpdate
  import opened CodeRuns
  import opened GitDiff

  // ---------------------------------------------------------------- any history, then one ingest

  predicate Tombstone(row: Row) {
    row.hash == "" && row.notes == []
  }

  /** The row is a half-deleted path, or the derivation at `vis` of some content with its hash. */
  ghost predicate Provenanced(tc: Toolchain, vis: Visibility, p: Path, row: Row) {
    && Supported(p)
    && (Tombstone(row)
        || exists bytes :: tc.hash(bytes) == row.hash && Derive(tc, p, bytes, vis) == Some(row.notes))
  }

  ghost predicate AllProvenanced(tc: Toolchain, vis: Visibility, rows: map<Path, Row>) {
    forall p :: p in rows ==> Provenanced(tc, vis, p, rows[p])
  }

  ghost predicate GoodOp(tc: Toolchain, vis: Visibility, op: Op) {
    op.Batch? ==> Provenanced(tc, vis, op.path, Row(op.hash, op.sha, op.notes))
  }

  ghost predicate GoodOps(tc: Toolchain, vis: Visibility, ops: seq<Op>) {
    forall i :: 0 <= i < |ops| ==> GoodOp(tc, vis, ops[i])
  }

  lemma {:induction false} GoodOpsKeepProvenance(tc: Toolchain, vis: Visibility, s: VaultState, ops: seq<Op>)
    requires AllProvenanced(tc, vis, s.rows) && GoodOps(tc, vis, ops)
    ensures AllProvenanced(tc, vis, ApplyAll(s, ops).rows)
    decreases |ops|
  {
    if ops != [] {
      assert GoodOp(tc, vis, ops[0]);
      GoodOpsKeepProvenance(tc, vis, Apply(s, ops[0]), ops[1..]);
    }
  }

  ghost predicate GoodVerdicts(tc: Toolchain, vis: Visibility, verdict: Path -> Verdict) {
    forall p :: verdict(p).Fresh? ==> forall sha :: Provenanced(tc, vis, p, Row(verdict(p).hash, sha, verdict(p).notes))
  }

  lemma ClassifyIsGood(tc: Toolchain, repo: Repo, vis: Visibility, indexed: map<Path, string>)
    ensures GoodVerdicts(tc, vis, Verdicts(tc, repo, vis, indexed))
  {
    var verdict := Verdicts(tc, repo, vis, indexed);
    forall p, sha | verdict(p).Fresh?
      ensures Provenanced(tc, vis, p, Row(verdict(p).hash, sha, verdict(p).notes))
    {
      var bytes := repo.tree[p];
      assert tc.hash(bytes) == verdict(p).hash && Derive(tc, p, bytes, vis) == Some(verdict(p).notes);
    }
  }

  lemma {:induction false} Phase1Good(tc: Toolchain, vis: Visibility, verdict: Path -> Verdict, head: Sha,
                                      files: seq<Path>, failures: nat)
    requires GoodVerdicts(tc, vis, verdict)
    ensures GoodOps(tc, vis, Phase1(verdict, head, files, failures))
    decreases |files|
  {
    if files != [] {
      Phase1Good(tc, vis, verdict, head, files[1..], failures);
      Phase1Good(tc, vis, verdict, head, files[1..], failures + 1);
      Phase1Good(tc, vis, verdict, head, files[1..], 0);
    }
  }

  lemma {:induction false} Phase2Good(tc: Toolchain, vis: Visibility, repo: Repo, indexed: map<Path, string>,
                                      order: seq<Path>)
    requires forall p :: p in indexed ==> Supported(p)
    ensures GoodOps(tc, vis, Phase2(repo, indexed, order))
    decreases |order|
  {
    if order != [] {
      Phase2Good(tc, vis, repo, indexed, order[1..]);
    }
  }

  lemma ChangeGood(tc: Toolchain, vis: Visibility, repo: Repo, c: Change)
    ensures GoodOps(tc, vis, ChangeOps(tc, repo, vis, c))
  {}

  lemma {:induction false} DiffGood(tc: Toolchain, vis: Visibility, repo: Repo, changes: seq<Change>)
    ensures GoodOps(tc, vis, DiffOps(tc, repo, vis, changes))
    decreases |changes|
  {
    if changes != [] {
      ChangeGood(tc, vis, repo, changes[0]);
      DiffGood(tc, vis, repo, changes[1..]);
    }
  }

  function CallVisibility(s: VaultState, call: Call): Visibility {
    match call
    case Ingest(_, vis, _, _) => vis
    case Update(_, override, _, _) => EffectiveVisibility(s, override)
  }

  lemma IngestGood(tc: Toolchain, s: VaultState, rebuild: bool, vis: Visibility, repo: Repo, order: seq<Path>)
    requires AllProvenanced(tc, vis, s.rows)
    ensures GoodOps(tc, vis, IngestPlan(tc, s, rebuild, vis, repo, order))
  {
    if !Refused(s) {
      var indexed := IndexedAfterOpening(s, rebuild);
      var verdict := Verdicts(tc, repo, vis, indexed);
      ClassifyIsGood(tc, repo, vis, indexed);
      Phase1Good(tc, vis, verdict, repo.head, repo.listed, 0);
      Phase2Good(tc, vis, repo, indexed, order);
    }
  }

  lemma PlanGood(tc: Toolchain, s: VaultState, call: Call)
    requires AllProvenanced(tc, CallVisibility(s, call), s.rows)
    ensures GoodOps(tc, CallVisibility(s, call), Plan(tc, s, call))
  {
    match call
    case Ingest(rebuild, vis, repo, order) => IngestGood(tc, s, rebuild, vis, repo, order);
    case Update(last, override, repo, order) =>
      var vis := EffectiveVisibility(s, override);
      if s.marker.Some? {
        IngestGood(tc, s, true, vis, repo, order);
      } else if last.None? {
        IngestGood(tc, s, false, vis, repo, order);
      } else {
        DiffGood(tc, vis, repo, ReadDiff(repo, last.value));
      }
  }

  /** Every call of the history works at visibility `vis`. */
  predicate Steady(tc: Toolchain, s: VaultState, events: seq<Event>, vis: Visibility)
    decreases |events|
  {
    events == [] ||
    (&& (events[0].Run? ==> CallVisibility(s, events[0].call) == vis)
     && Steady(tc, After(tc, s, events[0]), events[1..], vis))
  }

  lemma {:induction false} HistoryKeepsProvenance(tc: Toolchain, s: VaultState, events: seq<Event>, vis: Visibility)
    requires AllProvenanced(tc, vis, s.rows) && Steady(tc, s, events, vis)
    ensures AllProvenanced(tc, vis, AfterAll(tc, s, events).rows)
    decreases |events|
  {
    if events != [] {
      var e := events[0];
      if e.Run? {
        PlanGood(tc, s, e.call);
        var plan := Plan(tc, s, e.call);
        assert GoodOps(tc, vis, Cut(plan, e.budget));
      }
      GoodOpsKeepProvenance(tc, vis, s, Performed(tc, s, e));
      HistoryKeepsProvenance(tc, After(tc, s, e), events[1..], vis);
    }
  }

  function RowsAfterOpening(s: VaultState, rebuild: bool): map<Path, Row> {
    if NeedsRebuild(s, rebuild) then map[] else s.rows
  }

  /** A listed path an ingest fails over these rows: a row for a file that has no notes, or a file without its
      current row that the breaker trips before. */
  ghost predicate Missed(tc: Toolchain, rows: map<Path, Row>, vis: Visibility, repo: Repo, p: Path) {
    && p in repo.listed
    && match Reference(tc, repo.tree, p, vis)
       case None => p in rows
       case Some(c) =>
         && !(p in rows && rows[p].hash == c.hash)
         && !Reached(Verdicts(tc, repo, vis, Hashes(rows)), repo.listed, 0, p)
  }

  ghost predicate MissesNothing(tc: Toolchain, rows: map<Path, Row>, vis: Visibility, repo: Repo) {
    forall p :: !Missed(tc, rows, vis, repo, p)
  }

  /** The hash of a row with a history tells its notes. */
  lemma ProvenancedIsRight(tc: Toolchain, s: VaultState, vis: Visibility, repo: Repo, p: Path)
    requires IdealHash(tc) && (forall bytes :: tc.hash(bytes) != "") && AllProvenanced(tc, vis, s.rows)
    ensures LeftWrong(tc, s, vis, repo, p) <==> Missed(tc, s.rows, vis, repo, p)
  {
    if p in s.rows {
      assert Provenanced(tc, vis, p, s.rows[p]);
    }
  }

  lemma MissedFromNothing(tc: Toolchain, vis: Visibility, repo: Repo, p: Path)
    ensures Missed(tc, map[], vis, repo, p) <==>
            p in repo.listed && Reference(tc, repo.tree, p, vis).Some?
            && !Reached(Verdicts(tc, repo, vis, map[]), repo.listed, 0, p)
  {
    assert Hashes(map[]) == map[];
  }

  /** Whatever happened before at one visibility (ingests and updates cut anywhere, diffs that skipped paths,
      markers removed by hand), the next accepted and completed ingest is exact if and only if it misses nothing. */
  lemma IngestAfterAnyHistoryExactIff(tc: Toolchain, s: VaultState, events: seq<Event>, rebuild: bool, vis: Visibility,
                                      repo: Repo, order: seq<Path>)
    requires IdealHash(tc) && forall bytes :: tc.hash(bytes) != ""
    requires s.rows == map[] && Steady(tc, s, events, vis)
    requires !Refused(AfterAll(tc, s, events)) && Enumerates(order, AfterAll(tc, s, events).rows.Keys)
    ensures var t := AfterAll(tc, s, events);
            Exact(tc, repo, vis, ApplyAll(t, IngestPlan(tc, t, rebuild, vis, repo, order)).rows)
            <==> MissesNothing(tc, RowsAfterOpening(t, rebuild), vis, repo)
  {
    HistoryKeepsProvenance(tc, s, events, vis);
    IngestMisses(tc, AfterAll(tc, s, events), rebuild, vis, repo, order);
  }

  lemma IngestMisses(tc: Toolchain, s: VaultState, rebuild: bool, vis: Visibility, repo: Repo, order: seq<Path>)
    requires IdealHash(tc) && (forall bytes :: tc.hash(bytes) != "") && AllProvenanced(tc, vis, s.rows)
    requires !Refused(s) && Enumerates(order, s.rows.Keys)
    ensures Exact(tc, repo, vis, ApplyAll(s, IngestPlan(tc, s, rebuild, vis, repo, order)).rows)
            <==> MissesNothing(tc, RowsAfterOpening(s, rebuild), vis, repo)
  {
    if NeedsRebuild(s, rebuild) {
      RebuildMisses(tc, s, rebuild, vis, repo, order);
    } else {
      FastIngestMisses(tc, s, vis, repo, order);
    }
  }

  lemma RebuildMisses(tc: Toolchain, s: VaultState, rebuild: bool, vis: Visibility, repo: Repo, order: seq<Path>)
    requires !Refused(s) && NeedsRebuild(s, rebuild) && Enumerates(order, s.rows.Keys)
    ensures Exact(tc, repo, vis, ApplyAll(s, IngestPlan(tc, s, rebuild, vis, repo, order)).rows)
            <==> MissesNothing(tc, map[], vis, repo)
  {
    RebuildExactIff(tc, s, rebuild, vis, repo, order);
    forall p
      ensures Missed(tc, map[], vis, repo, p) <==>
              !(p in repo.listed && Reference(tc, repo.tree, p, vis).Some? ==>
                Reached(Verdicts(tc, repo, vis, map[]), repo.listed, 0, p))
    {
      MissedFromNothing(tc, vis, repo, p);
    }
  }

  lemma FastIngestMisses(tc: Toolchain, s: VaultState, vis: Visibility, repo: Repo, order: seq<Path>)
    requires IdealHash(tc) && (forall bytes :: tc.hash(bytes) != "") && AllProvenanced(tc, vis, s.rows)
    requires s.marker.None? && Enumerates(order, s.rows.Keys)
    ensures Exact(tc, repo, vis, ApplyAll(s, IngestPlan(tc, s, false, vis, repo, order)).rows)
            <==> MissesNothing(tc, s.rows, vis, repo)
  {
    FastIngestExactIff(tc, s, vis, repo, order);
    forall p ensures LeftWrong(tc, s, vis, repo, p) <==> Missed(tc, s.rows, vis, repo, p) {
      ProvenancedIsRight(tc, s, vis, repo, p);
    }
  }

  /** When every listed file parses, it is exact. */
  lemma IngestAfterAnyHistoryIsExact(tc: Toolchain, s: VaultState, events: seq<Event>, rebuild: bool, vis: Visibility,
                                     repo: Repo, order: seq<Path>)
    requires IdealHash(tc) && forall bytes :: tc.hash(bytes) != ""
    requires s.rows == map[] && Steady(tc, s, events, vis)
    requires !Refused(AfterAll(tc, s, events)) && Enumerates(order, AfterAll(tc, s, events).rows.Keys)
    requires ParseClean(tc, repo, vis) && forall p :: p in repo.listed ==> !Absolute(p)
    ensures var t := AfterAll(tc, s, events);
            Exact(tc, repo, vis, ApplyAll(t, IngestPlan(tc, t, rebuild, vis, repo, order)).rows)
  {
    var t := AfterAll(tc, s, events);
    var rows := RowsAfterOpening(t, rebuild);
    HistoryKeepsProvenance(tc, s, events, vis);
    forall p ensures !Missed(tc, rows, vis, repo, p) {
      CleanFilesAreReached(tc, repo, vis, Hashes(rows), p);
      if p in rows {
        assert Provenanced(tc, vis, p, rows[p]);
      }
    }
    IngestAfterAnyHistoryExactIff(tc, s, events, rebuild, vis, repo, order);
  }

  // ---------------------------------------------------------------- chains of updates

  /** Every commit git knows, and an iteration order for every set of paths. */
  datatype World = World(commit: Sha -> map<Path, Bytes>, enumerate: set<Path> -> seq<Path>)

  /** One synchronisation of the index with a new HEAD: a plain ingest or a diff update. */
  datatype Sync = Sync(full: bool, repo: Repo, last: Option<Sha>)

  /** What git answers during one sync; of the commits, it need only know those synchronised before. */
  ghost predicate Faithful(w: World, repo: Repo, heads: seq<Sha>) {
    && repo.head != "" && repo.tree == w.commit(repo.head)
    && (forall p :: p in repo.listed <==> p in repo.tree)
    && (forall base :: base in heads ==> PrintsCommitDiff(w.commit(base), base, repo))
  }

  /** A true diff of two commits: what is gone is printed with `D` and with nothing else. */
  ghost predicate PrintsCommitDiff(baseTree: map<Path, Bytes>, base: Sha, repo: Repo) {
    exists raw :: PrintsAs(base, repo, raw) && IsPrintedDiff(baseTree, repo.tree, raw)
                  && forall p :: Prints(raw, p, {'A', 'M', 'T'}) ==> p in repo.tree
  }

  lemma ReadsCommitDiff(baseTree: map<Path, Bytes>, base: Sha, repo: Repo)
    requires PrintsCommitDiff(baseTree, base, repo)
    ensures PrintsDiff(baseTree, base, repo) && IsDiff(baseTree, repo.tree, ReadDiff(repo, base))
    ensures forall c :: c in ReadDiff(repo, base) && c.path !in repo.tree ==> c.status == Deleted
  {
    var raw :| PrintsAs(base, repo, raw) && IsPrintedDiff(baseTree, repo.tree, raw)
               && forall p :: Prints(raw, p, {'A', 'M', 'T'}) ==> p in repo.tree;
    ReadsTrueDiff(baseTree, base, repo);
    forall c | c in ReadDiff(repo, base) && c.path !in repo.tree ensures c.status == Deleted {
      ParsedIff(raw, c.path);
      assert c.status == AddedOrModified ==> c == Change(AddedOrModified, c.path);
    }
  }

  function SyncPlan(tc: Toolchain, w: World, vis: Visibility, s: VaultState, y: Sync): seq<Op> {
    var order := w.enumerate(s.rows.Keys);
    if y.full then IngestPlan(tc, s, false, vis, y.repo, order)
    else UpdatePlan(tc, s, y.last, None, y.repo, order)
  }

  /** The index is exact at the commit `head`, and every row was written at some commit of `heads`. */
  ghost predicate InSync(tc: Toolchain, w: World, vis: Visibility, s: VaultState, heads: seq<Sha>) {
    && heads != [] && s.marker.None? && s.visibility == Some(vis)
    && ExactTree(tc, w.commit(heads[|heads| - 1]), vis, s.rows)
    && forall p :: p in s.rows ==> s.rows[p].sha in heads
  }

  /** No supported path comes back, at a later commit, to a content it had left. */
  ghost predicate NothingReverted(w: World, heads: seq<Sha>) {
    forall i, j, k, p | 0 <= i < j < k < |heads| && Supported(p) ::
      !Differs(w.commit(heads[i]), w.commit(heads[k]), p) ==> !Differs(w.commit(heads[j]), w.commit(heads[k]), p)
  }

  lemma IngestWritesKnownShas(tc: Toolchain, s: VaultState, vis: Visibility, repo: Repo, order: seq<Path>,
                              heads: seq<Sha>)
    requires Enumerates(order, s.rows.Keys) && !Refused(s)
    requires forall p :: p in s.rows ==> s.rows[p].sha in heads
    ensures var r := ApplyAll(s, IngestPlan(tc, s, false, vis, repo, order));
            && r.marker.None? && r.visibility == Some(vis)
            && forall p :: p in r.rows ==> r.rows[p].sha in heads + [repo.head]
  {
    var r := ApplyAll(s, IngestPlan(tc, s, false, vis, repo, order));
    IngestLookup(tc, s, false, vis, repo, order, "");
    forall p | p in r.rows ensures r.rows[p].sha in heads + [repo.head] {
      IngestLookup(tc, s, false, vis, repo, order, p);
      assert Lookup(r.rows, p) == Some(r.rows[p]);
    }
  }

  /** No file that had notes at the tree `prev` is still there and has lost them. */
  ghost predicate NothingSpoiled(tc: Toolchain, vis: Visibility, prev: map<Path, Bytes>, tree: map<Path, Bytes>) {
    forall p :: p in tree && Reference(tc, prev, p, vis).Some? ==> Reference(tc, tree, p, vis).Some?
  }

  /** An ingest comes to every file that has notes before its breaker trips. */
  ghost predicate NeverTrips(tc: Toolchain, s: VaultState, vis: Visibility, repo: Repo) {
    forall p :: p in repo.listed && Reference(tc, repo.tree, p, vis).Some? ==>
      Reached(Verdicts(tc, repo, vis, Hashes(s.rows)), repo.listed, 0, p)
  }

  /** The skip is right about a row that holds the notes of some tree, unless the file has lost them. */
  lemma ExactRowIsRight(tc: Toolchain, s: VaultState, vis: Visibility, prev: map<Path, Bytes>, repo: Repo, p: Path)
    requires IdealHash(tc) && NeverTrips(tc, s, vis, repo) && (p in repo.listed ==> p in repo.tree)
    requires NothingSpoiled(tc, vis, prev, repo.tree)
    requires ContentOf(Lookup(s.rows, p)) == Reference(tc, prev, p, vis)
    ensures !LeftWrong(tc, s, vis, repo, p)
  {
  }

  lemma SyncByIngest(tc: Toolchain, w: World, vis: Visibility, s: VaultState, heads: seq<Sha>, repo: Repo,
                     order: seq<Path>)
    requires IdealHash(tc) && InSync(tc, w, vis, s, heads) && Faithful(w, repo, heads)
    requires NothingSpoiled(tc, vis, w.commit(heads[|heads| - 1]), repo.tree) && NeverTrips(tc, s, vis, repo)
    requires Enumerates(order, s.rows.Keys)
    ensures InSync(tc, w, vis, ApplyAll(s, IngestPlan(tc, s, false, vis, repo, order)), heads + [repo.head])
  {
    IngestKeepsExact(tc, s, vis, w.commit(heads[|heads| - 1]), repo, order);
    IngestWritesKnownShas(tc, s, vis, repo, order, heads);
  }

  lemma IngestKeepsExact(tc: Toolchain, s: VaultState, vis: Visibility, prev: map<Path, Bytes>, repo: Repo,
                         order: seq<Path>)
    requires IdealHash(tc) && s.marker.None? && ExactTree(tc, prev, vis, s.rows)
    requires NothingSpoiled(tc, vis, prev, repo.tree) && NeverTrips(tc, s, vis, repo)
    requires (forall p :: p in repo.listed <==> p in repo.tree) && Enumerates(order, s.rows.Keys)
    ensures ExactTree(tc, repo.tree, vis, ApplyAll(s, IngestPlan(tc, s, false, vis, repo, order)).rows)
  {
    forall p ensures !LeftWrong(tc, s, vis, repo, p) {
      ExactRowIsRight(tc, s, vis, prev, repo, p);
    }
    FastIngestExactIff(tc, s, vis, repo, order);
    var rows := ApplyAll(s, IngestPlan(tc, s, false, vis, repo, order)).rows;
    forall p ensures ContentOf(Lookup(rows, p)) == Reference(tc, repo.tree, p, vis) {
      assert ContentOf(Lookup(rows, p)) == (if p in repo.listed then Reference(tc, repo.tree, p, vis) else None);
    }
  }

  /** A path unchanged since the base of the diff is unchanged since the last synchronised commit. */
  lemma UnchangedSinceBase(w: World, heads: seq<Sha>, base: Sha, head: Sha, p: Path)
    requires heads != [] && base in heads && NothingReverted(w, heads + [head]) && Supported(p)
    requires !Differs(w.commit(base), w.commit(head), p)
    ensures !Differs(w.commit(heads[|heads| - 1]), w.commit(head), p)
  {
    var n, heads' := |heads|, heads + [head];
    var i :| 0 <= i < n && heads[i] == base;
    assert heads'[i] == base && heads'[n - 1] == heads[n - 1] && heads'[n] == head;
    if i < n - 1 {
      assert !Differs(w.commit(heads'[i]), w.commit(heads'[n]), p);
    }
  }

  lemma DiffWritesKnownShas(tc: Toolchain, s: VaultState, base: Sha, repo: Repo, order: seq<Path>,
                            baseTree: map<Path, Bytes>, heads: seq<Sha>)
    requires s.marker.None? && PrintsDiff(baseTree, base, repo)
    requires forall p :: p in s.rows ==> s.rows[p].sha in heads
    ensures var r := ApplyAll(s, UpdatePlan(tc, s, Some(base), None, repo, order));
            && r.marker.None? && r.visibility == Some(EffectiveVisibility(s, None))
            && forall p :: p in r.rows ==> r.rows[p].sha in heads + [repo.head]
  {
    var r := ApplyAll(s, UpdatePlan(tc, s, Some(base), None, repo, order));
    UpdateLookup(tc, s, base, None, repo, order, baseTree, "");
    forall p | p in r.rows ensures r.rows[p].sha in heads + [repo.head] {
      UpdateLookup(tc, s, base, None, repo, order, baseTree, p);
      assert Lookup(r.rows, p) == Some(r.rows[p]);
    }
  }

  /** A path the update does not rewrite has the notes it had at the last synchronised commit. */
  lemma NotRewrittenIsUnchanged(tc: Toolchain, w: World, vis: Visibility, heads: seq<Sha>, repo: Repo, base: Sha,
                                p: Path)
    requires heads != [] && base in heads && Faithful(w, repo, heads) && NothingReverted(w, heads + [repo.head])
    requires NothingSpoiled(tc, vis, w.commit(heads[|heads| - 1]), repo.tree)
    requires !Rewritten(tc, repo, vis, ReadDiff(repo, base), p)
    ensures Reference(tc, w.commit(heads[|heads| - 1]), p, vis) == Reference(tc, repo.tree, p, vis)
  {
    ReadsCommitDiff(w.commit(base), base, repo);
    if Supported(p) && !Lists(ReadDiff(repo, base), p) {
      UnchangedSinceBase(w, heads, base, repo.head, p);
      SameBytesSameNotes(tc, w.commit(heads[|heads| - 1]), repo.tree, p, vis);
    } else if Supported(p) {
      var c :| c in ReadDiff(repo, base) && c.path == p;
      assert !Rewrites(tc, repo, vis, c);
    }
  }

  lemma SyncByDiff(tc: Toolchain, w: World, vis: Visibility, s: VaultState, heads: seq<Sha>, repo: Repo, base: Sha,
                   order: seq<Path>)
    requires InSync(tc, w, vis, s, heads) && Faithful(w, repo, heads)
    requires NothingSpoiled(tc, vis, w.commit(heads[|heads| - 1]), repo.tree)
    requires base in heads && NothingReverted(w, heads + [repo.head])
    ensures InSync(tc, w, vis, ApplyAll(s, UpdatePlan(tc, s, Some(base), None, repo, order)), heads + [repo.head])
  {
    var prev, baseTree := w.commit(heads[|heads| - 1]), w.commit(base);
    ReadsCommitDiff(baseTree, base, repo);
    forall p | !Rewritten(tc, repo, vis, ReadDiff(repo, base), p)
      ensures Reference(tc, prev, p, vis) == Reference(tc, repo.tree, p, vis)
    {
      NotRewrittenIsUnchanged(tc, w, vis, heads, repo, base, p);
    }
    UpdateExactIffNothingReverted(tc, s, base, None, repo, order, baseTree, prev);
    DiffWritesKnownShas(tc, s, base, repo, order, baseTree, heads);
  }

  function Heads(syncs: seq<Sync>): seq<Sha> {
    if syncs == [] then [] else [syncs[0].repo.head] + Heads(syncs[1..])
  }

  /** What one sync meets: no file spoiled since the last one, and, for an ingest, no breaker in the way. */
  ghost predicate Smooth(tc: Toolchain, w: World, vis: Visibility, s: VaultState, heads: seq<Sha>, y: Sync) {
    && heads != [] && NothingSpoiled(tc, vis, w.commit(heads[|heads| - 1]), y.repo.tree)
    && (y.full || y.last.None? ==> NeverTrips(tc, s, vis, y.repo))
  }

  /** Each sync runs to its end, with the base the sha query answers; `heads` were synchronised before. */
  ghost predicate ValidSyncs(tc: Toolchain, w: World, vis: Visibility, s: VaultState, heads: seq<Sha>, syncs: seq<Sync>)
    decreases |syncs|
  {
    syncs == [] ||
    (&& Faithful(w, syncs[0].repo, heads) && Smooth(tc, w, vis, s, heads, syncs[0])
     && IsLastSha(s.rows, syncs[0].last)
     && var s', heads' := ApplyAll(s, SyncPlan(tc, w, vis, s, syncs[0])), heads + [syncs[0].repo.head];
        ValidSyncs(tc, w, vis, s', heads', syncs[1..]))
  }

  function AfterSyncs(tc: Toolchain, w: World, vis: Visibility, s: VaultState, syncs: seq<Sync>): VaultState
    decreases |syncs|
  {
    if syncs == [] then s
    else AfterSyncs(tc, w, vis, ApplyAll(s, SyncPlan(tc, w, vis, s, syncs[0])), syncs[1..])
  }

  lemma LastShaIsKnown(rows: map<Path, Row>, base: Sha, heads: seq<Sha>)
    requires IsLastSha(rows, Some(base)) && forall p :: p in rows ==> rows[p].sha in heads
    ensures base in heads
  {}

  lemma OneSync(tc: Toolchain, w: World, vis: Visibility, s: VaultState, heads: seq<Sha>, y: Sync)
    requires IdealHash(tc) && Enumerates(w.enumerate(s.rows.Keys), s.rows.Keys)
    requires InSync(tc, w, vis, s, heads) && Faithful(w, y.repo, heads) && Smooth(tc, w, vis, s, heads, y)
    requires IsLastSha(s.rows, y.last) && NothingReverted(w, heads + [y.repo.head])
    ensures InSync(tc, w, vis, ApplyAll(s, SyncPlan(tc, w, vis, s, y)), heads + [y.repo.head])
  {
    var order := w.enumerate(s.rows.Keys);
    if y.full || y.last.None? {
      SyncByIngest(tc, w, vis, s, heads, y.repo, order);
    } else {
      LastShaIsKnown(s.rows, y.last.value, heads);
      SyncByDiff(tc, w, vis, s, heads, y.repo, y.last.value, order);
    }
  }

  lemma NothingRevertedPrefix(w: World, heads: seq<Sha>, later: seq<Sha>)
    requires NothingReverted(w, heads + later)
    ensures NothingReverted(w, heads)
  {
    var all := heads + later;
    assert forall i :: 0 <= i < |heads| ==> heads[i] == all[i];
  }

  /** Any chain of ingests and diff updates over a history in which nothing is reverted and nothing spoiled ends
      exact. */
  lemma {:induction false} SyncsStayExact(tc: Toolchain, w: World, vis: Visibility, s: VaultState, heads: seq<Sha>,
                                          syncs: seq<Sync>)
    requires IdealHash(tc) && forall keys :: Enumerates(w.enumerate(keys), keys)
    requires InSync(tc, w, vis, s, heads) && ValidSyncs(tc, w, vis, s, heads, syncs)
    requires NothingReverted(w, heads + Heads(syncs))
    ensures InSync(tc, w, vis, AfterSyncs(tc, w, vis, s, syncs), heads + Heads(syncs))
    decreases |syncs|
  {
    if syncs == [] {
      assert heads + Heads(syncs) == heads;
    } else {
      var heads' := heads + [syncs[0].repo.head];
      assert heads + Heads(syncs) == heads' + Heads(syncs[1..]);
      NothingRevertedPrefix(w, heads', Heads(syncs[1..]));
      OneSync(tc, w, vis, s, heads, syncs[0]);
      SyncsStayExact(tc, w, vis, ApplyAll(s, SyncPlan(tc, w, vis, s, syncs[0])), heads', syncs[1..]);
    }
  }

  // ---------------------------------------------------------------- interrupted updates

  predicate Touches(op: Op, p: Path) {
    (op.Batch? || op.DropRow?) && op.path == p
  }

  lemma {:induction false} UntouchedRow(s: VaultState, ops: seq<Op>, p: Path)
    requires AllQuiet(ops) && forall op :: op in ops ==> !Touches(op, p)
    ensures Lookup(ApplyAll(s, ops).rows, p) == Lookup(s.rows, p)
    decreases |ops|
  {
    if ops != [] {
      assert ops[0] in ops;
      UntouchedRow(Apply(s, ops[0]), ops[1..], p);
    }
  }

  lemma {:induction false} DiffOpsTouchOnlyTheDiff(tc: Toolchain, repo: Repo, vis: Visibility, changes: seq<Change>,
                                                   p: Path)
    requires forall c :: c in changes && c.path == p ==> !Rewrites(tc, repo, vis, c)
    ensures forall op :: op in DiffOps(tc, repo, vis, changes) ==> !Touches(op, p)
    decreases |changes|
  {
    if changes != [] {
      assert changes[0] in changes;
      DiffOpsTouchOnlyTheDiff(tc, repo, vis, changes[1..], p);
    }
  }

  lemma {:induction false} QuietVisibility(s: VaultState, ops: seq<Op>, vis: Visibility)
    requires AllQuiet(ops) && forall op :: op in ops && op.SetVisibility? ==> op.visibility == vis
    ensures ApplyAll(s, ops).marker == s.marker
    ensures ApplyAll(s, ops).visibility == s.visibility || ApplyAll(s, ops).visibility == Some(vis)
    decreases |ops|
  {
    if ops != [] {
      assert ops[0] in ops;
      QuietVisibility(Apply(s, ops[0]), ops[1..], vis);
    }
  }

  /** An interrupted diff update keeps the visibility in force and no marker. */
  lemma CutUpdateKeepsVisibility(tc: Toolchain, s: VaultState, base: Sha, repo: Repo, order: seq<Path>, budget: nat)
    requires s.marker.None?
    ensures var cut := ApplyAll(s, Cut(UpdatePlan(tc, s, Some(base), None, repo, order), budget));
            cut.marker.None? && EffectiveVisibility(cut, None) == EffectiveVisibility(s, None)
  {
    var vis := EffectiveVisibility(s, None);
    var plan := UpdatePlan(tc, s, Some(base), None, repo, order);
    var changes := ReadDiff(repo, base);
    DiffQuiet(tc, repo, vis, changes);
    DiffHasNoVisibility(tc, repo, vis, changes);
    var ops := Cut(plan, budget);
    assert forall op :: op in ops ==> op in plan;
    QuietVisibility(s, ops, vis);
  }

  /** An interrupted diff update has not touched a path it would not rewrite. */
  lemma CutUpdateSpares(tc: Toolchain, s: VaultState, base: Sha, repo: Repo, order: seq<Path>, budget: nat, p: Path)
    requires s.marker.None? && !Rewritten(tc, repo, EffectiveVisibility(s, None), ReadDiff(repo, base), p)
    ensures Lookup(ApplyAll(s, Cut(UpdatePlan(tc, s, Some(base), None, repo, order), budget)).rows, p)
            == Lookup(s.rows, p)
  {
    var vis := EffectiveVisibility(s, None);
    var plan := UpdatePlan(tc, s, Some(base), None, repo, order);
    var changes := ReadDiff(repo, base);
    DiffQuiet(tc, repo, vis, changes);
    DiffOpsTouchOnlyTheDiff(tc, repo, vis, changes, p);
    var ops := Cut(plan, budget);
    assert forall op :: op in ops ==> op in plan;
    UntouchedRow(s, ops, p);
  }

  /** An update interrupted anywhere and then run again from the same base ends in the very rows
      the uninterrupted update would have left. */
  lemma InterruptedUpdateResumes(tc: Toolchain, s: VaultState, base: Sha, repo: Repo, order: seq<Path>,
                                 baseTree: map<Path, Bytes>, budget: nat)
    requires s.marker.None? && PrintsDiff(baseTree, base, repo)
    ensures var plan := UpdatePlan(tc, s, Some(base), None, repo, order);
            var cut := ApplyAll(s, Cut(plan, budget));
            ApplyAll(cut, UpdatePlan(tc, cut, Some(base), None, repo, order)).rows == ApplyAll(s, plan).rows
  {
    var plan := UpdatePlan(tc, s, Some(base), None, repo, order);
    var cut := ApplyAll(s, Cut(plan, budget));
    CutUpdateKeepsVisibility(tc, s, base, repo, order, budget);
    var resumed := ApplyAll(cut, UpdatePlan(tc, cut, Some(base), None, repo, order)).rows;
    var whole := ApplyAll(s, plan).rows;
    forall p ensures Lookup(resumed, p) == Lookup(whole, p) {
      UpdateLookup(tc, s, base, None, repo, order, baseTree, p);
      UpdateLookup(tc, cut, base, None, repo, order, baseTree, p);
      if !Rewritten(tc, repo, EffectiveVisibility(s, None), ReadDiff(repo, base), p) {
        CutUpdateSpares(tc, s, base, repo, order, budget, p);
      }
    }
    SameLookups(resumed, whole);
  }

  lemma SameLookups(a: map<Path, Row>, b: map<Path, Row>)
    requires forall p :: Lookup(a, p) == Lookup(b, p)
    ensures a == b
  {
    assert forall p :: p in a <==> Lookup(a, p).Some?;
    assert forall p :: p in b <==> Lookup(b, p).Some?;
    assert a.Keys == b.Keys;
  }

  lemma {:induction false} DiffHasNoVisibility(tc: Toolchain, repo: Repo, vis: Visibility, changes: seq<Change>)
    ensures forall op :: op in DiffOps(tc, repo, vis, changes) ==> !op.SetVisibility?
    decreases |changes|
  {
    if changes != [] {
      DiffHasNoVisibility(tc, repo, vis, changes[1..]);
    }
  }

  // ---------------------------------------------------------------- what goes wrong, concretely

  /** A toolchain that tells an empty file from a non-empty one. */
  function ToyToolchain(): Toolchain {
    Toolchain(bytes => Some(""), bytes => if bytes == [] then "h0" else "h1",
              (lang: Lang, p: Path, c: string, private: bool) => Some([]))
  }

  lemma ToyPathIsSupported(p: Path)
    requires p in {"a.rs", "b.rs", "c.rs"}
    ensures Supported(p) && !Absolute(p)
  {
    assert p[1..] == ".rs";
    assert EndsWith(p, SUPPORTED_EXTENSIONS[0]);
  }

  lemma ToyTreeIsClean(tree: map<Path, Bytes>, vis: Visibility)
    requires forall p :: p in tree ==> p in {"a.rs", "b.rs", "c.rs"}
    ensures CleanTree(ToyToolchain(), tree, vis)
    ensures forall p :: p in tree ==> Supported(p)
  {
    forall p | p in tree ensures Supported(p) && !Absolute(p) {
      ToyPathIsSupported(p);
    }
  }

  /** The sha carried by most rows wins, and a tie goes to the greater one. */
  lemma TwoShas(rows: map<Path, Row>, top: Sha, a: set<Path>, other: Sha, b: set<Path>)
    requires rows.Keys == a + b && a !! b && a != {} && top != "" && other != "" && top != other
    requires (forall p :: p in a ==> rows[p].sha == top) && (forall p :: p in b ==> rows[p].sha == other)
    requires |b| < |a| || (|b| == |a| && !Before(top, other))
    ensures IsLastSha(rows, Some(top))
  {
    assert (set p | p in rows && rows[p].sha == top) == a;
    assert (set p | p in rows && rows[p].sha == other) == b;
    assert top in Shas(rows) by {
      var p :| p in a;
      assert p in rows && rows[p].sha == top;
    }
    forall t | t in Shas(rows) ensures RanksAtLeast(rows, top, t) {
      assert t == top || t == other;
      BeforeTotal(top, top);
    }
  }

  /** With nothing in the diff, a wrong row stays wrong. */
  lemma EmptyDiffKeepsRows(tc: Toolchain, s: VaultState, base: Sha, repo: Repo, p: Path)
    requires s.marker.None? && s.visibility == Some(Pub) && repo.knows(base) && repo.diffOutput(base) == ""
    requires ContentOf(Lookup(s.rows, p)) != Reference(tc, repo.tree, p, Pub)
    ensures PrintsDiff(repo.tree, base, repo)
    ensures !ExactTree(tc, repo.tree, Pub, ApplyAll(s, UpdatePlan(tc, s, Some(base), None, repo, [])).rows)
  {
    assert PrintsAs(base, repo, []) && IsPrintedDiff(repo.tree, repo.tree, []);
    NameStatusRoundTrip([]);
    var plan := UpdatePlan(tc, s, Some(base), None, repo, []);
    assert plan == [SetVisibility(Pub)];
    assert ApplyAll(s, plan) == Apply(s, plan[0]);
  }

  lemma ToyReference(tree: map<Path, Bytes>, p: Path)
    requires p in {"a.rs", "b.rs", "c.rs"}
    ensures Reference(ToyToolchain(), tree, p, Pub) ==
            if p !in tree then None else Some(Content(if tree[p] == [] then "h0" else "h1", []))
  {
    assert EndsWith(p, SUPPORTED_EXTENSIONS[0]);
  }

  /** Three files ingested at A, one modified at B, and put back at C: the most frequent sha is
      still A, the diff A..C is empty, and the update keeps B's notes for good. */
  lemma RevertedFileGoesStale() returns (tc: Toolchain, s: VaultState, repo: Repo, prev: map<Path, Bytes>)
    ensures s.marker.None? && IsLastSha(s.rows, Some("A"))
    ensures ExactTree(tc, prev, Pub, s.rows) && CleanTree(tc, repo.tree, Pub)
    ensures PrintsDiff(repo.tree, "A", repo)
    ensures !ExactTree(tc, repo.tree, Pub, ApplyAll(s, UpdatePlan(tc, s, Some("A"), None, repo, [])).rows)
  {
    tc := ToyToolchain();
    prev := map["a.rs" := [1], "b.rs" := [], "c.rs" := []];
    s := VaultState(map["a.rs" := Row("h1", "B", []), "b.rs" := Row("h0", "A", []), "c.rs" := Row("h0", "A", [])],
                    Some(Pub), None);
    repo := Repo("C", ["a.rs", "b.rs", "c.rs"], map["a.rs" := [], "b.rs" := [], "c.rs" := []], sha => true, sha => "");
    ToyTreeIsClean(repo.tree, Pub);
    TwoShas(s.rows, "A", {"b.rs", "c.rs"}, "B", {"a.rs"});
    forall p ensures ContentOf(Lookup(s.rows, p)) == Reference(tc, prev, p, Pub) {
      if p in prev { ToyReference(prev, p); }
    }
    ToyReference(repo.tree, "a.rs");
    EmptyDiffKeepsRows(tc, s, "A", repo, "a.rs");
  }

  /** The first two steps of an update whose diff starts with a modified file. */
  lemma FirstBatch(tc: Toolchain, s: VaultState, base: Sha, repo: Repo, changes: seq<Change>, p: Path, notes: seq<Note>)
    requires s.marker.None? && s.visibility == Some(Pub)
    requires ReadDiff(repo, base) == changes
    requires changes != [] && changes[0] == Change(AddedOrModified, p)
    requires Tracked(p) && p in repo.tree && Derive(tc, p, repo.tree[p], Pub) == Some(notes)
    ensures Cut(UpdatePlan(tc, s, Some(base), None, repo, []), 2)
            == [SetVisibility(Pub), Batch(p, tc.hash(repo.tree[p]), repo.head, notes)]
  {
    var op := Batch(p, tc.hash(repo.tree[p]), repo.head, notes);
    var rest := DiffOps(tc, repo, Pub, changes[1..]);
    assert DiffOps(tc, repo, Pub, changes) == [op] + rest;
    var plan := UpdatePlan(tc, s, Some(base), None, repo, []);
    assert plan == [SetVisibility(Pub)] + ([op] + rest);
  }

  lemma TwoModifications(raw: seq<RawChange>, p: Path, q: Path)
    requires raw == [RawChange("M", p), RawChange("M", q)] && Printable(raw)
    ensures var changes := Changes(Fields(Render(raw), []));
            changes != [] && changes[0] == Change(AddedOrModified, p)
  {
    NameStatusRoundTrip(raw);
    assert StatusOf(raw[0].code) == Some(AddedOrModified);
  }

  function ToyDiff(): seq<RawChange> {
    [RawChange("M", "a.rs"), RawChange("M", "b.rs")]
  }

  function ToyRepo(): Repo {
    Repo("B", ["a.rs", "b.rs"], map["a.rs" := [1], "b.rs" := [1]], sha => true,
         sha => if sha == "A" then Render(ToyDiff()) else "")
  }

  lemma ToyDerive(bytes: Bytes)
    ensures Tracked("a.rs") && Derive(ToyToolchain(), "a.rs", bytes, Pub) == Some([])
  {
    assert EndsWith("a.rs", SUPPORTED_EXTENSIONS[0]);
  }

  lemma ToyChanges()
    ensures var changes := ReadDiff(ToyRepo(), "A");
            changes != [] && changes[0] == Change(AddedOrModified, "a.rs")
  {
    var raw := ToyDiff();
    assert raw[0].path == "a.rs" && raw[1].path == "b.rs";
    TwoModifications(raw, "a.rs", "b.rs");
  }

  lemma ToyInterruption(s: VaultState)
    requires s.marker.None? && s.visibility == Some(Pub)
    ensures ApplyAll(s, Cut(UpdatePlan(ToyToolchain(), s, Some("A"), None, ToyRepo(), []), 2))
            == s.(rows := s.rows["a.rs" := Row("h1", "B", [])])
  {
    var tc, repo := ToyToolchain(), ToyRepo();
    ToyChanges();
    ToyDerive(repo.tree["a.rs"]);
    FirstBatch(tc, s, "A", repo, ReadDiff(repo, "A"), "a.rs", []);
    ApplyTwo(s, SetVisibility(Pub), Batch("a.rs", "h1", "B", []));
  }

  lemma ToyShas(rows: map<Path, Row>)
    requires rows == map["a.rs" := Row("h0", "A", []), "b.rs" := Row("h0", "A", [])]
    ensures IsLastSha(rows, Some("A")) && IsLastSha(rows["a.rs" := Row("h1", "B", [])], Some("B"))
  {
    TwoShas(rows, "A", {"a.rs", "b.rs"}, "B", {});
    TwoShas(rows["a.rs" := Row("h1", "B", [])], "B", {"a.rs"}, "A", {"b.rs"});
  }

  lemma ToyLeftover(s: VaultState)
    requires s.marker.None? && s.visibility == Some(Pub) && Lookup(s.rows, "b.rs") == Some(Row("h0", "A", []))
    ensures CleanTree(ToyToolchain(), ToyRepo().tree, Pub) && PrintsDiff(ToyRepo().tree, "B", ToyRepo())
    ensures var plan := UpdatePlan(ToyToolchain(), s, Some("B"), None, ToyRepo(), []);
            !ExactTree(ToyToolchain(), ToyRepo().tree, Pub, ApplyAll(s, plan).rows)
  {
    var repo := ToyRepo();
    ToyTreeIsClean(repo.tree, Pub);
    assert repo.tree["b.rs"] == [1];
    ToyReference(repo.tree, "b.rs");
    assert repo.diffOutput("B") == "";
    EmptyDiffKeepsRows(ToyToolchain(), s, "B", repo, "b.rs");
  }

  /** The update writes no marker: cut after one of two batches, it leaves a vault whose most
      frequent sha is already HEAD, and the next update finds nothing to do. */
  lemma InterruptedUpdateIsNotCovered() returns (tc: Toolchain, s: VaultState, cut: VaultState, repo: Repo)
    ensures s.marker.None? && IsLastSha(s.rows, Some("A"))
    ensures cut == ApplyAll(s, Cut(UpdatePlan(tc, s, Some("A"), None, repo, []), 2))
    ensures cut.marker.None? && IsLastSha(cut.rows, Some("B")) && repo.head == "B"
    ensures CleanTree(tc, repo.tree, Pub) && PrintsDiff(repo.tree, "B", repo)
    ensures !ExactTree(tc, repo.tree, Pub, ApplyAll(cut, UpdatePlan(tc, cut, Some("B"), None, repo, [])).rows)
  {
    tc, repo := ToyToolchain(), ToyRepo();
    var rows := map["a.rs" := Row("h0", "A", []), "b.rs" := Row("h0", "A", [])];
    s := VaultState(rows, Some(Pub), None);
    cut := s.(rows := rows["a.rs" := Row("h1", "B", [])]);
    ToyShas(rows);
    ToyInterruption(s);
    ToyLeftover(cut);
  }

  // A file that changes to bytes that do not decode.

  function StrictDecoder(): Toolchain {
    ToyToolchain().(decode := bytes => if bytes == [] then Some("") else None)
  }

  function SpoiledRepo(): Repo {
    Repo("B", ["a.rs"], map["a.rs" := [1]], sha => true, sha => Render([RawChange("M", "a.rs")]))
  }

  lemma SpoiledDiff()
    ensures PrintsDiff(map["a.rs" := []], "A", SpoiledRepo())
    ensures ReadDiff(SpoiledRepo(), "A") == [Change(AddedOrModified, "a.rs")]
  {
    var raw := [RawChange("M", "a.rs")];
    NameStatusRoundTrip(raw);
    assert raw[0].path == "a.rs" && raw[0].code[0] == 'M' && forall r :: r in raw ==> r == raw[0];
    assert Prints(raw, "a.rs", {'A', 'M', 'T'}) && !Prints(raw, "a.rs", {'D'});
    assert PrintsAs("A", SpoiledRepo(), raw) && IsPrintedDiff(map["a.rs" := []], SpoiledRepo().tree, raw);
    assert raw[1..] == [] && Decode(raw) == [Change(AddedOrModified, "a.rs")];
    assert [Change(AddedOrModified, "a.rs")][0].path == "a.rs";
  }

  lemma StrictReference(tree: map<Path, Bytes>)
    requires tree.Keys == {"a.rs"}
    ensures forall p :: Reference(StrictDecoder(), tree, p, Pub) ==
                        if p == "a.rs" && tree[p] == [] then Some(Content("h0", [])) else None
  {
    assert EndsWith("a.rs", SUPPORTED_EXTENSIONS[0]);
  }

  function SpoiledState(): VaultState {
    VaultState(map["a.rs" := Row("h0", "A", [])], Some(Pub), None)
  }

  lemma SpoiledStart()
    ensures IsLastSha(SpoiledState().rows, Some("A"))
    ensures ExactTree(StrictDecoder(), map["a.rs" := []], Pub, SpoiledState().rows)
  {
    StrictReference(map["a.rs" := []]);
    TwoShas(SpoiledState().rows, "A", {"a.rs"}, "B", {});
  }

  lemma SpoiledIsSkipped()
    ensures var changes := ReadDiff(SpoiledRepo(), "A");
            Lists(changes, "a.rs") && !Rewritten(StrictDecoder(), SpoiledRepo(), Pub, changes, "a.rs")
  {
    SpoiledDiff();
    assert [Change(AddedOrModified, "a.rs")][0].path == "a.rs";
  }

  /** An index exact at A, and one file that no longer decodes at B: the completed update keeps its old notes. */
  lemma SpoiledFileKeepsItsNotes()
    ensures var tc, s, repo := StrictDecoder(), SpoiledState(), SpoiledRepo();
            && IsLastSha(s.rows, Some("A")) && PrintsDiff(map["a.rs" := []], "A", repo)
            && ExactTree(tc, map["a.rs" := []], Pub, s.rows)
            && !ExactTree(tc, repo.tree, Pub, ApplyAll(s, UpdatePlan(tc, s, Some("A"), None, repo, [])).rows)
  {
    var base: map<Path, Bytes> := map["a.rs" := []];
    SpoiledStart();
    SpoiledDiff();
    SpoiledIsSkipped();
    StrictReference(base);
    StrictReference(SpoiledRepo().tree);
    UpdateFromBaseExactIff(StrictDecoder(), SpoiledState(), "A", None, SpoiledRepo(), [], base);
  }
}
