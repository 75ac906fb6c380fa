/** `reindex-orphans` as it works on disk and index. */
module OrphanVault {
  import opened Wrappers
  import opened ReindexOrphans

  const BACKFILL_HARD_CAP: nat := 5_000

  datatype Error = Refused | UnreadableFile | Interrupted

  datatype Report = Report(found: nat, reindexed: nat, malformed: nat, mismatch: nat)

  // ---------------------------------------------------------------- the scan

  /** The order of identifiers as numbers. */
  type Rank = Id -> nat

  function Insert(rank: Rank, x: Orphan, s: seq<Orphan>): seq<Orphan> {
    if s == [] then [x]
    else if rank(x.id) < rank(s[0].id) then [x] + s
    else [s[0]] + Insert(rank, x, s[1..])
  }

  /** The stable sort by identifier. */
  function Sort(rank: Rank, s: seq<Orphan>): seq<Orphan> {
    if s == [] then [] else Insert(rank, s[|s| - 1], Sort(rank, s[..|s| - 1]))
  }

  lemma {:induction false} InsertHas(rank: Rank, x: Orphan, s: seq<Orphan>, o: Orphan)
    ensures o in Insert(rank, x, s) <==> o == x || o in s
    decreases |s|
  {
    if s != [] {
      InsertHas(rank, x, s[1..], o);
    }
  }

  lemma {:induction false} SortHas(rank: Rank, s: seq<Orphan>, o: Orphan)
    ensures o in Sort(rank, s) <==> o in s
    decreases |s|
  {
    if s != [] {
      SortHas(rank, s[..|s| - 1], o);
      InsertHas(rank, s[|s| - 1], Sort(rank, s[..|s| - 1]), o);
    }
  }

  predicate NoDuplicates(s: seq<Orphan>) {
    forall i, j :: 0 <= i < j < |s| ==> s[i] != s[j]
  }

  predicate Ordered(rank: Rank, s: seq<Orphan>) {
    forall i, j :: 0 <= i < j < |s| ==> rank(s[i].id) <= rank(s[j].id)
  }

  lemma {:induction false} InsertKeepsOrder(rank: Rank, x: Orphan, s: seq<Orphan>)
    requires Ordered(rank, s)
    ensures Ordered(rank, Insert(rank, x, s))
    decreases |s|
  {
    if s != [] && rank(x.id) >= rank(s[0].id) {
      var rest := Insert(rank, x, s[1..]);
      assert forall i :: 0 <= i < |s[1..]| ==> s[1..][i] == s[i + 1];
      InsertKeepsOrder(rank, x, s[1..]);
      forall i | 0 <= i < |rest| ensures rest[i] == x || rest[i] in s[1..] {
        InsertHas(rank, x, s[1..], rest[i]);
      }
    }
  }

  lemma {:induction false} InsertKeepsDistinct(rank: Rank, x: Orphan, s: seq<Orphan>)
    requires NoDuplicates(s) && x !in s
    ensures NoDuplicates(Insert(rank, x, s))
    decreases |s|
  {
    if s != [] && rank(x.id) >= rank(s[0].id) {
      var rest := Insert(rank, x, s[1..]);
      InsertKeepsDistinct(rank, x, s[1..]);
      InsertHas(rank, x, s[1..], s[0]);
      assert s[0] !in rest;
    }
  }

  lemma {:induction false} SortKeeps(rank: Rank, s: seq<Orphan>)
    ensures Ordered(rank, Sort(rank, s))
    ensures NoDuplicates(s) ==> NoDuplicates(Sort(rank, s))
    decreases |s|
  {
    if s != [] {
      var init, x := s[..|s| - 1], s[|s| - 1];
      SortKeeps(rank, init);
      InsertKeepsOrder(rank, x, Sort(rank, init));
      SortHas(rank, init, x);
      if NoDuplicates(s) {
        InsertKeepsDistinct(rank, x, Sort(rank, init));
      }
    }
  }

  /** What the directory walk yields: the files whose names spell an identifier, each file once. */
  ghost predicate IsWalk(env: Env, st: State, walk: seq<Orphan>) {
    && (forall o: Orphan ::
          o in walk <==> o.path in st.files && env.walked(o.path) && env.parse(env.stem(o.path)) == Some(o.id))
    && NoDuplicates(walk)
  }

  function Bounded(orphans: seq<Orphan>, limit: Option<nat>): seq<Orphan> {
    if limit.Some? && limit.value < |orphans| then orphans[..limit.value] else orphans
  }

  /** All orphans, each once, in identifier order. */
  ghost predicate SortedScan(env: Env, rank: Rank, st: State, all: seq<Orphan>) {
    (forall o: Orphan :: o in all <==> IsOrphan(env, st, o)) && NoDuplicates(all) && Ordered(rank, all)
  }

  /** The walked files the index does not hold. */
  method FilterOrphans(env: Env, st: State, walk: seq<Orphan>) returns (found: seq<Orphan>)
    requires IsWalk(env, st, walk)
    ensures NoDuplicates(found) && forall o :: o in found <==> IsOrphan(env, st, o)
  {
    found := [];
    for n := 0 to |walk|
      invariant forall o :: o in found <==> o in walk[..n] && IsOrphan(env, st, o)
      invariant NoDuplicates(found)
    {
      assert walk[..n + 1] == walk[..n] + [walk[n]];
      assert walk[n] in walk && walk[n] !in walk[..n];
      if Key(env.tenant, env.stem(walk[n].path)) !in st.rows {
        found := found + [walk[n]];
      }
    }
    assert walk[..|walk|] == walk;
    assert forall o :: IsOrphan(env, st, o) ==> o in walk;
  }

  /** `scan_orphans`: the walked files the index does not hold, in identifier order, up to the limit. */
  method ScanOrphans(env: Env, rank: Rank, st: State, walk: seq<Orphan>, limit: Option<nat>)
    returns (orphans: seq<Orphan>, ghost all: seq<Orphan>)
    requires IsWalk(env, st, walk)
    ensures SortedScan(env, rank, st, all) && orphans == Bounded(all, limit)
    ensures forall i :: 0 <= i < |orphans| ==> IsOrphan(env, st, orphans[i])
    ensures Ordered(rank, orphans) && (limit.Some? ==> |orphans| <= limit.value)
  {
    var found := FilterOrphans(env, st, walk);
    SortKeeps(rank, found);
    var sorted := Sort(rank, found);
    forall o: Orphan ensures o in sorted <==> o in found {
      SortHas(rank, found, o);
    }
    all := sorted;
    orphans := Bounded(sorted, limit);
    forall i | 0 <= i < |orphans| ensures IsOrphan(env, st, orphans[i]) {
      assert orphans[i] == sorted[i] && sorted[i] in sorted;
    }
  }

  /** With unique identifiers the selected orphans have distinct ones, and without a limit they are all of them. */
  lemma UniqueScan(env: Env, rank: Rank, st: State, all: seq<Orphan>, limit: Option<nat>)
    requires SortedScan(env, rank, st, all) && UniqueIds(env, st)
    ensures Scan(env, st, Bounded(all, limit)) && ScansAll(env, st, all)
  {
    forall i | 0 <= i < |all| ensures IsOrphan(env, st, all[i]) {
      assert all[i] in all;
    }
    forall i, j | 0 <= i < j < |all| ensures all[i].id != all[j].id {
      assert all[i] != all[j];
    }
  }

  // ---------------------------------------------------------------- the run

  /** The skip counters, and the identifiers of the orphans to write, in order. */
  datatype Counts = Counts(malformed: nat, mismatch: nat, written: seq<Id>)

  /** The preview has no abort: what it cannot read it counts as malformed. */
  function Count(c: Counts, v: Verdict, id: Id): Counts {
    match v
    case Abort => c.(malformed := c.malformed + 1)
    case SkipMalformed => c.(malformed := c.malformed + 1)
    case SkipMismatch => c.(mismatch := c.mismatch + 1)
    case Write(_) => c.(written := c.written + [id])
  }

  ghost predicate Present(st: State, orphans: seq<Orphan>) {
    forall i :: 0 <= i < |orphans| ==> orphans[i].path in st.files
  }

  /** The preview over the first `n` orphans: all judged in the state `st` it finds. */
  ghost function PreviewCounts(env: Env, st: State, orphans: seq<Orphan>, n: nat): Counts
    requires Present(st, orphans) && n <= |orphans|
  {
    if n == 0 then Counts(0, 0, [])
    else Count(PreviewCounts(env, st, orphans, n - 1), Judge(env, st, orphans[n - 1]), orphans[n - 1].id)
  }

  /** The real run over the first `n` orphans: each judged in the state the earlier ones left; none once an
      unreadable file ended the run. */
  ghost function RealCounts(env: Env, st: State, orphans: seq<Orphan>, n: nat): Option<Counts>
    requires n <= |orphans|
  {
    if n == 0 then Some(Counts(0, 0, []))
    else
      var before, done := RealCounts(env, st, orphans, n - 1), Run(env, st, orphans[..n - 1]);
      if before.None? || orphans[n - 1].path !in done.files || Judge(env, done, orphans[n - 1]) == Abort then None
      else Some(Count(before.value, Judge(env, done, orphans[n - 1]), orphans[n - 1].id))
  }

  /** Every orphan is counted once. */
  lemma {:induction false} CountsAddUp(env: Env, st: State, orphans: seq<Orphan>, n: nat)
    requires Present(st, orphans) && n <= |orphans|
    ensures var c := PreviewCounts(env, st, orphans, n); c.malformed + c.mismatch + |c.written| == n
  {
    if n > 0 {
      CountsAddUp(env, st, orphans, n - 1);
    }
  }

  /** How many of the written orphans the tenant's index holds. */
  ghost function Known(env: Env, st: State, ids: seq<Id>): nat {
    if ids == [] then 0
    else Known(env, st, ids[..|ids| - 1]) + if Key(env.tenant, ids[|ids| - 1]) in st.rows then 1 else 0
  }

  class Vault {
    var files: map<Path, Md>
    var rows: map<Key, Md>
    var budget: nat

    constructor (files: map<Path, Md>, rows: map<Key, Md>, budget: nat)
      ensures Disk() == State(files, rows) && this.budget == budget
    {
      this.files, this.rows, this.budget := files, rows, budget;
    }

    function Disk(): State
      reads this
    {
      State(files, rows)
    }

    /** `reindex_one`: the verdict, and for a canonical note the funnel's file and row. */
    method ReindexOne(env: Env, o: Orphan) returns (r: Result<Verdict, Error>)
      requires o.path in files
      modifies this
      ensures var verdict := Judge(env, old(Disk()), o);
              && (verdict == Abort ==> r == Failure(UnreadableFile) && Disk() == old(Disk()))
              && (r.Success? ==>
                    r.value == verdict != Abort && Disk() == After(env, old(Disk()), o) && budget + 2 >= old(budget))
              && (r.Failure? && verdict != Abort ==>
                    && r.error == Interrupted && verdict.Write? && old(budget) < 2
                    && (Disk() == old(Disk()) || Disk() == WriteMd(env, old(Disk()), o, verdict.dest)))
    {
      var parsed := files[o.path];
      if parsed.Unreadable? {
        return Failure(UnreadableFile);
      }
      if parsed.Malformed? {
        return Success(SkipMalformed);
      }
      if env.canonical(env.tenant, parsed.locus, o.id) != o.path {
        return Success(SkipMismatch);
      }
      var vault := if parsed.vaultId == [] then env.home else parsed.vaultId;
      var dest := env.canonical(vault, parsed.locus, o.id);
      if budget == 0 {
        return Failure(Interrupted);
      }
      files, budget := files[dest := env.funnel(parsed)], budget - 1;
      if budget == 0 {
        return Failure(Interrupted);
      }
      rows, budget := rows[Key(vault, o.id) := env.funnel(parsed)], budget - 1;
      r := Success(Write(dest));
    }

    /** The preview writes nothing; a file it cannot read counts as malformed. */
    method Preview(env: Env, orphans: seq<Orphan>) returns (report: Report)
      requires Present(Disk(), orphans)
      ensures var c := PreviewCounts(env, Disk(), orphans, |orphans|);
              report == Report(|orphans|, |c.written|, c.malformed, c.mismatch)
      ensures report.reindexed + report.malformed + report.mismatch == report.found
    {
      var would, malformed, mismatch := 0, 0, 0;
      for n := 0 to |orphans|
        invariant var c := PreviewCounts(env, Disk(), orphans, n);
                  would == |c.written| && malformed == c.malformed && mismatch == c.mismatch
      {
        var o := orphans[n];
        var parsed := files[o.path];
        if parsed.Unreadable? || parsed.Malformed? {
          malformed := malformed + 1;
        } else if env.canonical(env.tenant, parsed.locus, o.id) != o.path {
          mismatch := mismatch + 1;
        } else {
          would := would + 1;
        }
      }
      CountsAddUp(env, Disk(), orphans, |orphans|);
      report := Report(|orphans|, would, malformed, mismatch);
    }

    /** The real run over the scanned orphans. It leaves the state of `Live`, or of a cut of it, and fails on an
        unreadable file; `reindexed` is read back from the index. */
    method Apply(env: Env, orphans: seq<Orphan>) returns (r: Result<Report, Error>)
      requires Present(Disk(), orphans)
      modifies this
      ensures IsCut(env, old(Disk()), orphans, Disk())
      ensures r != Failure(Interrupted) ==> Disk() == Live(env, old(Disk()), orphans)
      ensures r == Failure(Interrupted) ==> old(budget) < 2 * |orphans|
      ensures r == Failure(UnreadableFile) ==> Stop(env, old(Disk()), orphans) < |orphans|
      ensures r.Failure? ==> r.error != Refused
      ensures r.Success? ==>
                var c := RealCounts(env, old(Disk()), orphans, |orphans|);
                && c.Some?
                && r.value == Report(|orphans|, Known(env, Disk(), c.value.written),
                                     c.value.malformed, c.value.mismatch)
      ensures r.Success? ==> Stop(env, old(Disk()), orphans) == |orphans|
    {
      ghost var st := Disk();
      var c := Counts(0, 0, []);
      for n := 0 to |orphans|
        invariant Disk() == Run(env, st, orphans[..n]) && RealCounts(env, st, orphans, n) == Some(c)
        invariant budget + 2 * n >= old(budget)
        invariant Stop(env, st, orphans) == n + Stop(env, Disk(), orphans[n..])
      {
        NextTurn(env, st, orphans, n);
        var outcome := ReindexOne(env, orphans[n]);
        if outcome.Failure? {
          StoppedAt(env, st, orphans, n, Disk());
          return Failure(outcome.error);
        }
        match outcome.value {
          case Abort =>
          case SkipMalformed => c := c.(malformed := c.malformed + 1);
          case SkipMismatch => c := c.(mismatch := c.mismatch + 1);
          case Write(_) => c := c.(written := c.written + [orphans[n].id]);
        }
      }
      assert orphans[..|orphans|] == orphans;
      CompletedRun(env, st, orphans);
      var present := CountPresent(env, c.written);
      r := Success(Report(|orphans|, present, c.malformed, c.mismatch));
    }

    method CountPresent(env: Env, ids: seq<Id>) returns (present: nat)
      ensures present == Known(env, Disk(), ids)
    {
      present := 0;
      for n := 0 to |ids|
        invariant present == Known(env, Disk(), ids[..n])
      {
        assert ids[..n + 1][..n] == ids[..n];
        if Key(env.tenant, ids[n]) in rows {
          present := present + 1;
        }
      }
      assert ids[..|ids|] == ids;
    }

    /** `run`: scan, guard, then preview or apply. */
    method RunReindex(env: Env, rank: Rank, walk: seq<Orphan>, limit: Option<nat>, dryRun: bool)
      returns (r: Result<Report, Error>, orphans: seq<Orphan>, ghost all: seq<Orphan>)
      requires IsWalk(env, Disk(), walk)
      modifies this
      ensures SortedScan(env, rank, old(Disk()), all) && Present(old(Disk()), orphans)
      ensures orphans == if limit.Some? && limit.value < |all| then all[..limit.value] else all
      ensures r == Failure(Refused) <==> orphans != [] && limit.None? && (env.tenant != "main" || |orphans| > 5000)
      ensures r == Failure(Refused) || dryRun ==> Disk() == old(Disk())
      ensures !dryRun ==> IsCut(env, old(Disk()), orphans, Disk())
      ensures !dryRun && r != Failure(Refused) && r != Failure(Interrupted) ==>
                Disk() == Live(env, old(Disk()), orphans)
      ensures r == Failure(Interrupted) ==> !dryRun && old(budget) < 2 * |orphans|
      ensures r == Failure(UnreadableFile) ==> !dryRun && Stop(env, old(Disk()), orphans) < |orphans|
      ensures r.Success? && dryRun ==>
                var c := PreviewCounts(env, old(Disk()), orphans, |orphans|);
                r.value == Report(|orphans|, |c.written|, c.malformed, c.mismatch)
      ensures r.Success? && !dryRun ==>
                var c := RealCounts(env, old(Disk()), orphans, |orphans|);
                && c.Some?
                && r.value == Report(|orphans|, Known(env, Disk(), c.value.written),
                                     c.value.malformed, c.value.mismatch)
    {
      ghost var st := Disk();
      orphans, all := ScanOrphans(env, rank, Disk(), walk, limit);
      StartIsCut(env, st, orphans);
      if orphans == [] {
        return Success(Report(0, 0, 0, 0)), orphans, all;
      }
      if limit.None? {
        if env.tenant != "main" || |orphans| > BACKFILL_HARD_CAP {
          return Failure(Refused), orphans, all;
        }
      }
      if dryRun {
        var report := Preview(env, orphans);
        r := Success(report);
      } else {
        r := Apply(env, orphans);
      }
    }
  }

  /** `end` is what some interruption of the run leaves. */
  ghost predicate IsCut(env: Env, st: State, orphans: seq<Orphan>, end: State) {
    exists k: nat, torn: bool :: k <= Stop(env, st, orphans) && end == Cut(env, st, orphans, k, torn)
  }

  lemma StartIsCut(env: Env, st: State, orphans: seq<Orphan>)
    ensures IsCut(env, st, orphans, st)
  {
    assert st == Cut(env, st, orphans, 0, false);
  }

  lemma StoppedAt(env: Env, st: State, orphans: seq<Orphan>, n: nat, end: State)
    requires n < |orphans| && n <= Stop(env, st, orphans)
    requires var done := Run(env, st, orphans[..n]);
             && orphans[n].path in done.files
             && (|| end == done
                 || (&& Judge(env, done, orphans[n]).Write?
                     && end == WriteMd(env, done, orphans[n], Judge(env, done, orphans[n]).dest)))
    ensures IsCut(env, st, orphans, end)
  {
    assert end == Cut(env, st, orphans, n, false) || end == Cut(env, st, orphans, n, true);
  }

  lemma CompletedRun(env: Env, st: State, orphans: seq<Orphan>)
    ensures IsCut(env, st, orphans, Live(env, st, orphans))
  {
    assert Live(env, st, orphans) == Cut(env, st, orphans, Stop(env, st, orphans), false);
  }

  /** One turn: what it does to the state, and to how far the run still gets. */
  lemma NextTurn(env: Env, st: State, orphans: seq<Orphan>, n: nat)
    requires Present(st, orphans) && n < |orphans|
    ensures var done := Run(env, st, orphans[..n]);
            && orphans[n].path in done.files
            && Run(env, st, orphans[..n + 1]) == After(env, done, orphans[n])
            && Stop(env, done, orphans[n..]) ==
               (if Judge(env, done, orphans[n]) == Abort then 0
                else 1 + Stop(env, After(env, done, orphans[n]), orphans[n + 1..]))
  {
    assert orphans[..n + 1] == orphans[..n] + [orphans[n]];
    RunSnoc(env, st, orphans[..n], orphans[n]);
    RunLosesNothing(env, st, orphans[..n]);
    assert orphans[n].path in st.files.Keys;
    assert orphans[n..][1..] == orphans[n + 1..];
  }
}
