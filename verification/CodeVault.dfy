/** `run_ingest` and `run_update` as they run: one vault whose rows, repository row and marker are
    changed step by step, with a fault after `budget` durable steps. */
module CodeVault {
  import opened Wrappers
  import opened CodeIndex
  import opened CodeUpdate
  import GitDiff

  datatype Report = Report(filesIngested: nat, notesInserted: nat, filesDeleted: nat)

  datatype RunError = TooManyAttempts | Interrupted

  function NotesIn(ops: seq<Op>): nat {
    if ops == [] then 0
    else (if ops[0].Batch? then |ops[0].notes| else 0) + NotesIn(ops[1..])
  }

  /** The state after `ops`, performed until a fault strikes after `budget` of them. */
  function RunCut(s: VaultState, ops: seq<Op>, budget: nat): VaultState
    decreases |ops|
  {
    if ops == [] || budget == 0 then s else RunCut(Apply(s, ops[0]), ops[1..], budget - 1)
  }

  lemma {:induction false} RunCutIsCut(s: VaultState, ops: seq<Op>, budget: nat)
    ensures RunCut(s, ops, budget) == ApplyAll(s, Cut(ops, budget))
    decreases |ops|
  {
    if ops != [] && budget != 0 {
      RunCutIsCut(Apply(s, ops[0]), ops[1..], budget - 1);
      var cut := Cut(ops, budget);
      assert cut[0] == ops[0] && cut[1..] == Cut(ops[1..], budget - 1);
    }
  }

  function Minus(budget: nat, n: nat): nat {
    if n <= budget then budget - n else 0
  }

  lemma {:induction false} RunCutConcat(s: VaultState, a: seq<Op>, b: seq<Op>, budget: nat)
    ensures RunCut(s, a + b, budget) == RunCut(RunCut(s, a, budget), b, Minus(budget, |a|))
    decreases |a|
  {
    if a == [] {
      assert a + b == b;
    } else if budget != 0 {
      assert (a + b)[1..] == a[1..] + b;
      RunCutConcat(Apply(s, a[0]), a[1..], b, budget - 1);
    }
  }

  lemma Phase1At(verdict: Path -> Verdict, head: Sha, files: seq<Path>, i: nat, failures: nat)
    requires i < |files|
    ensures Phase1(verdict, head, files[i..], failures) ==
            match verdict(files[i])
            case ParseFailed =>
              if CircuitBreakerShouldOpen(failures + 1) then [] else Phase1(verdict, head, files[i + 1..], failures + 1)
            case Fresh(hash, notes) => [Batch(files[i], hash, head, notes)] + Phase1(verdict, head, files[i + 1..], 0)
            case _ => Phase1(verdict, head, files[i + 1..], failures)
  {
    assert files[i..][1..] == files[i + 1..];
  }

  lemma Phase2At(repo: Repo, indexed: map<Path, string>, order: seq<Path>, i: nat)
    requires i < |order|
    ensures Phase2(repo, indexed, order[i..]) ==
            if order[i] in indexed && order[i] !in repo.listed
            then [Batch(order[i], "", "", []), DropRow(order[i])] + Phase2(repo, indexed, order[i + 1..])
            else Phase2(repo, indexed, order[i + 1..])
  {
    assert order[i..][1..] == order[i + 1..];
  }

  class Vault {
    var rows: map<Path, Row>
    var visibility: Option<Visibility>
    var marker: Option<string>
    /** Durable steps that still succeed before the fault. */
    var budget: nat

    ghost function State(): VaultState
      reads this
    {
      VaultState(rows, visibility, marker)
    }

    constructor (rows: map<Path, Row>, visibility: Option<Visibility>, marker: Option<string>, budget: nat)
      ensures State() == VaultState(rows, visibility, marker) && this.budget == budget
    {
      this.rows, this.visibility, this.marker, this.budget := rows, visibility, marker, budget;
    }

    /** One durable step, unless the fault strikes first. */
    method Perform(op: Op) returns (ok: bool)
      modifies this
      ensures ok == (old(budget) > 0) && budget == Minus(old(budget), 1)
      ensures State() == (if ok then Apply(old(State()), op) else old(State()))
    {
      if budget == 0 {
        return false;
      }
      budget := budget - 1;
      match op {
        case WriteMarker(n) => marker := Some(WriteAttempts(n));
        case Drop => rows, visibility := map[], None;
        case SetVisibility(v) => visibility := Some(v);
        case Batch(p, h, sha, notes) => rows := rows[p := Row(h, sha, notes)];
        case DropRow(p) => rows := rows - {p};
        case RemoveMarker => marker := None;
      }
      return true;
    }

    /** Performs `ops` in order until the fault strikes. */
    method PerformAll(ops: seq<Op>) returns (ok: bool)
      modifies this
      ensures State() == RunCut(old(State()), ops, old(budget))
      ensures ok == (|ops| <= old(budget)) && budget == Minus(old(budget), |ops|)
    {
      ok := true;
      var rest := ops;
      while rest != []
        invariant RunCut(State(), rest, budget) == RunCut(old(State()), ops, old(budget))
        invariant old(budget) - budget == |ops| - |rest|
        decreases |rest|
      {
        ok := Perform(rest[0]);
        if !ok {
          return;
        }
        rest := rest[1..];
      }
    }

    /** Phase 1 with the circuit breaker. */
    method IngestFiles(verdict: Path -> Verdict, head: Sha, files: seq<Path>)
      returns (ok: bool, ingested: nat, notes: nat)
      modifies this
      ensures var ops := Phase1(verdict, head, files, 0);
              && State() == RunCut(old(State()), ops, old(budget))
              && ok == (|ops| <= old(budget)) && budget == Minus(old(budget), |ops|)
              && (ok ==> ingested == |ops| && notes == NotesIn(ops))
    {
      ghost var ops := Phase1(verdict, head, files, 0);
      ghost var rest := ops;
      var i, failures, open := 0, 0, false;
      ok, ingested, notes := true, 0, 0;
      while i < |files| && !open
        invariant 0 <= i <= |files|
        invariant rest == if open then [] else Phase1(verdict, head, files[i..], failures)
        invariant RunCut(State(), rest, budget) == RunCut(old(State()), ops, old(budget))
        invariant ok && old(budget) - budget == |ops| - |rest| == ingested
        invariant notes + NotesIn(rest) == NotesIn(ops)
        decreases |files| - i
      {
        Phase1At(verdict, head, files, i, failures);
        match verdict(files[i]) {
          case Ignored =>
          case Unchanged =>
          case ParseFailed =>
            failures := failures + 1;
            open := CircuitBreakerShouldOpen(failures);
          case Fresh(hash, derived) =>
            failures := 0;
            ok := Perform(Batch(files[i], hash, head, derived));
            if !ok {
              return;
            }
            rest := rest[1..];
            ingested, notes := ingested + 1, notes + |derived|;
        }
        i := i + 1;
      }
    }

    /** Phase 2. */
    method PropagateDeletions(repo: Repo, indexed: map<Path, string>, order: seq<Path>)
      returns (ok: bool, deleted: nat)
      modifies this
      ensures var ops := Phase2(repo, indexed, order);
              && State() == RunCut(old(State()), ops, old(budget))
              && ok == (|ops| <= old(budget)) && budget == Minus(old(budget), |ops|)
              && (ok ==> 2 * deleted == |ops|)
    {
      ghost var ops := Phase2(repo, indexed, order);
      ghost var rest := ops;
      ok, deleted := true, 0;
      var i := 0;
      while i < |order|
        invariant 0 <= i <= |order| && rest == Phase2(repo, indexed, order[i..])
        invariant RunCut(State(), rest, budget) == RunCut(old(State()), ops, old(budget))
        invariant ok && old(budget) - budget == |ops| - |rest| == 2 * deleted
      {
        Phase2At(repo, indexed, order, i);
        if order[i] in indexed && order[i] !in repo.listed {
          ok := Perform(Batch(order[i], "", "", []));
          if !ok {
            return;
          }
          rest := rest[1..];
          ok := Perform(DropRow(order[i]));
          if !ok {
            return;
          }
          rest := rest[1..];
          deleted := deleted + 1;
        }
        i := i + 1;
      }
    }

    /** `code ingest`: it performs its plan in order up to the fault; the last step, removing the
        marker, may fail without failing the run. */
    method RunIngest(tc: Toolchain, rebuild: bool, vis: Visibility, repo: Repo, order: seq<Path>)
      returns (r: Result<Report, RunError>)
      modifies this
      ensures var plan := IngestPlan(tc, old(State()), rebuild, vis, repo, order);
              && State() == ApplyAll(old(State()), Cut(plan, old(budget)))
              && (r == Failure(TooManyAttempts) <==> Refused(old(State())))
              && (r.Success? <==> !Refused(old(State())) && |plan| <= old(budget) + 1)
      ensures r.Success? ==>
                var indexed := IndexedAfterOpening(old(State()), rebuild);
                var ingested := Phase1(Verdicts(tc, repo, vis, indexed), repo.head, repo.listed, 0);
                && r.value.filesIngested == |ingested| && r.value.notesInserted == NotesIn(ingested)
                && 2 * r.value.filesDeleted == |Phase2(repo, indexed, order)|
    {
      ghost var s, plan := State(), IngestPlan(tc, State(), rebuild, vis, repo, order);
      RunCutIsCut(s, plan, budget);
      if marker.Some? && ReadAttempts(marker.value) >= MAX_RETRY {
        return Failure(TooManyAttempts);
      }
      ghost var indexed0 := IndexedAfterOpening(s, rebuild);
      ghost var a, c := Opening(s, rebuild, vis), Phase2(repo, indexed0, order);
      ghost var b := Phase1(Verdicts(tc, repo, vis, indexed0), repo.head, repo.listed, 0);
      FourParts(s, a, b, c, budget);
      var ok := PerformAll(Opening(VaultState(rows, visibility, marker), rebuild, vis));
      if !ok {
        return Failure(Interrupted);
      }
      OpeningLeavesIndexed(s, rebuild, vis, old(budget));
      var indexed := Hashes(rows);
      var ingested, notes, deleted;
      ok, ingested, notes := IngestFiles(Verdicts(tc, repo, vis, indexed), repo.head, repo.listed);
      if !ok {
        return Failure(Interrupted);
      }
      ok, deleted := PropagateDeletions(repo, indexed, order);
      if !ok {
        return Failure(Interrupted);
      }
      ok := Perform(RemoveMarker);
      return Success(Report(ingested, notes, deleted));
    }

    /** `code update`; `last` is what the sha query answered. */
    method RunUpdate(tc: Toolchain, override: Option<Visibility>, repo: Repo, order: seq<Path>)
      returns (ok: bool, last: Option<Sha>)
      modifies this
      ensures IsLastSha(old(rows), last)
      ensures var plan := UpdatePlan(tc, old(State()), last, override, repo, order);
              && State() == ApplyAll(old(State()), Cut(plan, old(budget)))
              && (ok <==> if old(marker).None? && last.Some? then repo.knows(last.value) && |plan| <= old(budget)
                          else !Refused(old(State())) && |plan| <= old(budget) + 1)
    {
      last := LastIngestedSha(rows);
      ghost var s := State();
      if marker.Some? {
        var r := RunIngest(tc, true, override.GetOr(Pub), repo, order);
        return r.Success?, last;
      }
      var vis := override.GetOr(visibility.GetOr(Pub));
      if last.None? {
        var r := RunIngest(tc, false, vis, repo, order);
        return r.Success?, last;
      }
      ghost var changes0 := ReadDiff(repo, last.value);
      ghost var plan := [SetVisibility(vis)] + DiffOps(tc, repo, vis, changes0);
      RunCutIsCut(s, plan, budget);
      assert plan[1..] == DiffOps(tc, repo, vis, changes0);
      ok := Perform(SetVisibility(vis));
      if !ok || !repo.knows(last.value) {
        return false, last;
      }
      var changes := GitDiff.ParseNameStatus(repo.diffOutput(last.value));
      ok := ReplayDiff(tc, vis, repo, changes);
    }

    method ReplayDiff(tc: Toolchain, vis: Visibility, repo: Repo, changes: seq<GitDiff.Change>) returns (ok: bool)
      modifies this
      ensures var ops := DiffOps(tc, repo, vis, changes);
              && State() == RunCut(old(State()), ops, old(budget))
              && ok == (|ops| <= old(budget)) && budget == Minus(old(budget), |ops|)
    {
      ghost var all := DiffOps(tc, repo, vis, changes);
      ok := true;
      var rest := changes;
      while rest != []
        invariant ok && old(budget) - budget == |all| - |DiffOps(tc, repo, vis, rest)|
        invariant RunCut(State(), DiffOps(tc, repo, vis, rest), budget) == RunCut(old(State()), all, old(budget))
        decreases |rest|
      {
        var ops := ChangeOps(tc, repo, vis, rest[0]);
        RunCutConcat(State(), ops, DiffOps(tc, repo, vis, rest[1..]), budget);
        ok := PerformAll(ops);
        if !ok {
          return;
        }
        rest := rest[1..];
      }
    }
  }

  lemma FourParts(s: VaultState, a: seq<Op>, b: seq<Op>, c: seq<Op>, budget: nat)
    ensures RunCut(s, a + b + c + [RemoveMarker], budget) ==
            RunCut(RunCut(RunCut(RunCut(s, a, budget), b, Minus(budget, |a|)), c, Minus(budget, |a| + |b|)),
                   [RemoveMarker], Minus(budget, |a| + |b| + |c|))
  {
    RunCutConcat(s, a, b, budget);
    RunCutConcat(s, a + b, c, budget);
    RunCutConcat(s, a + b + c, [RemoveMarker], budget);
  }

  lemma OpeningLeavesIndexed(s: VaultState, rebuild: bool, vis: Visibility, budget: nat)
    requires !Refused(s) && |Opening(s, rebuild, vis)| <= budget
    ensures Hashes(RunCut(s, Opening(s, rebuild, vis), budget).rows) == IndexedAfterOpening(s, rebuild)
  {
    RunCutIsCut(s, Opening(s, rebuild, vis), budget);
    CodeIngest.OpeningState(s, rebuild, vis);
  }
}
