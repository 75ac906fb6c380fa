/** Whole histories of `code ingest` and `code update`, each call cut after any number of steps. */
module CodeRuns {
  import opened Wrappers
  import opened CodeIndex
  import opened CodeUpdate

  datatype Call =
    | Ingest(rebuild: bool, vis: Visibility, repo: Repo, order: seq<Path>)
    | Update(last: Option<Sha>, override: Option<Visibility>, repo: Repo, order: seq<Path>)

  datatype Event =
    | Run(call: Call, budget: nat)
    | MarkerRemovedByHand

  function Plan(tc: Toolchain, s: VaultState, call: Call): seq<Op> {
    match call
    case Ingest(rebuild, vis, repo, order) => IngestPlan(tc, s, rebuild, vis, repo, order)
    case Update(last, override, repo, order) => UpdatePlan(tc, s, last, override, repo, order)
  }

  function Performed(tc: Toolchain, s: VaultState, e: Event): seq<Op> {
    match e
    case Run(call, budget) => Cut(Plan(tc, s, call), budget)
    case MarkerRemovedByHand => [RemoveMarker]
  }

  function After(tc: Toolchain, s: VaultState, e: Event): VaultState {
    ApplyAll(s, Performed(tc, s, e))
  }

  function AfterAll(tc: Toolchain, s: VaultState, events: seq<Event>): VaultState
    decreases |events|
  {
    if events == [] then s else AfterAll(tc, After(tc, s, events[0]), events[1..])
  }

  // ---------------------------------------------------------------- quiet steps

  predicate Quiet(op: Op) {
    op.SetVisibility? || op.Batch? || op.DropRow?
  }

  predicate AllQuiet(ops: seq<Op>) {
    forall op :: op in ops ==> Quiet(op)
  }

  lemma {:induction false} Phase1Quiet(verdict: Path -> Verdict, head: Sha, files: seq<Path>, failures: nat)
    ensures AllQuiet(Phase1(verdict, head, files, failures))
    decreases |files|
  {
    if files != [] {
      Phase1Quiet(verdict, head, files[1..], failures);
      Phase1Quiet(verdict, head, files[1..], failures + 1);
      Phase1Quiet(verdict, head, files[1..], 0);
    }
  }

  lemma {:induction false} Phase2Quiet(repo: Repo, indexed: map<Path, string>, order: seq<Path>)
    ensures AllQuiet(Phase2(repo, indexed, order))
    decreases |order|
  {
    if order != [] {
      Phase2Quiet(repo, indexed, order[1..]);
    }
  }

  lemma {:induction false} DiffQuiet(tc: Toolchain, repo: Repo, vis: Visibility, changes: seq<GitDiff.Change>)
    ensures AllQuiet(DiffOps(tc, repo, vis, changes))
    decreases |changes|
  {
    if changes != [] {
      DiffQuiet(tc, repo, vis, changes[1..]);
    }
  }

  /** An accepted ingest is its opening, then quiet steps, then the removal of the marker. */
  lemma IngestShape(tc: Toolchain, s: VaultState, rebuild: bool, vis: Visibility, repo: Repo, order: seq<Path>)
    returns (quiet: seq<Op>)
    requires !Refused(s)
    ensures AllQuiet(quiet)
    ensures IngestPlan(tc, s, rebuild, vis, repo, order) == Opening(s, rebuild, vis) + (quiet + [RemoveMarker])
  {
    var indexed := IndexedAfterOpening(s, rebuild);
    var b := Phase1(Verdicts(tc, repo, vis, indexed), repo.head, repo.listed, 0);
    var c := Phase2(repo, indexed, order);
    Phase1Quiet(Verdicts(tc, repo, vis, indexed), repo.head, repo.listed, 0);
    Phase2Quiet(repo, indexed, order);
    quiet := b + c;
  }

  /** Every call is refused, quiet throughout, or an accepted ingest. */
  lemma PlanShape(tc: Toolchain, s: VaultState, call: Call) returns (rebuild: bool, vis: Visibility, quiet: seq<Op>)
    ensures AllQuiet(quiet)
    ensures || (Refused(s) && Plan(tc, s, call) == [])
            || (s.marker.None? && call.Update? && Plan(tc, s, call) == quiet)
            || (!Refused(s) && Plan(tc, s, call) == Opening(s, rebuild, vis) + (quiet + [RemoveMarker]))
    ensures call.Ingest? && !Refused(s) ==> Plan(tc, s, call) == Opening(s, rebuild, vis) + (quiet + [RemoveMarker])
  {
    rebuild, vis, quiet := true, Pub, [];
    if !Refused(s) {
      match call
      case Ingest(r, v, repo, order) =>
        rebuild, vis := r, v;
        quiet := IngestShape(tc, s, r, v, repo, order);
      case Update(last, override, repo, order) =>
        var v := EffectiveVisibility(s, override);
        vis := v;
        if s.marker.Some? {
          quiet := IngestShape(tc, s, true, v, repo, order);
        } else if last.None? {
          rebuild := false;
          quiet := IngestShape(tc, s, false, v, repo, order);
        } else {
          var changes := ReadDiff(repo, last.value);
          DiffQuiet(tc, repo, v, changes);
          quiet := [SetVisibility(v)] + DiffOps(tc, repo, v, changes);
        }
    }
  }

  // ---------------------------------------------------------------- crash safety

  lemma {:induction false} NonRemovalKeepsMarker(s: VaultState, ops: seq<Op>)
    requires s.marker.Some? && RemoveMarker !in ops
    ensures ApplyAll(s, ops).marker.Some?
    decreases |ops|
  {
    if ops != [] {
      NonRemovalKeepsMarker(Apply(s, ops[0]), ops[1..]);
    }
  }

  /** One ingest cut after any number of steps: without a marker afterwards, either the run
      completed or it never touched the rows. */
  lemma CutIngestIsCovered(tc: Toolchain, s: VaultState, call: Call, budget: nat)
    requires call.Ingest?
    ensures var r := After(tc, s, Run(call, budget));
            r.marker.None? ==> (!Refused(s) && budget >= |Plan(tc, s, call)|) || (s.marker.None? && r.rows == s.rows)
  {
    if !Refused(s) && budget < |Plan(tc, s, call)| {
      var rebuild, vis, quiet := PlanShape(tc, s, call);
      var plan := Plan(tc, s, call);
      var ops := plan[..budget];
      assert RemoveMarker !in ops by {
        var body := Opening(s, rebuild, vis) + quiet;
        assert ops == body[..budget];
        forall op | op in ops ensures op != RemoveMarker {
          assert op in body;
          assert op in quiet ==> Quiet(op);
        }
      }
      if s.marker.Some? {
        NonRemovalKeepsMarker(s, ops);
      } else if budget >= 2 {
        assert ops == [plan[0], plan[1]] + ops[2..];
        ApplyAllConcat(s, [plan[0], plan[1]], ops[2..]);
        ApplyTwo(s, plan[0], plan[1]);
        NonRemovalKeepsMarker(ApplyAll(s, [plan[0], plan[1]]), ops[2..]);
      } else if budget == 1 {
        assert ops == [plan[0]];
        assert ApplyAll(s, ops) == Apply(s, plan[0]);
      }
    }
  }

  /** The rows the last completed ingest of a history left, or the initial rows. */
  ghost function LastCompleted(tc: Toolchain, s: VaultState, events: seq<Event>, rows: map<Path, Row>): map<Path, Row>
    decreases |events|
  {
    if events == [] then rows
    else
      var e := events[0];
      var s' := After(tc, s, e);
      var completed := e.Run? && !Refused(s) && e.budget >= |Plan(tc, s, e.call)|;
      LastCompleted(tc, s', events[1..], if completed then s'.rows else rows)
  }

  /** Crash safety: after any sequence of ingests, each cut anywhere, a vault without a marker holds
      exactly the rows its last completed ingest left. */
  lemma {:induction false} CrashSafety(tc: Toolchain, s: VaultState, events: seq<Event>, rows: map<Path, Row>)
    requires forall e :: e in events ==> e.Run? && e.call.Ingest?
    requires s.marker.None? ==> s.rows == rows
    ensures var r := AfterAll(tc, s, events);
            r.marker.None? ==> r.rows == LastCompleted(tc, s, events, rows)
    decreases |events|
  {
    if events != [] {
      var e := events[0];
      CutIngestIsCovered(tc, s, e.call, e.budget);
      var s' := After(tc, s, e);
      var completed := !Refused(s) && e.budget >= |Plan(tc, s, e.call)|;
      CrashSafety(tc, s', events[1..], if completed then s'.rows else rows);
    }
  }

  // ---------------------------------------------------------------- bounded retries

  /** A state and the number of vault drops since the marker was last removed. */
  datatype Audit = Audit(state: VaultState, drops: nat)

  function AuditOp(a: Audit, op: Op): Audit {
    Audit(Apply(a.state, op), if op.Drop? then a.drops + 1 else if op.RemoveMarker? then 0 else a.drops)
  }

  function AuditOps(a: Audit, ops: seq<Op>): Audit
    decreases |ops|
  {
    if ops == [] then a else AuditOps(AuditOp(a, ops[0]), ops[1..])
  }

  function AuditAll(tc: Toolchain, a: Audit, events: seq<Event>): Audit
    decreases |events|
  {
    if events == [] then a else AuditAll(tc, AuditOps(a, Performed(tc, a.state, events[0])), events[1..])
  }

  /** Drops never outrun the attempt counter in the marker. */
  predicate WithinBudget(a: Audit) {
    && a.drops <= MAX_RETRY + 1
    && match a.state.marker
       case None => a.drops == 0
       case Some(content) => a.drops <= ReadAttempts(content) + 1
  }

  lemma {:induction false} AuditQuiet(a: Audit, ops: seq<Op>)
    requires AllQuiet(ops)
    ensures AuditOps(a, ops).drops == a.drops && AuditOps(a, ops).state.marker == a.state.marker
    decreases |ops|
  {
    if ops != [] {
      assert ops[0] in ops;
      AuditQuiet(AuditOp(a, ops[0]), ops[1..]);
    }
  }

  lemma {:induction false} AuditConcat(a: Audit, x: seq<Op>, y: seq<Op>)
    ensures AuditOps(a, x + y) == AuditOps(AuditOps(a, x), y)
    decreases |x|
  {
    if x == [] {
      assert x + y == y;
    } else {
      AuditConcat(AuditOp(a, x[0]), x[1..], y);
      assert (x + y)[1..] == x[1..] + y;
    }
  }

  /** The opening keeps the invariant wherever it is cut. */
  lemma AuditOpening(a: Audit, rebuild: bool, vis: Visibility, k: nat)
    requires WithinBudget(a) && !Refused(a.state) && k <= |Opening(a.state, rebuild, vis)|
    ensures WithinBudget(AuditOps(a, Opening(a.state, rebuild, vis)[..k]))
  {
    var ops := Opening(a.state, rebuild, vis);
    var count := if a.state.marker.Some? then ReadAttempts(a.state.marker.value) + 1 else 0;
    AttemptsRoundTrip(count);
    if k >= 1 {
      var rest := ops[..k][1..];
      var a1 := AuditOp(a, ops[0]);
      assert AuditOps(a, ops[..k]) == AuditOps(a1, rest);
      if k >= 2 {
        var a2 := AuditOp(a1, ops[1]);
        assert rest[0] == ops[1];
        assert AuditOps(a1, rest) == AuditOps(a2, rest[1..]);
        if k == 3 {
          assert rest[1..] == [ops[2]];
          assert AuditOps(a2, rest[1..]) == AuditOp(a2, ops[2]);
        } else {
          assert rest[1..] == [];
        }
      } else {
        assert rest == [];
      }
    }
  }

  /** The quiet part and the final removal of the marker keep the invariant wherever they are cut. */
  lemma AuditClosing(a: Audit, quiet: seq<Op>, k: nat)
    requires WithinBudget(a) && AllQuiet(quiet) && k <= |quiet| + 1
    ensures WithinBudget(AuditOps(a, (quiet + [RemoveMarker])[..k]))
  {
    var ops := (quiet + [RemoveMarker])[..k];
    if k <= |quiet| {
      assert ops == quiet[..k];
      AuditQuiet(a, quiet[..k]);
    } else {
      assert ops == quiet + [RemoveMarker];
      AuditQuiet(a, quiet);
      AuditConcat(a, quiet, [RemoveMarker]);
      var b := AuditOps(a, quiet);
      assert AuditOps(b, [RemoveMarker]) == AuditOps(AuditOp(b, RemoveMarker), [RemoveMarker][1..]);
    }
  }

  lemma AuditIngest(a: Audit, rebuild: bool, vis: Visibility, quiet: seq<Op>, k: nat)
    requires WithinBudget(a) && !Refused(a.state) && AllQuiet(quiet)
    requires k <= |Opening(a.state, rebuild, vis) + (quiet + [RemoveMarker])|
    ensures WithinBudget(AuditOps(a, (Opening(a.state, rebuild, vis) + (quiet + [RemoveMarker]))[..k]))
  {
    var opening := Opening(a.state, rebuild, vis);
    var closing := quiet + [RemoveMarker];
    if k <= |opening| {
      assert (opening + closing)[..k] == opening[..k];
      AuditOpening(a, rebuild, vis, k);
    } else {
      assert opening[..|opening|] == opening;
      AuditOpening(a, rebuild, vis, |opening|);
      AuditBeyond(a, opening, quiet, k);
    }
  }

  lemma AuditBeyond(a: Audit, opening: seq<Op>, quiet: seq<Op>, k: nat)
    requires WithinBudget(AuditOps(a, opening)) && AllQuiet(quiet) && |opening| < k <= |opening| + |quiet| + 1
    ensures WithinBudget(AuditOps(a, (opening + (quiet + [RemoveMarker]))[..k]))
  {
    var closing := quiet + [RemoveMarker];
    assert (opening + closing)[..k] == opening + closing[..k - |opening|];
    AuditConcat(a, opening, closing[..k - |opening|]);
    AuditClosing(AuditOps(a, opening), quiet, k - |opening|);
  }

  lemma AuditPlan(tc: Toolchain, a: Audit, call: Call, budget: nat)
    requires WithinBudget(a)
    ensures WithinBudget(AuditOps(a, Cut(Plan(tc, a.state, call), budget)))
  {
    var rebuild, vis, quiet := PlanShape(tc, a.state, call);
    var plan := Plan(tc, a.state, call);
    var k := |Cut(plan, budget)|;
    assert Cut(plan, budget) == plan[..k];
    if plan == quiet || plan == [] {
      AuditQuiet(a, plan[..k]);
    } else {
      AuditIngest(a, rebuild, vis, quiet, k);
    }
  }

  lemma {:induction false} AuditTracksState(a: Audit, ops: seq<Op>)
    ensures AuditOps(a, ops).state == ApplyAll(a.state, ops)
    decreases |ops|
  {
    if ops != [] {
      AuditTracksState(AuditOp(a, ops[0]), ops[1..]);
    }
  }

  /** Bounded retries: over any mix of ingests and updates, cut anywhere, and marker removals by
      hand, at most four drops happen between two removals of the marker. */
  lemma {:induction false} BoundedRetries(tc: Toolchain, a: Audit, events: seq<Event>)
    requires WithinBudget(a)
    ensures WithinBudget(AuditAll(tc, a, events))
    ensures AuditAll(tc, a, events).drops <= MAX_RETRY + 1
    ensures AuditAll(tc, a, events).state == AfterAll(tc, a.state, events)
    decreases |events|
  {
    if events != [] {
      var e := events[0];
      var ops := Performed(tc, a.state, e);
      AuditTracksState(a, ops);
      match e {
        case Run(call, budget) => AuditPlan(tc, a, call, budget);
        case MarkerRemovedByHand => assert AuditOps(a, ops) == AuditOp(a, RemoveMarker);
      }
      BoundedRetries(tc, AuditOps(a, ops), events[1..]);
    }
  }

  /** Once the counter reaches the limit, every later call leaves the vault untouched. */
  lemma {:induction false} RefusedForever(tc: Toolchain, s: VaultState, events: seq<Event>)
    requires Refused(s)
    requires forall e :: e in events ==> e.Run?
    ensures AfterAll(tc, s, events) == s
    decreases |events|
  {
    if events != [] {
      var _, _, _ := PlanShape(tc, s, events[0].call);
      assert Performed(tc, s, events[0]) == [];
      RefusedForever(tc, s, events[1..]);
    }
  }
}
