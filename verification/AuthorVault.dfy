/** The author back-fill as it works on disk and index. */
module AuthorVault {
  import opened Wrappers
  import opened BackfillAuthors
  import opened AuthorRuns

  datatype Error = MalformedNote | Interrupted

  datatype Outcome = Assigned | SkippedDrift | SkippedMissingMd

  /** The vault directory and the index; the process is interrupted once `budget` writes are made. */
  class Vault {
    var files: map<Path, File>
    var rows: map<Id, Row>
    var budget: nat

    constructor (files: map<Path, File>, rows: map<Id, Row>, budget: nat)
      ensures Disk() == State(files, rows) && this.budget == budget
    {
      this.files, this.rows, this.budget := files, rows, budget;
    }

    function Disk(): State
      reads this
    {
      State(files, rows)
    }

    method Replace(p: Path, f: File) returns (ok: bool)
      modifies this`files, this`budget
      ensures ok <==> old(budget) > 0
      ensures ok ==> files == old(files)[p := f] && budget == old(budget) - 1
      ensures !ok ==> files == old(files) && budget == 0
    {
      ok := budget > 0;
      if ok {
        files, budget := files[p := f], budget - 1;
      }
    }

    method Update(env: Env, id: Id, hash: string, now: int) returns (ok: bool)
      requires id in rows
      modifies this`rows, this`budget
      ensures ok <==> old(budget) > 0
      ensures ok ==> State(files, rows) == UpdateRow(env, old(Disk()), id, hash, now) && budget == old(budget) - 1
      ensures !ok ==> rows == old(rows) && budget == 0
    {
      ok := budget > 0;
      if ok {
        if rows[id].author.None? || rows[id].author.value.id == [] {
          rows := rows[id := rows[id].(author := Some(env.author), hash := hash, updated := now)];
        }
        budget := budget - 1;
      }
    }

    /** `process_one`: the file first, the row last. */
    method ProcessOne(env: Env, it: Item, dryRun: bool) returns (r: Result<Outcome, Error>)
      requires it.id in rows
      modifies this
      ensures var verdict := Judge(env, old(Disk()), it.id);
              && (verdict == Bad ==> r == Failure(MalformedNote) && Disk() == old(Disk()) && budget == old(budget))
              && (verdict == Missing ==>
                    r == Success(SkippedMissingMd) && Disk() == old(Disk()) && budget == old(budget))
              && (verdict == Drift ==> r == Success(SkippedDrift) && Disk() == old(Disk()) && budget == old(budget))
              && (verdict.Assign? && dryRun ==>
                    r == Success(Assigned) && Disk() == old(Disk()) && budget == old(budget))
              && (verdict.Assign? && !dryRun ==>
                    && (r == Success(Assigned) <==> old(budget) >= 2)
                    && (r == Failure(Interrupted) <==> old(budget) < 2)
                    && Disk() == (if old(budget) == 0 then old(Disk())
                                  else if old(budget) == 1 then WriteFile(env, old(Disk()), verdict.path, it.now)
                                  else Settle(env, old(Disk()), it, verdict.path))
                    && (old(budget) >= 2 ==> budget == old(budget) - 2))
    {
      var rel := FirstExisting(files, env.paths(rows[it.id].place, it.id));
      if rel.None? {
        return Success(SkippedMissingMd);
      }
      var parsed := files[rel.value];
      if parsed.Malformed? {
        return Failure(MalformedNote);
      }
      if parsed.author.Some? && parsed.author.value.id != []
         && (parsed.author.value.kind != env.author.kind || parsed.author.value.id != env.author.id) {
        return Success(SkippedDrift);
      }
      parsed := parsed.(author := Some(env.author), updated := Some(it.now));
      if dryRun {
        return Success(Assigned);
      }
      var ok := Replace(rel.value, parsed);
      if !ok {
        return Failure(Interrupted);
      }
      ok := Update(env, it.id, env.hash(parsed), it.now);
      r := if ok then Success(Assigned) else Failure(Interrupted);
    }

    /** `run_sync` on the candidates the query selected. A preview writes nothing and reports exactly what
        the real run would; a real run leaves the state of `Run`, cut where the process was interrupted. */
    method RunSync(env: Env, items: seq<Item>, dryRun: bool) returns (r: Result<Report, Error>)
      requires Sound(env) && Selection(Disk(), items)
      modifies this
      ensures dryRun ==> Disk() == old(Disk())
      ensures !dryRun ==> Disk() == Run(env, old(Disk()), items, old(budget))
      ensures r.Success? ==> Preview(env, old(Disk()), items, Report(|items|, 0, 0, 0)) == Some(r.value)
      ensures r == Failure(MalformedNote) ==> Preview(env, old(Disk()), items, Report(|items|, 0, 0, 0)) == None
      ensures r == Failure(Interrupted) ==> !dryRun && old(budget) < 2 * |items|
    {
      var report := Report(|items|, 0, 0, 0);
      ghost var target := Preview(env, Disk(), items, report);
      ghost var goal := Run(env, Disk(), items, budget);
      var rest := items;
      while rest != []
        invariant Pending(env, Disk(), rest, report, target)
        invariant dryRun ==> Disk() == old(Disk())
        invariant !dryRun ==> Run(env, Disk(), rest, budget) == goal
        invariant |rest| <= |items| && budget + 2 * (|items| - |rest|) >= old(budget)
        decreases |rest|
      {
        Turn(env, Disk(), rest, budget, report);
        var outcome := ProcessOne(env, rest[0], dryRun);
        if outcome.Failure? {
          return Failure(outcome.error);
        }
        match outcome.value {
          case Assigned => report := report.(attributed := report.attributed + 1);
          case SkippedDrift => report := report.(drift := report.drift + 1);
          case SkippedMissingMd => report := report.(missing := report.missing + 1);
        }
        rest := rest[1..];
      }
      r := Success(report);
    }
  }

  /** The candidates still to come are a selection, and previewing them completes the report to `target`. */
  ghost predicate Pending(env: Env, st: State, rest: seq<Item>, report: Report, target: Option<Report>) {
    Selection(st, rest) && Preview(env, st, rest, report) == target
  }

  /** What one turn of the loop does to the pending run and to the pending preview. */
  lemma Turn(env: Env, st: State, items: seq<Item>, budget: nat, report: Report)
    requires Sound(env) && Selection(st, items) && items != []
    ensures Selection(st, items[1..])
    ensures match Judge(env, st, items[0].id)
            case Bad => Preview(env, st, items, report) == None && Run(env, st, items, budget) == st
            case Missing =>
              && Preview(env, st, items, report) == Preview(env, st, items[1..], report.(missing := report.missing + 1))
              && Run(env, st, items, budget) == Run(env, st, items[1..], budget)
            case Drift =>
              && Preview(env, st, items, report) == Preview(env, st, items[1..], report.(drift := report.drift + 1))
              && Run(env, st, items, budget) == Run(env, st, items[1..], budget)
            case Assign(p) =>
              var next, more := Settle(env, st, items[0], p), report.(attributed := report.attributed + 1);
              && Selection(next, items[1..])
              && Preview(env, st, items, report) == Preview(env, st, items[1..], more)
              && Preview(env, next, items[1..], more) == Preview(env, st, items[1..], more)
              && Run(env, st, items, budget) ==
                 (if budget == 0 then st
                  else if budget == 1 then WriteFile(env, st, p, items[0].now)
                  else Run(env, next, items[1..], budget - 2))
  {
    SelectionSkip(st, items);
    var verdict := Judge(env, st, items[0].id);
    if verdict.Assign? {
      SelectionTail(env, st, items, verdict.path);
      assert forall i :: 0 <= i < |items[1..]| ==> items[1..][i] == items[i + 1];
      PreviewStable(env, st, items[0], verdict.path, items[1..], report.(attributed := report.attributed + 1));
    }
  }
}
