/** Laws of the author back-fill over whole histories of interrupted, limited and repeated runs. */
module AuthorRuns {
  import opened Wrappers
  import opened BackfillAuthors

  // ---------------------------------------------------------------- what every state keeps

  /** The notes, their places and their files are the same ones. */
  ghost predicate SameShape(a: State, b: State) {
    && a.files.Keys == b.files.Keys && a.rows.Keys == b.rows.Keys
    && (forall id :: id in a.rows ==>
          && a.rows[id].place == b.rows[id].place && a.rows[id].created == b.rows[id].created
          && a.rows[id].rest == b.rows[id].rest)
  }

  /** Only the author and the update time of a file may change, never over another author. */
  predicate FileStep(env: Env, f0: File, f: File) {
    || f == f0
    || (&& f0.Note? && !Drifted(env, f0) && f.Note?
        && f.author == Some(env.author) && f.rest == f0.rest && f.body == f0.body)
  }

  ghost predicate IsCandidateFile(env: Env, st: State, p: Path) {
    exists id :: id in st.rows && Unattributed(st.rows[id].author) && Where(env, st, id) == Some(p)
  }

  ghost predicate FilesKept(env: Env, st0: State, st: State)
    requires SameShape(st0, st)
  {
    forall p :: p in st.files ==>
      FileStep(env, st0.files[p], st.files[p]) && (st.files[p] != st0.files[p] ==> IsCandidateFile(env, st0, p))
  }

  /** File and row agree: both carry the target author, and the row's hash is that of the file. */
  predicate Coherent(env: Env, st: State, id: Id)
    requires id in st.rows
  {
    var p := Where(env, st, id);
    && st.rows[id].author == Some(env.author)
    && p.Some? && st.files[p.value].Note? && st.files[p.value].author == Some(env.author)
    && st.rows[id].hash == env.hash(st.files[p.value])
  }

  predicate RowStep(env: Env, st0: State, st: State, id: Id)
    requires id in st0.rows && id in st.rows
  {
    st.rows[id] == st0.rows[id] || (Unattributed(st0.rows[id].author) && Coherent(env, st, id))
  }

  ghost predicate RowsKept(env: Env, st0: State, st: State)
    requires SameShape(st0, st)
  {
    forall id :: id in st.rows ==> RowStep(env, st0, st, id)
  }

  /** What holds of every state a history of runs can reach from `st0`. */
  ghost predicate Inv(env: Env, st0: State, st: State) {
    SameShape(st0, st) && FilesKept(env, st0, st) && RowsKept(env, st0, st)
  }

  ghost predicate Sound(env: Env) {
    Separate(env) && env.author.id != []
  }

  lemma {:induction false} FirstExistingSame(a: map<Path, File>, b: map<Path, File>, paths: seq<Path>)
    requires a.Keys == b.Keys
    ensures FirstExisting(a, paths) == FirstExisting(b, paths)
    decreases |paths|
  {
    if paths != [] {
      assert paths[0] in a.Keys <==> paths[0] in b.Keys;
      FirstExistingSame(a, b, paths[1..]);
    }
  }

  lemma WhereSame(env: Env, a: State, b: State, id: Id)
    requires SameShape(a, b) && id in a.rows
    ensures id in b.rows && Where(env, a, id) == Where(env, b, id)
  {
    assert id in b.rows.Keys;
    FirstExistingSame(a.files, b.files, env.paths(a.rows[id].place, id));
  }

  lemma WhereApart(env: Env, st: State, id: Id, id': Id)
    requires Separate(env) && id in st.rows && id' in st.rows && id != id' && Where(env, st, id).Some?
    ensures Where(env, st, id) != Where(env, st, id')
  {
    if Where(env, st, id) == Where(env, st, id') {
      FirstExistingIsCandidate(st.files, env.paths(st.rows[id].place, id));
      FirstExistingIsCandidate(st.files, env.paths(st.rows[id'].place, id'));
    }
  }

  // ---------------------------------------------------------------- one note

  lemma WriteKeeps(env: Env, st0: State, st: State, id: Id, p: Path, now: int)
    requires Sound(env) && Inv(env, st0, st) && id in st.rows && Unattributed(st.rows[id].author)
    requires Judge(env, st, id) == Assign(p)
    ensures Inv(env, st0, WriteFile(env, st, p, now))
  {
    var st' := WriteFile(env, st, p, now);
    assert SameShape(st0, st') && SameShape(st, st');
    assert st.rows[id] == st0.rows[id];
    WhereSame(env, st0, st, id);
    assert IsCandidateFile(env, st0, p);
    forall id' | id' in st'.rows ensures RowStep(env, st0, st', id') {
      WhereSame(env, st, st', id');
      assert RowStep(env, st0, st, id');
      if st.rows[id'] != st0.rows[id'] {
        assert id' != id;
        WhereApart(env, st, id, id');
      }
    }
  }

  lemma UpdateKeeps(env: Env, st0: State, st: State, id: Id, p: Path, now: int)
    requires Sound(env) && Inv(env, st0, st) && id in st.rows && Unattributed(st.rows[id].author)
    requires Where(env, st, id) == Some(p) && st.files[p].Note? && st.files[p].author == Some(env.author)
    ensures Inv(env, st0, UpdateRow(env, st, id, env.hash(st.files[p]), now))
    ensures !Unattributed(UpdateRow(env, st, id, env.hash(st.files[p]), now).rows[id].author)
  {
    var st' := UpdateRow(env, st, id, env.hash(st.files[p]), now);
    assert SameShape(st0, st') && SameShape(st, st');
    assert st.rows[id] == st0.rows[id];
    forall id' | id' in st'.rows ensures RowStep(env, st0, st', id') {
      WhereSame(env, st, st', id');
      assert RowStep(env, st0, st, id');
    }
  }

  /** File, then row, of one attributed note. */
  function Settle(env: Env, st: State, it: Item, p: Path): State
    requires it.id in st.rows && p in st.files && st.files[p].Note?
  {
    var written := WriteFile(env, st, p, it.now);
    UpdateRow(env, written, it.id, env.hash(written.files[p]), it.now)
  }

  lemma SettleKeeps(env: Env, st0: State, st: State, it: Item, p: Path)
    requires Sound(env) && Inv(env, st0, st) && it.id in st.rows && Unattributed(st.rows[it.id].author)
    requires Judge(env, st, it.id) == Assign(p)
    ensures Inv(env, st0, Settle(env, st, it, p)) && !Unattributed(Settle(env, st, it, p).rows[it.id].author)
  {
    var written := WriteFile(env, st, p, it.now);
    WriteKeeps(env, st0, st, it.id, p, it.now);
    WhereSame(env, st, written, it.id);
    UpdateKeeps(env, st0, written, it.id, p, it.now);
  }

  /** Settling one note leaves every other note, and its verdict, as it was. */
  lemma SettleSpares(env: Env, st: State, it: Item, p: Path, id: Id)
    requires Sound(env) && it.id in st.rows && id in st.rows && id != it.id && Judge(env, st, it.id) == Assign(p)
    ensures SameShape(st, Settle(env, st, it, p))
    ensures Settle(env, st, it, p).rows[id] == st.rows[id]
    ensures Judge(env, Settle(env, st, it, p), id) == Judge(env, st, id)
  {
    WhereSame(env, st, Settle(env, st, it, p), id);
    WhereApart(env, st, it.id, id);
  }

  // ---------------------------------------------------------------- a run

  /** What the candidate query returns: distinct notes without an author. */
  ghost predicate Selection(st: State, items: seq<Item>) {
    && (forall i :: 0 <= i < |items| ==> items[i].id in st.rows && Unattributed(st.rows[items[i].id].author))
    && (forall i, j :: 0 <= i < j < |items| ==> items[i].id != items[j].id)
  }

  lemma SelectionTail(env: Env, st: State, items: seq<Item>, p: Path)
    requires Selection(st, items) && items != [] && Judge(env, st, items[0].id) == Assign(p)
    ensures Selection(Settle(env, st, items[0], p), items[1..])
  {
    var st' := Settle(env, st, items[0], p);
    forall i | 0 <= i < |items[1..]|
      ensures items[1..][i].id in st'.rows && Unattributed(st'.rows[items[1..][i].id].author)
    {
      assert items[1..][i] == items[i + 1];
    }
  }

  lemma SelectionSkip(st: State, items: seq<Item>)
    requires Selection(st, items) && items != []
    ensures Selection(st, items[1..])
  {
    assert forall i :: 0 <= i < |items[1..]| ==> items[1..][i] == items[i + 1];
  }

  lemma RunSkips(env: Env, st: State, items: seq<Item>, budget: nat)
    requires Selection(st, items) && items != [] && Judge(env, st, items[0].id) in {Missing, Drift}
    ensures Selection(st, items[1..]) && Run(env, st, items, budget) == Run(env, st, items[1..], budget)
  {
    SelectionSkip(st, items);
  }

  lemma RunAssigns(env: Env, st: State, items: seq<Item>, budget: nat, p: Path)
    requires Selection(st, items) && items != [] && Judge(env, st, items[0].id) == Assign(p) && budget >= 2
    ensures Selection(Settle(env, st, items[0], p), items[1..])
    ensures Run(env, st, items, budget) == Run(env, Settle(env, st, items[0], p), items[1..], budget - 2)
  {
    SelectionTail(env, st, items, p);
  }

  /** Neither write of a turn destroys `good`. */
  ghost predicate TurnsKeep(env: Env, good: State -> bool) {
    forall st: State, it: Item, p: Path {:trigger Settle(env, st, it, p)} ::
      good(st) && it.id in st.rows && Unattributed(st.rows[it.id].author) && Judge(env, st, it.id) == Assign(p) ==>
        good(WriteFile(env, st, p, it.now)) && good(Settle(env, st, it, p))
  }

  /** What the turns keep, every run keeps, interrupted or not. */
  lemma {:induction false} RunKeepsWhatTurnsKeep(env: Env, good: State -> bool, st: State, items: seq<Item>,
                                                 budget: nat)
    requires TurnsKeep(env, good) && good(st) && Selection(st, items)
    ensures good(Run(env, st, items, budget))
    decreases |items|, 1
  {
    if items != [] {
      match Judge(env, st, items[0].id)
      case Bad =>
      case Assign(p) => AssignKeeps(env, good, st, items, budget, p);
      case _ => SkipKeeps(env, good, st, items, budget);
    }
  }

  lemma {:induction false} SkipKeeps(env: Env, good: State -> bool, st: State, items: seq<Item>, budget: nat)
    requires TurnsKeep(env, good) && good(st) && Selection(st, items)
    requires items != [] && Judge(env, st, items[0].id) in {Missing, Drift}
    ensures good(Run(env, st, items, budget))
    decreases |items|, 0
  {
    RunSkips(env, st, items, budget);
    RunKeepsWhatTurnsKeep(env, good, st, items[1..], budget);
  }

  lemma {:induction false} AssignKeeps(env: Env, good: State -> bool, st: State, items: seq<Item>, budget: nat, p: Path)
    requires TurnsKeep(env, good) && good(st) && Selection(st, items)
    requires items != [] && Judge(env, st, items[0].id) == Assign(p)
    ensures good(Run(env, st, items, budget))
    decreases |items|, 0
  {
    var next := Settle(env, st, items[0], p);
    assert good(WriteFile(env, st, p, items[0].now)) && good(next);
    if budget >= 2 {
      RunAssigns(env, st, items, budget, p);
      RunKeepsWhatTurnsKeep(env, good, next, items[1..], budget - 2);
    }
  }

  ghost function Keeps(env: Env, st0: State): State -> bool {
    (st: State) => Inv(env, st0, st)
  }

  lemma TurnKeeps(env: Env, st0: State, st: State, it: Item, p: Path)
    requires Sound(env) && Keeps(env, st0)(st) && it.id in st.rows && Unattributed(st.rows[it.id].author)
    requires Judge(env, st, it.id) == Assign(p)
    ensures Keeps(env, st0)(WriteFile(env, st, p, it.now)) && Keeps(env, st0)(Settle(env, st, it, p))
  {
    WriteKeeps(env, st0, st, it.id, p, it.now);
    SettleKeeps(env, st0, st, it, p);
  }

  lemma TurnsKeepInv(env: Env, st0: State)
    requires Sound(env)
    ensures TurnsKeep(env, Keeps(env, st0))
  {
    var good := Keeps(env, st0);
    forall st: State, it: Item, p: Path |
        good(st) && it.id in st.rows && Unattributed(st.rows[it.id].author) && Judge(env, st, it.id) == Assign(p)
      ensures good(WriteFile(env, st, p, it.now)) && good(Settle(env, st, it, p))
    {
      TurnKeeps(env, st0, st, it, p);
    }
  }

  /** However a run ends, interrupted or not, it keeps the invariant. */
  lemma RunKeeps(env: Env, st0: State, st: State, items: seq<Item>, budget: nat)
    requires Sound(env) && Inv(env, st0, st) && Selection(st, items)
    ensures Inv(env, st0, Run(env, st, items, budget))
  {
    TurnsKeepInv(env, st0);
    RunKeepsWhatTurnsKeep(env, Keeps(env, st0), st, items, budget);
  }

  /** One attempt: what it selected, and how many writes it made before it was interrupted. */
  datatype Attempt = Attempt(items: seq<Item>, budget: nat)

  ghost predicate ValidHistory(env: Env, st: State, attempts: seq<Attempt>)
    decreases |attempts|
  {
    attempts == [] ||
    (Selection(st, attempts[0].items) &&
     ValidHistory(env, Run(env, st, attempts[0].items, attempts[0].budget), attempts[1..]))
  }

  ghost function AfterAttempts(env: Env, st: State, attempts: seq<Attempt>): State
    requires ValidHistory(env, st, attempts)
    decreases |attempts|
  {
    if attempts == [] then st
    else AfterAttempts(env, Run(env, st, attempts[0].items, attempts[0].budget), attempts[1..])
  }

  lemma {:induction false} HistoryKeeps(env: Env, st0: State, st: State, attempts: seq<Attempt>)
    requires Sound(env) && Inv(env, st0, st) && ValidHistory(env, st, attempts)
    ensures Inv(env, st0, AfterAttempts(env, st, attempts))
    decreases |attempts|
  {
    if attempts != [] {
      RunKeeps(env, st0, st, attempts[0].items, attempts[0].budget);
      HistoryKeeps(env, st0, Run(env, st, attempts[0].items, attempts[0].budget), attempts[1..]);
    }
  }

  /** After any history of interrupted, limited or aborted runs: bodies, places and other authors are
      untouched, and every row that was attributed agrees with its file. */
  lemma AnyHistoryIsCoherent(env: Env, st0: State, attempts: seq<Attempt>)
    requires Sound(env) && ValidHistory(env, st0, attempts)
    ensures Inv(env, st0, AfterAttempts(env, st0, attempts))
  {
    HistoryKeeps(env, st0, st0, attempts);
  }

  // ---------------------------------------------------------------- a complete run

  /** The verdict on a note that still has no author in the index is the one it had at the start. */
  lemma JudgeStable(env: Env, st0: State, st: State, id: Id)
    requires Sound(env) && Inv(env, st0, st) && id in st.rows && Unattributed(st.rows[id].author)
    ensures Judge(env, st, id) == Judge(env, st0, id)
  {
    WhereSame(env, st0, st, id);
    assert RowStep(env, st0, st, id);
  }

  ghost predicate Selected(items: seq<Item>, id: Id) {
    exists i :: 0 <= i < |items| && items[i].id == id
  }

  lemma SelectedTail(items: seq<Item>, id: Id)
    requires items != []
    ensures Selected(items, id) <==> items[0].id == id || Selected(items[1..], id)
  {
    if Selected(items, id) && items[0].id != id {
      var i :| 0 <= i < |items| && items[i].id == id;
      assert items[1..][i - 1].id == id;
    }
    if Selected(items[1..], id) {
      var i :| 0 <= i < |items[1..]| && items[1..][i].id == id;
      assert items[i + 1].id == id;
    }
  }

  lemma NotSelectedTwice(st: State, items: seq<Item>)
    requires Selection(st, items) && items != []
    ensures !Selected(items[1..], items[0].id)
  {
    assert forall i :: 0 <= i < |items[1..]| ==> items[1..][i] == items[i + 1];
  }

  /** A malformed note comes before the `i`th selected one. */
  ghost predicate Hidden(env: Env, st: State, items: seq<Item>, i: nat)
    requires i <= |items| && forall j :: 0 <= j < |items| ==> items[j].id in st.rows
  {
    exists j :: 0 <= j < i && Judge(env, st, items[j].id) == Bad
  }

  lemma HiddenStep(env: Env, st: State, next: State, items: seq<Item>, i: nat)
    requires 0 < i < |items| && Selection(st, items) && Selection(next, items[1..])
    requires forall j :: 1 <= j < |items| ==>
               items[j].id in next.rows && Judge(env, next, items[j].id) == Judge(env, st, items[j].id)
    ensures Hidden(env, st, items, i) <==> Judge(env, st, items[0].id) == Bad || Hidden(env, next, items[1..], i - 1)
  {
    var rest := items[1..];
    assert forall j :: 0 <= j < |rest| ==> rest[j] == items[j + 1];
    if Hidden(env, st, items, i) && Judge(env, st, items[0].id) != Bad {
      var j :| 0 <= j < i && Judge(env, st, items[j].id) == Bad;
      assert rest[j - 1] == items[j];
    }
    if Hidden(env, next, rest, i - 1) {
      var j :| 0 <= j < i - 1 && Judge(env, next, rest[j].id) == Bad;
      assert items[j + 1] == rest[j];
    }
  }

  /** Note by note: an uninterrupted run attributes a selected note if and only if it is assignable and no
      malformed note comes before it. */
  lemma {:induction false} AttributedIff(env: Env, st: State, items: seq<Item>, budget: nat, i: nat)
    requires Sound(env) && Selection(st, items) && i < |items| && budget >= 2 * |items|
    ensures items[i].id in Run(env, st, items, budget).rows
    ensures !Unattributed(Run(env, st, items, budget).rows[items[i].id].author) <==>
            Judge(env, st, items[i].id).Assign? && !Hidden(env, st, items, i)
    decreases |items|, 1
  {
    var verdict := Judge(env, st, items[0].id);
    if verdict == Bad {
      assert Run(env, st, items, budget) == st;
    } else if verdict.Assign? {
      AttributedIfFirstAssigned(env, st, items, budget, i, verdict.path);
    } else {
      AttributedIfFirstSkipped(env, st, items, budget, i);
    }
  }

  lemma {:induction false} AttributedIfFirstSkipped(env: Env, st: State, items: seq<Item>, budget: nat, i: nat)
    requires Sound(env) && Selection(st, items) && i < |items| && budget >= 2 * |items|
    requires Judge(env, st, items[0].id) in {Missing, Drift}
    ensures items[i].id in Run(env, st, items, budget).rows
    ensures !Unattributed(Run(env, st, items, budget).rows[items[i].id].author) <==>
            Judge(env, st, items[i].id).Assign? && !Hidden(env, st, items, i)
    decreases |items|, 0
  {
    RunSkips(env, st, items, budget);
    if i == 0 {
      NotSelectedTwice(st, items);
      RunSpares(env, st, items[1..], budget, items[0].id);
    } else {
      AttributedIff(env, st, items[1..], budget, i - 1);
      HiddenStep(env, st, st, items, i);
    }
  }

  lemma {:induction false} AttributedIfFirstAssigned(env: Env, st: State, items: seq<Item>, budget: nat, i: nat,
                                                     p: Path)
    requires Sound(env) && Selection(st, items) && i < |items| && budget >= 2 * |items|
    requires Judge(env, st, items[0].id) == Assign(p)
    ensures items[i].id in Run(env, st, items, budget).rows
    ensures !Unattributed(Run(env, st, items, budget).rows[items[i].id].author) <==>
            Judge(env, st, items[i].id).Assign? && !Hidden(env, st, items, i)
    decreases |items|, 0
  {
    var next := Settle(env, st, items[0], p);
    RunAssigns(env, st, items, budget, p);
    if i == 0 {
      FirstStaysAttributed(env, st, items, budget, p);
    } else {
      forall j | 1 <= j < |items|
        ensures items[j].id in next.rows && Judge(env, next, items[j].id) == Judge(env, st, items[j].id)
      {
        SettleSpares(env, st, items[0], p, items[j].id);
      }
      AttributedIff(env, next, items[1..], budget - 2, i - 1);
      HiddenStep(env, st, next, items, i);
    }
  }

  lemma FirstStaysAttributed(env: Env, st: State, items: seq<Item>, budget: nat, p: Path)
    requires Sound(env) && Selection(st, items) && items != [] && budget >= 2
    requires Judge(env, st, items[0].id) == Assign(p)
    ensures items[0].id in Run(env, st, items, budget).rows
    ensures !Unattributed(Run(env, st, items, budget).rows[items[0].id].author)
  {
    assert !Unattributed(Settle(env, st, items[0], p).rows[items[0].id].author);
    RunAssigns(env, st, items, budget, p);
    NotSelectedTwice(st, items);
    RunSpares(env, Settle(env, st, items[0], p), items[1..], budget - 2, items[0].id);
  }

  /** The note is selected, behind a malformed one. */
  ghost predicate Behind(env: Env, st: State, items: seq<Item>, id: Id)
    requires forall j :: 0 <= j < |items| ==> items[j].id in st.rows
  {
    exists i :: 0 <= i < |items| && items[i].id == id && Hidden(env, st, items, i)
  }

  /** An uninterrupted run attributes exactly the assignable notes it selected that are not behind a
      malformed one. */
  lemma RunSettles(env: Env, st: State, items: seq<Item>, budget: nat, id: Id)
    requires Sound(env) && Selection(st, items) && budget >= 2 * |items|
    requires id in st.rows && Unattributed(st.rows[id].author)
    ensures id in Run(env, st, items, budget).rows
    ensures !Unattributed(Run(env, st, items, budget).rows[id].author) <==>
            Selected(items, id) && Judge(env, st, id).Assign? && !Behind(env, st, items, id)
  {
    if Selected(items, id) {
      var i :| 0 <= i < |items| && items[i].id == id;
      AttributedIff(env, st, items, budget, i);
      assert forall k :: 0 <= k < |items| && items[k].id == id ==> k == i;
    } else {
      RunSpares(env, st, items, budget, id);
    }
  }

  lemma InvRefl(env: Env, st: State)
    ensures Inv(env, st, st)
  {
  }

  /** A run leaves the row of a note it did not select. */
  lemma {:induction false} RunSpares(env: Env, st: State, items: seq<Item>, budget: nat, id: Id)
    requires Sound(env) && Selection(st, items) && id in st.rows && !Selected(items, id)
    ensures id in Run(env, st, items, budget).rows && Run(env, st, items, budget).rows[id] == st.rows[id]
    decreases |items|
  {
    if items != [] {
      SelectedTail(items, id);
      var verdict := Judge(env, st, items[0].id);
      if verdict == Missing || verdict == Drift {
        RunSkips(env, st, items, budget);
        RunSpares(env, st, items[1..], budget, id);
      } else if verdict.Assign? && budget >= 2 {
        SettleSpares(env, st, items[0], verdict.path, id);
        RunAssigns(env, st, items, budget, verdict.path);
        RunSpares(env, Settle(env, st, items[0], verdict.path), items[1..], budget - 2, id);
      }
    }
  }

  /** The selection of an unlimited run. */
  ghost predicate SelectsAll(st: State, items: seq<Item>) {
    && Selection(st, items)
    && forall id :: id in st.rows && Unattributed(st.rows[id].author) ==> Selected(items, id)
  }

  /** Any history followed by one complete unlimited run attributes exactly the notes that could be
      attributed at the start and are not behind a malformed one; the others are as they were. */
  lemma CompleteRunConverges(env: Env, st0: State, attempts: seq<Attempt>, items: seq<Item>, budget: nat, id: Id)
    requires Sound(env) && ValidHistory(env, st0, attempts) && id in st0.rows
    requires SelectsAll(AfterAttempts(env, st0, attempts), items) && budget >= 2 * |items|
    ensures var st := AfterAttempts(env, st0, attempts);
            var end := Run(env, st, items, budget);
            && Inv(env, st0, end)
            && (if Unattributed(st0.rows[id].author) && Judge(env, st0, id).Assign? && !Behind(env, st, items, id)
                then Coherent(env, end, id)
                else end.rows[id] == st0.rows[id])
  {
    var st := AfterAttempts(env, st0, attempts);
    AnyHistoryIsCoherent(env, st0, attempts);
    RunKeeps(env, st0, st, items, budget);
    var end := Run(env, st, items, budget);
    assert id in st.rows.Keys && id in end.rows.Keys;
    assert RowStep(env, st0, st, id) && RowStep(env, st0, end, id);
    if Unattributed(st0.rows[id].author) {
      if Unattributed(st.rows[id].author) {
        JudgeStable(env, st0, st, id);
        RunSettles(env, st, items, budget, id);
      } else {
        assert !Selected(items, id);
        RunSpares(env, st, items, budget, id);
        AttributedWasAssignable(env, st0, st, id);
      }
    }
  }

  /** A row attributed along the way belonged to an assignable note. */
  lemma AttributedWasAssignable(env: Env, st0: State, st: State, id: Id)
    requires Inv(env, st0, st) && id in st0.rows && id in st.rows
    requires Unattributed(st0.rows[id].author) && !Unattributed(st.rows[id].author)
    ensures Judge(env, st0, id).Assign? && Coherent(env, st, id)
  {
    WhereSame(env, st0, st, id);
    assert RowStep(env, st0, st, id);
    assert FileStep(env, st0.files[Where(env, st, id).value], st.files[Where(env, st, id).value]);
  }

  // ---------------------------------------------------------------- repetition and starvation

  /** No note is attributed before the first malformed one, if any. */
  ghost predicate Stuck(env: Env, st: State, items: seq<Item>)
    requires forall i :: 0 <= i < |items| ==> items[i].id in st.rows
  {
    forall i :: 0 <= i < |items| && Judge(env, st, items[i].id).Assign? ==>
      exists j :: 0 <= j < i && Judge(env, st, items[j].id) == Bad
  }

  /** A run whose writes succeed changes nothing if and only if it is stuck: a malformed note hides those
      selected after it, and a limit can select nothing but notes that are skipped every time. */
  lemma {:induction false} ChangesNothingIff(env: Env, st: State, items: seq<Item>, budget: nat)
    requires Sound(env) && Selection(st, items) && budget >= 2 * |items|
    ensures Run(env, st, items, budget) == st <==> Stuck(env, st, items)
    decreases |items|
  {
    if items != [] {
      var verdict := Judge(env, st, items[0].id);
      if verdict == Missing || verdict == Drift {
        RunSkips(env, st, items, budget);
        ChangesNothingIff(env, st, items[1..], budget);
        StuckSkip(env, st, items);
      } else if verdict.Assign? {
        FirstIsAssigned(env, st, items, budget, verdict.path);
      }
    }
  }

  lemma FirstIsAssigned(env: Env, st: State, items: seq<Item>, budget: nat, p: Path)
    requires Sound(env) && Selection(st, items) && items != [] && budget >= 2
    requires Judge(env, st, items[0].id) == Assign(p)
    ensures Run(env, st, items, budget) != st && !Stuck(env, st, items)
  {
    FirstStaysAttributed(env, st, items, budget, p);
  }

  lemma StuckSkip(env: Env, st: State, items: seq<Item>)
    requires Selection(st, items) && items != []
    requires !Judge(env, st, items[0].id).Assign? && Judge(env, st, items[0].id) != Bad
    ensures Selection(st, items[1..]) && (Stuck(env, st, items) <==> Stuck(env, st, items[1..]))
  {
    var rest := items[1..];
    SelectionSkip(st, items);
    assert forall i :: 0 <= i < |rest| ==> rest[i] == items[i + 1];
    if Stuck(env, st, items) {
      forall i | 0 <= i < |rest| && Judge(env, st, rest[i].id).Assign?
        ensures exists j :: 0 <= j < i && Judge(env, st, rest[j].id) == Bad
      {
        var j :| 0 <= j < i + 1 && Judge(env, st, items[j].id) == Bad;
        assert rest[j - 1] == items[j];
      }
    }
    if Stuck(env, st, rest) {
      forall i | 0 <= i < |items| && Judge(env, st, items[i].id).Assign?
        ensures exists j :: 0 <= j < i && Judge(env, st, items[j].id) == Bad
      {
        assert rest[i - 1] == items[i];
        var j :| 0 <= j < i - 1 && Judge(env, st, rest[j].id) == Bad;
        assert items[j + 1] == rest[j];
      }
    }
  }

  // Two vaults in which an assignable note never gets its turn.

  function ToyEnv(): Env {
    Env(Author("main-agent", "agent", None), f => "", PathsOf("main"))
  }

  function ToyRow(created: int): Row {
    Row(Place(None, "notes"), created, None, "", 0, "")
  }

  /** `A` is older than `B`; `B` has a good file without an author, `A` the given one or none. */
  function ToyVault(a: Option<File>): State {
    var b := map["main/B.md" := Note(None, None, "", "text")];
    State(if a.Some? then b["main/A.md" := a.value] else b, map["A" := ToyRow(1), "B" := ToyRow(2)])
  }

  lemma ToyPaths()
    ensures MdPathCandidates("main", Place(None, "notes"), "A") == ["main/A.md", "main/notes/A.md"]
    ensures MdPathCandidates("main", Place(None, "notes"), "B") == ["main/B.md", "main/notes/B.md"]
  {
    assert "main" + "/" + "A" + ".md" == "main/A.md" && "main" + "/" + "notes" + "/" + "A" + ".md" == "main/notes/A.md";
    assert "main" + "/" + "B" + ".md" == "main/B.md" && "main" + "/" + "notes" + "/" + "B" + ".md" == "main/notes/B.md";
  }

  lemma ToyVerdicts(a: Option<File>)
    ensures Sound(ToyEnv())
    ensures Judge(ToyEnv(), ToyVault(a), "B") == Assign("main/B.md")
    ensures a == Some(Malformed) ==> Judge(ToyEnv(), ToyVault(a), "A") == Bad
    ensures a == None ==> Judge(ToyEnv(), ToyVault(a), "A") == Missing
  {
    var env, st := ToyEnv(), ToyVault(a);
    CandidatesAreSeparate(env, "main");
    var forA, forB := env.paths(Place(None, "notes"), "A"), env.paths(Place(None, "notes"), "B");
    ToyPaths();
    assert forA == ["main/A.md", "main/notes/A.md"];
    assert forB == ["main/B.md", "main/notes/B.md"];
    assert "main/A.md"[5] == 'A' && "main/notes/A.md"[5] == 'n' && "main/B.md"[5] == 'B';
    assert FirstExisting(st.files, forB) == Some("main/B.md");
    if a == None {
      assert forA[1..] == ["main/notes/A.md"] && forA[1..][1..] == [];
      assert FirstExisting(st.files, forA[1..]) == FirstExisting(st.files, forA[1..][1..]) == None;
    }
  }

  /** A malformed note created before an assignable one ends every run before its turn. */
  lemma MalformedNoteHidesTheRest(budget: nat, now: int)
    ensures var env, st, items := ToyEnv(), ToyVault(Some(Malformed)), [Item("A", now), Item("B", now)];
            && Sound(env) && SelectsAll(st, items) && Judge(env, st, "B").Assign?
            && Run(env, st, items, budget) == st
  {
    ToyVerdicts(Some(Malformed));
    var items := [Item("A", now), Item("B", now)];
    assert items[0].id == "A" && items[1].id == "B";
    assert Selected(items, "A") && Selected(items, "B");
  }

  /** A note without a file is selected first by every run with a limit of one, and nothing ever changes. */
  lemma SkippedNoteStarvesTheLimit(budget: nat, now: int)
    ensures var env, st, items := ToyEnv(), ToyVault(None), [Item("A", now)];
            && Sound(env) && Selection(st, items) && st.rows["A"].created < st.rows["B"].created
            && Judge(env, st, "B").Assign? && Run(env, st, items, budget) == st
  {
    ToyVerdicts(None);
    StuckChangesNothing(ToyEnv(), ToyVault(None), [Item("A", now)], budget);
  }

  /** A stuck run changes nothing, however many of its writes succeed. */
  lemma {:induction false} StuckChangesNothing(env: Env, st: State, items: seq<Item>, budget: nat)
    requires Selection(st, items) && Stuck(env, st, items)
    ensures Run(env, st, items, budget) == st
    decreases |items|
  {
    if items != [] && Judge(env, st, items[0].id) != Bad {
      assert !Judge(env, st, items[0].id).Assign?;
      StuckSkip(env, st, items);
      RunSkips(env, st, items, budget);
      StuckChangesNothing(env, st, items[1..], budget);
    }
  }

  /** Oldest first. */
  ghost predicate ByCreation(st: State, items: seq<Item>) {
    && (forall i :: 0 <= i < |items| ==> items[i].id in st.rows)
    && (forall i, j :: 0 <= i < j < |items| ==> st.rows[items[i].id].created <= st.rows[items[j].id].created)
  }

  /** No assignable note was created at the very time of a malformed one. */
  ghost predicate TimesApart(env: Env, st: State) {
    forall a, b :: a in st.rows && b in st.rows && Judge(env, st, a).Assign? && Judge(env, st, b) == Bad ==>
      st.rows[a].created != st.rows[b].created
  }

  /** What an assignable note left by a complete run has before it: an older malformed one, left too. */
  lemma OlderMalformed(env: Env, st: State, items: seq<Item>, budget: nat, id: Id) returns (bad: Id)
    requires Sound(env) && SelectsAll(st, items) && ByCreation(st, items) && TimesApart(env, st)
    requires budget >= 2 * |items|
    requires var end := Run(env, st, items, budget);
             id in end.rows && Unattributed(end.rows[id].author) && Judge(env, end, id).Assign?
    ensures var end := Run(env, st, items, budget);
            && SameShape(st, end) && bad in end.rows
            && Unattributed(end.rows[bad].author) && Judge(env, end, bad) == Bad
            && end.rows[bad].created < end.rows[id].created
  {
    var end := Run(env, st, items, budget);
    InvRefl(env, st);
    RunKeeps(env, st, st, items, budget);
    assert id in st.rows.Keys && RowStep(env, st, end, id);
    JudgeStable(env, st, end, id);
    RunSettles(env, st, items, budget, id);
    assert Selected(items, id) && Behind(env, st, items, id);
    var i :| 0 <= i < |items| && items[i].id == id && Hidden(env, st, items, i);
    var j :| 0 <= j < i && Judge(env, st, items[j].id) == Bad;
    bad := items[j].id;
    RunSettles(env, st, items, budget, bad);
    assert bad in st.rows.Keys && RowStep(env, st, end, bad);
    JudgeStable(env, st, end, bad);
  }

  /** Oldest first, a second run after a complete one changes nothing, whatever its limit and wherever it is cut:
      what is left assignable stands behind a malformed note that ends the second run too. */
  lemma SecondRunChangesNothing(env: Env, st: State, items: seq<Item>, budget: nat, again: seq<Item>, limit: nat,
                                budget': nat)
    requires Sound(env) && SelectsAll(st, items) && ByCreation(st, items) && budget >= 2 * |items|
    requires TimesApart(env, st) && limit <= |again|
    requires var end := Run(env, st, items, budget); SelectsAll(end, again) && ByCreation(end, again)
    ensures Selection(Run(env, st, items, budget), again[..limit])
    ensures Run(env, Run(env, st, items, budget), again[..limit], budget') == Run(env, st, items, budget)
  {
    var end := Run(env, st, items, budget);
    forall id | id in end.rows && Unattributed(end.rows[id].author) && Judge(env, end, id).Assign?
      ensures BehindOlder(env, end, id)
    {
      var bad := OlderMalformed(env, st, items, budget, id);
    }
    OlderIsEarlier(env, end, again, limit);
    StuckChangesNothing(env, end, again[..limit], budget');
  }

  /** Some malformed note without an author is older. */
  ghost predicate BehindOlder(env: Env, st: State, id: Id)
    requires id in st.rows
  {
    exists bad :: bad in st.rows && Unattributed(st.rows[bad].author) && Judge(env, st, bad) == Bad
                  && st.rows[bad].created < st.rows[id].created
  }

  lemma OlderIsEarlier(env: Env, st: State, items: seq<Item>, limit: nat)
    requires SelectsAll(st, items) && ByCreation(st, items) && limit <= |items|
    requires forall id :: id in st.rows && Unattributed(st.rows[id].author) && Judge(env, st, id).Assign? ==>
               BehindOlder(env, st, id)
    ensures Selection(st, items[..limit]) && Stuck(env, st, items[..limit])
  {
    var part := items[..limit];
    SelectionPrefix(st, items, limit);
    forall i | 0 <= i < |part| && Judge(env, st, part[i].id).Assign?
      ensures exists j :: 0 <= j < i && Judge(env, st, part[j].id) == Bad
    {
      assert part[i] == items[i];
      var j := EarlierMalformed(env, st, items, i);
      assert part[j] == items[j];
    }
  }

  lemma SelectionPrefix(st: State, items: seq<Item>, limit: nat)
    requires Selection(st, items) && limit <= |items|
    ensures Selection(st, items[..limit])
  {
    assert forall i :: 0 <= i < limit ==> items[..limit][i] == items[i];
  }

  lemma EarlierMalformed(env: Env, st: State, items: seq<Item>, i: nat) returns (j: nat)
    requires SelectsAll(st, items) && ByCreation(st, items) && i < |items| && BehindOlder(env, st, items[i].id)
    ensures j < i && Judge(env, st, items[j].id) == Bad
  {
    var bad :| bad in st.rows && Unattributed(st.rows[bad].author) && Judge(env, st, bad) == Bad
               && st.rows[bad].created < st.rows[items[i].id].created;
    assert Selected(items, bad);
    j :| 0 <= j < |items| && items[j].id == bad;
  }

  /** With equal times the order may change, and then a second run does what the first could not. */
  lemma TiedTimesLetANoteThrough(now: int)
    ensures var env, st := ToyEnv(), TiedVault();
            var items, again := [Item("A", now), Item("B", now)], [Item("B", now), Item("A", now)];
            && Sound(env) && SelectsAll(st, items) && ByCreation(st, items)
            && Run(env, st, items, 4) == st && SelectsAll(st, again) && ByCreation(st, again)
            && Run(env, st, again, 4) != st
  {
    var env, st := ToyEnv(), TiedVault();
    TiedVerdicts();
    TiedSelection("A", "B", now);
    TiedSelection("B", "A", now);
    var again := [Item("B", now), Item("A", now)];
    assert again[0].id == "B";
    FirstIsAssigned(env, st, again, 4, "main/B.md");
  }

  lemma TiedSelection(x: Id, y: Id, now: int)
    requires {x, y} == {"A", "B"}
    ensures SelectsAll(TiedVault(), [Item(x, now), Item(y, now)])
    ensures ByCreation(TiedVault(), [Item(x, now), Item(y, now)])
  {
    var st, items := TiedVault(), [Item(x, now), Item(y, now)];
    assert x in {"A", "B"} && y in {"A", "B"} && x != y;
    forall id | id in st.rows ensures Selected(items, id) {
      assert id in {x, y};
      assert items[0].id == x && items[1].id == y;
    }
  }

  /** As `ToyVault`, with both notes created at one time. */
  function TiedVault(): State {
    ToyVault(Some(Malformed)).(rows := map["A" := ToyRow(1), "B" := ToyRow(1)])
  }

  lemma TiedVerdicts()
    ensures Sound(ToyEnv()) && Judge(ToyEnv(), TiedVault(), "A") == Bad
    ensures Judge(ToyEnv(), TiedVault(), "B") == Assign("main/B.md")
  {
    ToyVerdicts(Some(Malformed));
  }

  // ---------------------------------------------------------------- the report

  datatype Report = Report(scanned: nat, attributed: nat, drift: nat, missing: nat)

  /** The counters a preview of `items` in state `st` arrives at; none when it meets a malformed note. */
  function Preview(env: Env, st: State, items: seq<Item>, report: Report): Option<Report>
    requires forall i :: 0 <= i < |items| ==> items[i].id in st.rows
    decreases |items|
  {
    if items == [] then Some(report)
    else match Judge(env, st, items[0].id)
      case Missing => Preview(env, st, items[1..], report.(missing := report.missing + 1))
      case Drift => Preview(env, st, items[1..], report.(drift := report.drift + 1))
      case Assign(_) => Preview(env, st, items[1..], report.(attributed := report.attributed + 1))
      case Bad => None
  }

  /** Settling a note does not change what a preview says of the others. */
  lemma {:induction false} PreviewStable(env: Env, st: State, it: Item, p: Path, items: seq<Item>, report: Report)
    requires Sound(env) && it.id in st.rows && Judge(env, st, it.id) == Assign(p)
    requires forall i :: 0 <= i < |items| ==> items[i].id in st.rows && items[i].id != it.id
    ensures Preview(env, Settle(env, st, it, p), items, report) == Preview(env, st, items, report)
    decreases |items|
  {
    if items != [] {
      SettleSpares(env, st, it, p, items[0].id);
      match Judge(env, st, items[0].id) {
        case Bad =>
        case Missing => PreviewStable(env, st, it, p, items[1..], report.(missing := report.missing + 1));
        case Drift => PreviewStable(env, st, it, p, items[1..], report.(drift := report.drift + 1));
        case Assign(_) => PreviewStable(env, st, it, p, items[1..], report.(attributed := report.attributed + 1));
      }
    }
  }

  /** The counters add up to the number of notes scanned. */
  lemma {:induction false} PreviewAddsUp(env: Env, st: State, items: seq<Item>, report: Report)
    requires forall i :: 0 <= i < |items| ==> items[i].id in st.rows
    ensures var r := Preview(env, st, items, report);
            r.Some? ==> r.value.attributed + r.value.drift + r.value.missing
                        == report.attributed + report.drift + report.missing + |items|
    decreases |items|
  {
    if items != [] {
      match Judge(env, st, items[0].id) {
        case Bad =>
        case Missing => PreviewAddsUp(env, st, items[1..], report.(missing := report.missing + 1));
        case Drift => PreviewAddsUp(env, st, items[1..], report.(drift := report.drift + 1));
        case Assign(_) => PreviewAddsUp(env, st, items[1..], report.(attributed := report.attributed + 1));
      }
    }
  }

  // ---------------------------------------------------------------- one note, spelled out

  /** Where the file of a note is: in the directory of its locus, of the tenant, or of its section. */
  function FileOf(files: map<Path, File>, tenant: string, place: Place, id: Id): Option<Path> {
    var inTenant, inSection := tenant + "/" + id + ".md", tenant + "/" + place.section + "/" + id + ".md";
    if place.locus.Some? && place.locus.value != "" && tenant + "/" + place.locus.value + "/" + id + ".md" in files
    then Some(tenant + "/" + place.locus.value + "/" + id + ".md")
    else if inTenant in files then Some(inTenant)
    else if inSection in files then Some(inSection)
    else None
  }

  /** A note that may be attributed: without an author, with one that has no identifier, or with the target. */
  predicate MayBecome(f: File, target: Author) {
    && f.Note?
    && (f.author.None? || f.author.value.id == ""
        || (f.author.value.kind == target.kind && f.author.value.id == target.id))
  }

  lemma FileOfIsFirst(files: map<Path, File>, tenant: string, place: Place, id: Id)
    ensures FirstExisting(files, MdPathCandidates(tenant, place, id)) == FileOf(files, tenant, place, id)
  {
    var inTenant, inSection := tenant + "/" + id + ".md", tenant + "/" + place.section + "/" + id + ".md";
    var tail := [inTenant, inSection];
    assert tail[1..] == [inSection] && [inSection][1..] == [];
    assert FirstExisting(files, [inSection]) == if inSection in files then Some(inSection) else None;
    if place.locus.Some? && place.locus.value != [] {
      var first := tenant + "/" + place.locus.value + "/" + id + ".md";
      assert ([first] + tail)[1..] == tail;
    } else {
      assert [] + tail == tail;
    }
  }

  /** One selected note, field by field: its file gets the author and the time and keeps the rest, its row gets the
      author, the hash of the new file and the time; a note that has no file, another author or a file that does
      not parse is left as it was. */
  lemma OneNote(env: Env, st: State, tenant: string, it: Item, budget: nat)
    requires env.paths == PathsOf(tenant) && budget >= 2 && it.id in st.rows
    requires st.rows[it.id].author.None? || st.rows[it.id].author.value.id == ""
    ensures var end, row := Run(env, st, [it], budget), st.rows[it.id];
            match FileOf(st.files, tenant, row.place, it.id)
            case None => end == st
            case Some(p) =>
              var f := st.files[p];
              if !MayBecome(f, env.author) then end == st
              else
                var written := Note(Some(env.author), Some(it.now), f.rest, f.body);
                && end.files == st.files[p := written]
                && end.rows == st.rows[it.id := Row(row.place, row.created, Some(env.author), env.hash(written),
                                                    it.now, row.rest)]
  {
    FileOfIsFirst(st.files, tenant, st.rows[it.id].place, it.id);
    assert [it][1..] == [];
    var verdict := Judge(env, st, it.id);
    if verdict.Assign? {
      assert Run(env, st, [it], budget) == Settle(env, st, it, verdict.path) by {
        assert Run(env, Settle(env, st, it, verdict.path), [], budget - 2) == Settle(env, st, it, verdict.path);
      }
    } else {
      assert Run(env, st, [], budget) == st;
    }
  }
}
