/** The one-active-key rule under every interleaving: its guard is read in one step, the key inserted in another. */
module ApiKeyRaces {
  import opened Wrappers
  import opened KeyPrefix
  import opened ApiKeyTable
  import opened ApiKeyRuns
  import opened ApiKeyCli

  /** The move inserts a key whose owner already has an active one. */
  predicate Collides(s: State, m: Move) {
    var log := Next(s, m).log;
    |log| > |s.log| && log[|s.log|].Created? && OwnerHasActive(s.table, log[|s.log|].key.owner)
  }

  ghost predicate NeverCollides(s: State, moves: seq<Move>)
    decreases |moves|
  {
    moves == [] || (!Collides(s, moves[0]) && NeverCollides(Next(s, moves[0]), moves[1..]))
  }

  /** The rule holds in every state of the run. */
  ghost predicate RuleKept(s: State, moves: seq<Move>)
    decreases |moves|
  {
    OneActivePerOwner(s.table) && (moves == [] || RuleKept(Next(s, moves[0]), moves[1..]))
  }

  // ---------------------------------------------------------------- one move

  lemma InsertKeepsRuleIff(t: Table, k: Key)
    requires OneActivePerOwner(t) && k.Active()
    ensures OneActivePerOwner(t + [k]) <==> !OwnerHasActive(t, k.owner)
  {
    var t' := t + [k];
    assert t'[|t|] == k && forall i :: 0 <= i < |t| ==> t'[i] == t[i];
    if OwnerHasActive(t, k.owner) {
      var i :| 0 <= i < |t| && t[i].Active() && t[i].owner == k.owner;
      assert t'[i].owner == t'[|t|].owner;
    }
  }

  /** What a creating step does: it fails and leaves the table, or inserts one active key of its owner. */
  lemma InsertStep(s: State, c: nat, owner: string, scopes: seq<string>, tenant: string, allowNonMain: bool,
                   first: Secret, second: Secret) returns (f: Finished)
    ensures var n := StepInsert(s, c, owner, scopes, tenant, allowNonMain, first, second);
            && n.log == s.log + [f] && n.pending == s.pending - {c}
            && (f.Failed? || f.Created?) && (f.Failed? ==> n.table == s.table)
            && (f.Created? ==> n.table == s.table + [f.key] && f.key.Active() && f.key.owner == owner)
  {
    var n := StepInsert(s, c, owner, scopes, tenant, allowNonMain, first, second);
    f := n.log[|s.log|];
  }

  lemma CreateMoveIff(s: State, m: Move)
    requires OneActivePerOwner(s.table) && m.Advance? && m.call in s.pending && Creates(s.pending[m.call])
    ensures OneActivePerOwner(Next(s, m).table) <==> !Collides(s, m)
  {
    var f;
    match s.pending[m.call]
    case Guarded(owner, scopes, tenant, allowNonMain, _) =>
      f := InsertStep(s, m.call, owner, scopes, tenant, allowNonMain, m.first, m.second);
      if f.Created? { InsertKeepsRuleIff(s.table, f.key); }
    case Begun(r) =>
      f := InsertStep(s, m.call, r.owner, r.scopes, r.tenant, r.allowNonMain, m.first, m.second);
      if f.Created? { InsertKeepsRuleIff(s.table, f.key); }
  }

  lemma RevokeMoveKeeps(s: State, m: Move)
    requires Invariant(s) && OneActivePerOwner(s.table)
    requires m.Advance? && m.call in s.pending && s.pending[m.call].RevokeChecked?
    ensures OneActivePerOwner(Next(s, m).table) && !Collides(s, m)
  {
    RetireKeepsR1(s.table, s.pending[m.call].prefix, m.now);
  }

  lemma RotateMoveKeeps(s: State, m: Move)
    requires Invariant(s) && OneActivePerOwner(s.table) && GeneratedSecrets(m)
    requires m.Advance? && m.call in s.pending && s.pending[m.call].RotateReady?
    ensures OneActivePerOwner(Next(s, m).table) && !Collides(s, m)
  {
    assert SoundPending(s.table, s.pending[m.call]);
    RotateKeepsR1(s.table, s.pending[m.call].prefix, m.first, m.now);
  }

  lemma ReadMoveKeeps(s: State, m: Move)
    requires m.Advance? && m.call in s.pending ==>
               s.pending[m.call].RotateRead? || (s.pending[m.call].Begun? && !s.pending[m.call].request.CreateKey?)
    ensures Next(s, m).table == s.table && !Collides(s, m)
  {
  }

  /** Every other step keeps the rule. */
  lemma OtherMoveKeeps(s: State, m: Move)
    requires Invariant(s) && OneActivePerOwner(s.table) && GeneratedSecrets(m)
    requires m.Advance? ==> m.call !in s.pending || !Creates(s.pending[m.call])
    ensures OneActivePerOwner(Next(s, m).table) && !Collides(s, m)
  {
    if m.Advance? && m.call in s.pending && s.pending[m.call].RevokeChecked? {
      RevokeMoveKeeps(s, m);
    } else if m.Advance? && m.call in s.pending && s.pending[m.call].RotateReady? {
      RotateMoveKeeps(s, m);
    } else {
      ReadMoveKeeps(s, m);
    }
  }

  lemma MoveKeepsRuleIff(s: State, m: Move)
    requires Invariant(s) && OneActivePerOwner(s.table) && GeneratedSecrets(m)
    ensures OneActivePerOwner(Next(s, m).table) <==> !Collides(s, m)
  {
    if m.Advance? && m.call in s.pending && Creates(s.pending[m.call]) {
      CreateMoveIff(s, m);
    } else {
      OtherMoveKeeps(s, m);
    }
  }

  lemma MoveKeepsInvariant(s: State, m: Move)
    requires Invariant(s) && GeneratedSecrets(m)
    ensures Invariant(Next(s, m))
  {
    if m.Advance? && m.call in s.pending {
      StepKeeps(s, m.call, m.first, m.second, m.now);
    }
  }

  // ---------------------------------------------------------------- whole runs

  /** Under every interleaving, the rule holds throughout if and only if no insert finds an active key of its
      owner. */
  lemma {:induction false} RuleKeptIff(s: State, moves: seq<Move>)
    requires Invariant(s) && OneActivePerOwner(s.table) && forall m :: m in moves ==> GeneratedSecrets(m)
    ensures RuleKept(s, moves) <==> NeverCollides(s, moves)
    decreases |moves|
  {
    if moves != [] {
      assert moves[0] in moves;
      MoveKeepsInvariant(s, moves[0]);
      MoveKeepsRuleIff(s, moves[0]);
      if !Collides(s, moves[0]) {
        RuleKeptIff(Next(s, moves[0]), moves[1..]);
      }
    }
  }

  // ---------------------------------------------------------------- what a collision takes

  /** A key of this owner was created since the log had `since` entries. */
  ghost predicate CreatedSince(log: seq<Finished>, since: nat, owner: string) {
    exists i :: since <= i < |log| && log[i].Created? && log[i].key.owner == owner
  }

  /** A guarded call whose owner has an active key by now has seen another creation of that owner finish. */
  ghost predicate Window(s: State, p: Pending) {
    p.Guarded? ==> p.since <= |s.log| && (OwnerHasActive(s.table, p.owner) ==> CreatedSince(s.log, p.since, p.owner))
  }

  ghost predicate Windows(s: State) {
    forall c :: c in s.pending ==> Window(s, s.pending[c])
  }

  /** A move gives an owner its first active key only by creating one. */
  lemma ActiveByCreation(s: State, m: Move, owner: string)
    requires Invariant(s) && GeneratedSecrets(m) && OwnerHasActive(Next(s, m).table, owner)
    ensures OwnerHasActive(s.table, owner) || CreatedSince(Next(s, m).log, |s.log|, owner)
  {
    if m.Advance? && m.call in s.pending {
      match s.pending[m.call]
      case Guarded(o, scopes, tenant, allowNonMain, _) =>
        var f := InsertStep(s, m.call, o, scopes, tenant, allowNonMain, m.first, m.second);
        assert Next(s, m).log[|s.log|] == f;
        InsertActive(s.table, f, owner, Next(s, m).table);
      case Begun(CreateKey(o, scopes, tenant, allowNonMain)) =>
        var f := InsertStep(s, m.call, o, scopes, tenant, allowNonMain, m.first, m.second);
        assert Next(s, m).log[|s.log|] == f;
        InsertActive(s.table, f, owner, Next(s, m).table);
      case RevokeChecked(prefix) => RetireActive(s.table, prefix, m.now, owner);
      case RotateReady(prefix, o, tenant, scopes) =>
        assert SoundPending(s.table, s.pending[m.call]);
        RotateActive(s.table, prefix, o, tenant, scopes, m.first, m.now, owner);
      case _ =>
    }
  }

  lemma InsertActive(t: Table, f: Finished, owner: string, t': Table)
    requires OwnerHasActive(t', owner) && (f.Failed? || f.Created?)
    requires t' == if f.Created? then t + [f.key] else t
    ensures OwnerHasActive(t, owner) || (f.Created? && f.key.owner == owner)
  {
    var i :| 0 <= i < |t'| && t'[i].Active() && t'[i].owner == owner;
    if i < |t| {
      assert t[i] == t'[i];
    }
  }

  lemma RetireActive(t: Table, prefix: string, now: int, owner: string)
    requires OwnerHasActive(Retire(t, prefix, now).0, owner)
    ensures OwnerHasActive(t, owner)
  {
    var t' := Retire(t, prefix, now).0;
    var i :| 0 <= i < |t'| && t'[i].Active() && t'[i].owner == owner;
    assert t[i].Active() && t[i].owner == owner;
  }

  lemma RotateActive(t: Table, prefix: string, o: string, tenant: string, scopes: seq<string>, secret: Secret,
                     now: int, owner: string)
    requires SoundTable(t) && IsGenerated(secret.text) && SoundPending(t, RotateReady(prefix, o, tenant, scopes))
    requires OwnerHasActive(RotateCommit(t, prefix, o, tenant, scopes, secret, now).0, owner)
    ensures OwnerHasActive(t, owner)
  {
    var r := RotateCommit(t, prefix, o, tenant, scopes, secret, now);
    if r.1.Success? {
      var k := NewKey(o, scopes, tenant, secret);
      FindAfterInsert(t, k, prefix);
      RetireActive(t + [k], prefix, now, owner);
      var i := IndexOf(t, prefix);
      assert t[i].Active() && t[i].owner == o;
      if owner != o {
        var j :| 0 <= j < |t + [k]| && (t + [k])[j].Active() && (t + [k])[j].owner == owner;
        assert t[j] == (t + [k])[j];
      }
    }
  }

  lemma LaterWindow(s: State, m: Move, p: Pending)
    requires Invariant(s) && GeneratedSecrets(m) && Window(s, p)
    ensures Window(Next(s, m), p)
  {
    MoveGrows(s, m);
    var n := Next(s, m);
    if p.Guarded? && OwnerHasActive(n.table, p.owner) {
      ActiveByCreation(s, m, p.owner);
      if OwnerHasActive(s.table, p.owner) {
        var i :| p.since <= i < |s.log| && s.log[i].Created? && s.log[i].key.owner == p.owner;
        assert n.log[i] == s.log[i];
      }
    }
  }

  /** What a move does to the pending calls: one may go, come or move on; a new guard saw no active key. */
  lemma MovePending(s: State, m: Move, c: nat)
    requires c in Next(s, m).pending && Next(s, m).pending[c].Guarded?
    ensures (c in s.pending && s.pending[c] == Next(s, m).pending[c])
            || (Next(s, m).table == s.table && Next(s, m).log == s.log && Next(s, m).pending[c].since == |s.log|
                && !OwnerHasActive(s.table, Next(s, m).pending[c].owner))
  {
    if m.Advance? && m.call in s.pending {
      StepPending(s, m.call, m.first, m.second, m.now, c);
    }
  }

  lemma StepPending(s: State, call: nat, first: Secret, second: Secret, now: int, c: nat)
    requires call in s.pending
    requires var r := StepCall(s, call, first, second, now); c in r.pending && r.pending[c].Guarded?
    ensures var r := StepCall(s, call, first, second, now);
            if c != call then c in s.pending && s.pending[c] == r.pending[c]
            else r.table == s.table && r.log == s.log && r.pending[c].since == |s.log|
                 && !OwnerHasActive(s.table, r.pending[c].owner)
  {
  }

  lemma WindowsKept(s: State, m: Move)
    requires Invariant(s) && GeneratedSecrets(m) && Windows(s)
    ensures Windows(Next(s, m))
  {
    forall c | c in Next(s, m).pending ensures Window(Next(s, m), Next(s, m).pending[c]) {
      if Next(s, m).pending[c].Guarded? {
        MovePending(s, m, c);
        if c in s.pending && s.pending[c] == Next(s, m).pending[c] {
          LaterWindow(s, m, s.pending[c]);
        }
      }
    }
  }

  /** The insert of a guarded call with no creation of its owner since its guard. */
  ghost predicate Undisturbed(s: State, m: Move) {
    m.Advance? && m.call in s.pending && Creates(s.pending[m.call]) ==>
      s.pending[m.call].Guarded? && !CreatedSince(s.log, s.pending[m.call].since, s.pending[m.call].owner)
  }

  ghost predicate AllUndisturbed(s: State, moves: seq<Move>)
    decreases |moves|
  {
    moves == [] || (Undisturbed(s, moves[0]) && AllUndisturbed(Next(s, moves[0]), moves[1..]))
  }

  lemma UndisturbedDoesNotCollide(s: State, m: Move)
    requires Invariant(s) && Windows(s) && GeneratedSecrets(m) && OneActivePerOwner(s.table) && Undisturbed(s, m)
    ensures !Collides(s, m)
  {
    if m.Advance? && m.call in s.pending && Creates(s.pending[m.call]) {
      var p := s.pending[m.call];
      assert Window(s, p);
      var f := InsertStep(s, m.call, p.owner, p.scopes, p.tenant, p.allowNonMain, m.first, m.second);
    } else {
      OtherMoveKeeps(s, m);
    }
  }

  /** When every creation is guarded, and none of the same owner finishes between a guard and its insert, every
      interleaving keeps the rule throughout. */
  lemma {:induction false} UndisturbedRunsKeepTheRule(s: State, moves: seq<Move>)
    requires Invariant(s) && Windows(s) && OneActivePerOwner(s.table) && AllUndisturbed(s, moves)
    requires forall m :: m in moves ==> GeneratedSecrets(m)
    ensures RuleKept(s, moves)
    decreases |moves|
  {
    if moves != [] {
      assert moves[0] in moves;
      UndisturbedDoesNotCollide(s, moves[0]);
      MoveKeepsRuleIff(s, moves[0]);
      MoveKeepsInvariant(s, moves[0]);
      WindowsKept(s, moves[0]);
      UndisturbedRunsKeepTheRule(Next(s, moves[0]), moves[1..]);
    }
  }

  // ---------------------------------------------------------------- the race

  function ToySecret(digit: char): Secret {
    Secret(KEY_PREFIX + seq(64, i => digit), 0)
  }

  lemma ToySecretGenerated(digit: char)
    requires IsHex(digit)
    ensures IsGenerated(ToySecret(digit).text) && |PrefixOf(ToySecret(digit).text)| == 11
    ensures PrefixOf(ToySecret(digit).text)[3] == digit
  {
    GeneratedPrefix(ToySecret(digit).text);
  }

  const TOY_REQUEST := AdminCreate("agent", [], "main", false)

  /** Two creations begin, both guards read, then both insert. */
  function RaceMoves(): seq<Move> {
    var a, b := ToySecret('a'), ToySecret('b');
    [Begin(0, TOY_REQUEST), Begin(1, TOY_REQUEST),
     Advance(0, a, a, 0), Advance(1, a, a, 0), Advance(0, a, a, 0), Advance(1, b, b, 0)]
  }

  ghost function ToyKey(digit: char): Key {
    NewKey("agent", [], "main", ToySecret(digit))
  }

  lemma RaceInserts()
    ensures Create([], "agent", [], "main", ToySecret('a'), ToySecret('a')) == ([ToyKey('a')], Success(ToyKey('a')))
    ensures Create([ToyKey('a')], "agent", [], "main", ToySecret('b'), ToySecret('b'))
            == ([ToyKey('a'), ToyKey('b')], Success(ToyKey('b')))
    ensures CreateGuard("agent", "main", false).None?
  {
    ToySecretGenerated('a');
    ToySecretGenerated('b');
    assert CreateGuard("agent", "main", false).None? by {
      assert RESERVED_NAMESPACE[0] == 'p' && "agent"[0] == 'a';
    }
    assert Find([], PrefixOf(ToySecret('a').text)).None?;
    assert [] + [ToyKey('a')] == [ToyKey('a')];
    assert Find([ToyKey('a')], PrefixOf(ToySecret('b').text)).None?;
    assert [ToyKey('a')] + [ToyKey('b')] == [ToyKey('a'), ToyKey('b')];
  }

  /** The state when both guards have read the empty table. */
  function BothGuarded(): State {
    var g := Guarded("agent", [], "main", false, 0);
    State([], map[0 := g, 1 := g], [])
  }

  lemma ReachesBothGuarded()
    ensures var m := RaceMoves(); Next(Next(Next(Next(EMPTY, m[0]), m[1]), m[2]), m[3]) == BothGuarded()
  {
    var m := RaceMoves();
    var s2 := Next(Next(EMPTY, m[0]), m[1]);
    assert s2 == State([], map[0 := Begun(TOY_REQUEST), 1 := Begun(TOY_REQUEST)], []);
    assert !OwnerHasActive([], "agent");
  }

  lemma {:induction false} KeptAtEnd(s: State, moves: seq<Move>)
    requires RuleKept(s, moves)
    ensures OneActivePerOwner(Execute(s, moves).table)
    decreases |moves|
  {
    if moves != [] {
      KeptAtEnd(Next(s, moves[0]), moves[1..]);
    }
  }

  lemma ExecuteTwo(s: State, a: Move, b: Move)
    ensures Execute(s, [a, b]) == Next(Next(s, a), b)
  {
    assert [a, b][1..] == [b] && [b][1..] == [];
    assert Execute(Next(s, a), [b]) == Execute(Next(Next(s, a), b), []);
  }

  lemma ExecuteRace()
    ensures Execute(EMPTY, RaceMoves()) == Execute(BothGuarded(), RaceMoves()[4..])
  {
    var m := RaceMoves();
    ReachesBothGuarded();
    var s1 := Next(EMPTY, m[0]);
    var s2 := Next(s1, m[1]);
    var s3 := Next(s2, m[2]);
    assert m[1..][1..] == m[2..] && m[2..][1..] == m[3..] && m[3..][1..] == m[4..];
    assert Execute(EMPTY, m) == Execute(s1, m[1..]);
    assert Execute(s1, m[1..]) == Execute(s2, m[2..]);
    assert Execute(s2, m[2..]) == Execute(s3, m[3..]);
    assert Execute(s3, m[3..]) == Execute(Next(s3, m[3]), m[4..]);
  }

  /** Two guarded creations that race leave two active keys of one owner. */
  lemma RacingCreatesBreakTheRule()
    ensures Execute(EMPTY, RaceMoves()).table == [ToyKey('a'), ToyKey('b')]
    ensures !RuleKept(EMPTY, RaceMoves())
  {
    var m, s := RaceMoves(), BothGuarded();
    ExecuteRace();
    assert m[4..] == [m[4], m[5]];
    ExecuteTwo(s, m[4], m[5]);
    RaceInserts();
    assert Next(s, m[4]).table == [ToyKey('a')];
    var t := Next(Next(s, m[4]), m[5]).table;
    assert t == [ToyKey('a'), ToyKey('b')];
    assert t[0].Active() && t[1].Active() && t[0].owner == t[1].owner;
    if RuleKept(EMPTY, m) {
      KeptAtEnd(EMPTY, m);
    }
  }
}
