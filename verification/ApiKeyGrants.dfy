/** Where grants come from: over every interleaving, a row exists only because some creation that the guard
    accepts asked for its owner, tenant and scopes, and every answer is one to the request of its call. */
module ApiKeyGrants {
  import opened Wrappers
  import opened KeyPrefix
  import opened ApiKeyTable
  import opened ApiKeyRuns

  predicate Asked(moves: seq<Move>, c: nat, r: Request) {
    Begin(c, r) in moves
  }

  predicate IsCreation(r: Request) {
    r.CreateKey? || r.AdminCreate?
  }

  /** A creation that may issue a key: not for a person, and outside the main tenant only when told so. */
  predicate Permitted(r: Request) {
    IsCreation(r) && !("person/" <= r.owner) && (r.tenant == "main" || r.allowNonMain)
  }

  predicate Grants(r: Request, k: Key) {
    Permitted(r) && k.owner == r.owner && k.scopes == r.scopes && k.tenant == r.tenant
  }

  ghost predicate Founded(moves: seq<Move>, k: Key) {
    exists c, r :: Asked(moves, c, r) && Grants(r, k)
  }

  ghost predicate AllFounded(moves: seq<Move>, t: Table) {
    forall i :: 0 <= i < |t| ==> Founded(moves, t[i])
  }

  /** A pending call still works on what it was asked. */
  ghost predicate Faithful(moves: seq<Move>, c: nat, p: Pending) {
    match p
    case Begun(r) => Asked(moves, c, r)
    case Guarded(owner, scopes, tenant, allow, _) => Asked(moves, c, AdminCreate(owner, scopes, tenant, allow))
    case RevokeChecked(prefix) => Asked(moves, c, RevokeKey(prefix))
    case RotateRead(prefix, _, _) => Asked(moves, c, RotateKey(prefix))
    case RotateReady(prefix, _, _, _) => Asked(moves, c, RotateKey(prefix))
  }

  /** What each answer says of the request behind it. */
  ghost predicate Answered(moves: seq<Move>, f: Finished) {
    match f
    case Created(c, k) => exists r :: Asked(moves, c, r) && Grants(r, k)
    case Revoked(c, k) => Asked(moves, c, RevokeKey(k.prefix))
    case Rotated(c, source, _) => Asked(moves, c, RotateKey(source.prefix))
    case Failed(c, InvalidTenant) =>
      exists r :: Asked(moves, c, r) && IsCreation(r) && r.tenant != "main" && !r.allowNonMain
    case Failed(c, ReservedOwnerNamespace) =>
      exists r :: Asked(moves, c, r) && IsCreation(r) && "person/" <= r.owner && (r.tenant == "main" || r.allowNonMain)
    case Failed(_, _) => true
  }

  ghost predicate Traced(moves: seq<Move>, s: State) {
    && AllFounded(moves, s.table)
    && (forall c :: c in s.pending ==> Faithful(moves, c, s.pending[c]))
    && (forall f :: f in s.log ==> Answered(moves, f))
  }

  // ---------------------------------------------------------------- steps

  lemma FoundedGrows(moves: seq<Move>, m: Move, k: Key)
    requires Founded(moves, k)
    ensures Founded(moves + [m], k)
  {
    var c, r :| Asked(moves, c, r) && Grants(r, k);
    assert Asked(moves + [m], c, r);
  }

  lemma AnsweredGrows(moves: seq<Move>, m: Move, f: Finished)
    requires Answered(moves, f)
    ensures Answered(moves + [m], f)
  {
    assert forall c, r :: Asked(moves, c, r) ==> Asked(moves + [m], c, r);
  }

  lemma TracedGrows(moves: seq<Move>, m: Move, s: State)
    requires Traced(moves, s)
    ensures Traced(moves + [m], s)
  {
    forall i | 0 <= i < |s.table| ensures Founded(moves + [m], s.table[i]) {
      FoundedGrows(moves, m, s.table[i]);
    }
    forall c | c in s.pending ensures Faithful(moves + [m], c, s.pending[c]) {
      assert forall r :: Asked(moves, c, r) ==> Asked(moves + [m], c, r);
    }
    forall f | f in s.log ensures Answered(moves + [m], f) {
      AnsweredGrows(moves, m, f);
    }
  }

  lemma FinishTraced(moves: seq<Move>, s: State, t: Table, f: Finished)
    requires Traced(moves, s) && AllFounded(moves, t) && Answered(moves, f)
    ensures Traced(moves, Finish(s, t, f))
  {
  }

  lemma RememberTraced(moves: seq<Move>, s: State, c: nat, p: Pending)
    requires Traced(moves, s) && Faithful(moves, c, p)
    ensures Traced(moves, s.(pending := s.pending[c := p]))
  {
  }

  lemma InsertTraced(moves: seq<Move>, s: State, c: nat, r: Request, first: Secret, second: Secret)
    requires Traced(moves, s) && Asked(moves, c, r) && IsCreation(r)
    ensures Traced(moves, StepInsert(s, c, r.owner, r.scopes, r.tenant, r.allowNonMain, first, second))
  {
    var refusal := CreateGuard(r.owner, r.tenant, r.allowNonMain);
    if refusal.Some? {
      FinishTraced(moves, s, s.table, Failed(c, refusal.value));
    } else {
      match Create(s.table, r.owner, r.scopes, r.tenant, first, second)
      case (t, Success(k)) =>
        assert Grants(r, k) && Founded(moves, k);
        FinishTraced(moves, s, t, Created(c, k));
      case (t, Failure(e)) => FinishTraced(moves, s, t, Failed(c, e));
    }
  }

  lemma RetiredFounded(moves: seq<Move>, t: Table, prefix: string, now: int)
    requires AllFounded(moves, t)
    ensures AllFounded(moves, Retire(t, prefix, now).0)
  {
    var (t', _) := Retire(t, prefix, now);
    forall i | 0 <= i < |t'| ensures Founded(moves, t'[i]) {
      var c, r :| Asked(moves, c, r) && Grants(r, t[i]);
      assert Grants(r, t'[i]);
    }
  }

  lemma RotateTraced(moves: seq<Move>, s: State, c: nat, p: Pending, secret: Secret, now: int)
    requires Traced(moves, s) && p.RotateReady? && Asked(moves, c, RotateKey(p.prefix)) && SoundPending(s.table, p)
    ensures var (t, r) := RotateCommit(s.table, p.prefix, p.owner, p.tenant, p.scopes, secret, now);
            AllFounded(moves, t) && (r.Success? ==> r.value.0.prefix == p.prefix)
  {
    var k := NewKey(p.owner, p.scopes, p.tenant, secret);
    var i := IndexOf(s.table, p.prefix);
    var q, r :| Asked(moves, q, r) && Grants(r, s.table[i]);
    assert Grants(r, k) && Founded(moves, k);
    RetiredFounded(moves, s.table + [k], p.prefix, now);
  }

  lemma StepTraced(moves: seq<Move>, s: State, c: nat, first: Secret, second: Secret, now: int)
    requires Traced(moves, s) && PendingSound(s.table, s.pending) && c in s.pending
    ensures Traced(moves, StepCall(s, c, first, second, now))
  {
    assert Faithful(moves, c, s.pending[c]);
    match s.pending[c]
    case Begun(r) =>
      if r.CreateKey? { InsertTraced(moves, s, c, r, first, second); }
    case Guarded(owner, scopes, tenant, allow, _) =>
      InsertTraced(moves, s, c, AdminCreate(owner, scopes, tenant, allow), first, second);
    case RevokeChecked(prefix) => RetiredFounded(moves, s.table, prefix, now);
    case RotateRead(_, _, _) =>
    case RotateReady(_, _, _, _) => RotateTraced(moves, s, c, s.pending[c], first, now);
  }

  // ---------------------------------------------------------------- whole runs

  lemma {:induction false} RunTraced(before: seq<Move>, s: State, moves: seq<Move>)
    requires Invariant(s) && Traced(before, s) && forall m :: m in moves ==> GeneratedSecrets(m)
    ensures Traced(before + moves, Execute(s, moves))
    decreases |moves|
  {
    if moves == [] {
      assert before + moves == before;
    } else {
      var m := moves[0];
      assert m in moves;
      TracedGrows(before, m, s);
      MoveTraced(before + [m], s, m);
      EveryRunKeepsInvariant(s, [m]);
      assert Execute(s, [m]) == Next(s, m) by { assert [m][1..] == []; }
      RunTraced(before + [m], Next(s, m), moves[1..]);
      assert before + [m] + moves[1..] == before + moves;
    }
  }

  lemma MoveTraced(moves: seq<Move>, s: State, m: Move)
    requires Invariant(s) && Traced(moves, s) && m in moves
    ensures Traced(moves, Next(s, m))
  {
    if m.Begin? {
      assert Asked(moves, m.call, m.request);
      RememberTraced(moves, s, m.call, Begun(m.request));
    } else if m.call in s.pending {
      StepTraced(moves, s, m.call, m.first, m.second, m.now);
    }
  }

  /** Over every interleaving from an empty store: no row belongs to a `person/` owner, a row outside the main
      tenant was asked for with the override, every row has the owner, scopes and tenant of such a request, and
      every answer in the log is one to the request of its own call. */
  lemma EveryGrantWasAsked(moves: seq<Move>)
    requires forall m :: m in moves ==> GeneratedSecrets(m)
    ensures var s := Execute(EMPTY, moves);
            && (forall f :: f in s.log ==> Answered(moves, f))
            && (forall i :: 0 <= i < |s.table| ==>
                  && Founded(moves, s.table[i])
                  && !("person/" <= s.table[i].owner)
                  && (s.table[i].tenant != "main" ==>
                        exists c, r :: Asked(moves, c, r) && Grants(r, s.table[i]) && r.allowNonMain))
  {
    EmptyStoreIsSound();
    RunTraced([], EMPTY, moves);
    assert [] + moves == moves;
  }

  // ---------------------------------------------------------------- one call, undisturbed

  lemma TwoSteps(s: State, m: Move)
    ensures Execute(s, [m, m]) == Next(Next(s, m), m)
  {
    assert [m, m][1..] == [m] && [m][1..] == [];
    assert Execute(Next(s, m), [m]) == Execute(Next(Next(s, m), m), []);
  }

  lemma ThreeSteps(s: State, m: Move)
    ensures Execute(s, [m, m, m]) == Next(Next(Next(s, m), m), m)
  {
    assert [m, m, m][1..] == [m, m];
    TwoSteps(Next(s, m), m);
  }

  /** A revocation that nothing disturbs: not found, already revoked, or the row stamped and nothing else. */
  lemma UndisturbedRevoke(s: State, c: nat, prefix: string, a: Secret, b: Secret, now: int)
    requires SoundTable(s.table) && c in s.pending && s.pending[c] == Begun(RevokeKey(prefix))
    ensures var m := Advance(c, a, b, now);
            var r := Execute(s, [m, m]);
            c !in r.pending &&
            match Find(s.table, prefix)
            case None => r.table == s.table && r.log == s.log + [Failed(c, NotFound)]
            case Some(k) =>
              if k.revokedAt.Some? then r.table == s.table && r.log == s.log + [Failed(c, AlreadyRevoked)]
              else
                && r.log == s.log + [Revoked(c, k)]
                && (forall p :: Find(r.table, p) ==
                      if p == prefix then Some(k.(revokedAt := Some(now))) else Find(s.table, p))
  {
    TwoSteps(s, Advance(c, a, b, now));
    RetireFacts(s.table, prefix, now);
  }

  /** A rotation that nothing disturbs: the old row stamped and a new one with its grant and the new secret, or an
      error and no change. */
  lemma UndisturbedRotate(s: State, c: nat, prefix: string, a: Secret, b: Secret, now: int)
    requires SoundTable(s.table) && c in s.pending && s.pending[c] == Begun(RotateKey(prefix)) && IsGenerated(a.text)
    ensures var m := Advance(c, a, b, now);
            var r := Execute(s, [m, m, m]);
            c !in r.pending &&
            match Find(s.table, prefix)
            case None => r.table == s.table && r.log == s.log + [Failed(c, NotFound)]
            case Some(k) =>
              if k.revokedAt.Some? then r.table == s.table && r.log == s.log + [Failed(c, AlreadyRevoked)]
              else if Find(s.table, PrefixOf(a.text)).Some? then r.table == s.table && r.log == s.log + [Failed(c, Sql)]
              else
                var minted := Key(PrefixOf(a.text), SecretHash(a.salt, a.text), k.owner, k.scopes, k.tenant, None);
                && r.log == s.log + [Rotated(c, k, minted)]
                && Find(r.table, prefix) == Some(k.(revokedAt := Some(now)))
                && Find(r.table, PrefixOf(a.text)) == Some(minted)
  {
    var m := Advance(c, a, b, now);
    ThreeSteps(s, m);
    if Find(s.table, prefix).Some? && Find(s.table, prefix).value.Active() {
      var k := Find(s.table, prefix).value;
      var ready := s.(pending := s.pending[c := RotateReady(prefix, k.owner, k.tenant, k.scopes)]);
      assert Next(Next(s, m), m) == ready;
      RotateFacts(s.table, prefix, k.owner, k.tenant, k.scopes, a, now);
      CommitSucceeds(s.table, prefix, a, now);
    }
  }

  lemma CommitSucceeds(t: Table, prefix: string, secret: Secret, now: int)
    requires SoundTable(t) && IsGenerated(secret.text) && Find(t, prefix).Some? && Find(t, prefix).value.Active()
    ensures var k := Find(t, prefix).value;
            var minted := NewKey(k.owner, k.scopes, k.tenant, secret);
            RotateCommit(t, prefix, k.owner, k.tenant, k.scopes, secret, now).1
            == if Find(t, PrefixOf(secret.text)).Some? then Failure(Sql) else Success((k, minted))
  {
    var k := Find(t, prefix).value;
    var minted := NewKey(k.owner, k.scopes, k.tenant, secret);
    if Find(t, minted.prefix).None? {
      InsertFacts(t, minted);
      RetireFacts(t + [minted], prefix, now);
    }
  }
}
