/** Every interleaving of the separately locked steps of create, revoke and rotate over one table.
    The log records, in order, what each finished call returned. */
module ApiKeyRuns {
  import opened Wrappers
  import opened KeyPrefix
  import opened ApiKeyTable

  /** Calls on the store, and the guarded creation of `api-key create` and of the bootstrap mint. */
  datatype Request =
    | AdminCreate(owner: string, scopes: seq<string>, tenant: string, allowNonMain: bool)
    | CreateKey(owner: string, scopes: seq<string>, tenant: string, allowNonMain: bool)
    | RevokeKey(prefix: string)
    | RotateKey(prefix: string)

  /** Where a pending call stands between two of its locked steps. */
  datatype Pending =
    | Begun(request: Request)
    | Guarded(owner: string, scopes: seq<string>, tenant: string, allowNonMain: bool, since: nat)
    | RevokeChecked(prefix: string)
    | RotateRead(prefix: string, owner: string, tenant: string)
    | RotateReady(prefix: string, owner: string, tenant: string, scopes: seq<string>)

  /** A finished call: the keys it issued or retired, or the error it returned. */
  datatype Finished =
    | Created(call: nat, key: Key)
    | Revoked(call: nat, key: Key)
    | Rotated(call: nat, source: Key, key: Key)
    | Failed(call: nat, error: Error)

  datatype State = State(table: Table, pending: map<nat, Pending>, log: seq<Finished>)

  /** The scheduler's moves.  A step is given the secrets the generator would return and the clock. */
  datatype Move =
    | Begin(call: nat, request: Request)
    | Advance(call: nat, first: Secret, second: Secret, now: int)

  predicate GeneratedSecrets(m: Move) {
    m.Advance? ==> IsGenerated(m.first.text) && IsGenerated(m.second.text)
  }

  function Finish(s: State, table: Table, f: Finished): State {
    State(table, s.pending - {f.call}, s.log + [f])
  }

  /** The locked insert of a creation. */
  function StepInsert(s: State, c: nat, owner: string, scopes: seq<string>, tenant: string, allowNonMain: bool,
                      first: Secret, second: Secret): State {
    var refusal := CreateGuard(owner, tenant, allowNonMain);
    if refusal.Some? then Finish(s, s.table, Failed(c, refusal.value))
    else match Create(s.table, owner, scopes, tenant, first, second)
      case (t, Success(k)) => Finish(s, t, Created(c, k))
      case (t, Failure(e)) => Finish(s, t, Failed(c, e))
  }

  /** One locked step of the pending call `c`. A guard remembers how long the log was when it read. */
  function StepCall(s: State, c: nat, first: Secret, second: Secret, now: int): State
    requires c in s.pending
  {
    match s.pending[c]
    case Begun(AdminCreate(owner, scopes, tenant, allowNonMain)) =>
      if OwnerHasActive(s.table, owner) then Finish(s, s.table, Failed(c, SecondActiveKey))
      else s.(pending := s.pending[c := Guarded(owner, scopes, tenant, allowNonMain, |s.log|)])
    case Guarded(owner, scopes, tenant, allowNonMain, _) =>
      StepInsert(s, c, owner, scopes, tenant, allowNonMain, first, second)
    case Begun(CreateKey(owner, scopes, tenant, allowNonMain)) =>
      StepInsert(s, c, owner, scopes, tenant, allowNonMain, first, second)
    case Begun(RevokeKey(prefix)) =>
      (match RevokeCheck(s.table, prefix)
       case Some(e) => Finish(s, s.table, Failed(c, e))
       case None => s.(pending := s.pending[c := RevokeChecked(prefix)]))
    case RevokeChecked(prefix) =>
      (match Retire(s.table, prefix, now)
       case (t, Some(k)) => Finish(s, t, Revoked(c, k))
       case (t, None) => Finish(s, t, Failed(c, AlreadyRevoked)))
    case Begun(RotateKey(prefix)) =>
      (match Find(s.table, prefix)
       case None => Finish(s, s.table, Failed(c, NotFound))
       case Some(k) =>
         if k.Active() then s.(pending := s.pending[c := RotateRead(prefix, k.owner, k.tenant)])
         else Finish(s, s.table, Failed(c, AlreadyRevoked)))
    case RotateRead(prefix, owner, tenant) =>
      (match Find(s.table, prefix)
       case None => Finish(s, s.table, Failed(c, NotFound))
       case Some(k) => s.(pending := s.pending[c := RotateReady(prefix, owner, tenant, k.scopes)]))
    case RotateReady(prefix, owner, tenant, scopes) =>
      (match RotateCommit(s.table, prefix, owner, tenant, scopes, first, now)
       case (t, Success((source, k))) => Finish(s, t, Rotated(c, source, k))
       case (t, Failure(e)) => Finish(s, t, Failed(c, e)))
  }

  function Next(s: State, m: Move): State {
    match m
    case Begin(c, request) => if c in s.pending then s else s.(pending := s.pending[c := Begun(request)])
    case Advance(c, first, second, now) => if c in s.pending then StepCall(s, c, first, second, now) else s
  }

  function Execute(s: State, moves: seq<Move>): State
    decreases |moves|
  {
    if moves == [] then s else Execute(Next(s, moves[0]), moves[1..])
  }

  const EMPTY := State([], map[], [])

  // ---------------------------------------------------------------- what the log says

  function IssuedBy(f: Finished): seq<string> {
    if f.Created? || f.Rotated? then [f.key.hash.ofSecret] else []
  }

  /** Secrets handed out, in order. */
  function Issued(log: seq<Finished>): seq<string> {
    if log == [] then [] else Issued(log[..|log| - 1]) + IssuedBy(log[|log| - 1])
  }

  function RetiredBy(f: Finished): seq<string> {
    match f
    case Revoked(_, k) => [k.prefix]
    case Rotated(_, source, _) => [source.prefix]
    case _ => []
  }

  /** Prefixes retired by a call that returned Ok, in order. */
  function Retired(log: seq<Finished>): seq<string> {
    if log == [] then [] else Retired(log[..|log| - 1]) + RetiredBy(log[|log| - 1])
  }

  predicate SameGrant(a: Key, b: Key) {
    a.owner == b.owner && a.tenant == b.tenant && a.scopes == b.scopes
  }

  predicate SameKey(a: Key, b: Key) {
    a.prefix == b.prefix && a.hash == b.hash && SameGrant(a, b)
  }

  function Secrets(t: Table): seq<string> {
    seq(|t|, i requires 0 <= i < |t| => t[i].hash.ofSecret)
  }

  /** Active keys with the same owner, tenant and scopes as `k`. */
  function ActiveCount(t: Table, k: Key): nat {
    if t == [] then 0
    else ActiveCount(t[..|t| - 1], k) + (if t[|t| - 1].Active() && SameGrant(t[|t| - 1], k) then 1 else 0)
  }

  function NetOf(f: Finished, k: Key): int {
    match f
    case Created(_, key) => if SameGrant(key, k) then 1 else 0
    case Revoked(_, key) => if SameGrant(key, k) then -1 else 0
    case _ => 0
  }

  /** Creations minus revocations of that grant; rotations do not count. */
  function NetCount(log: seq<Finished>, k: Key): int {
    if log == [] then 0 else NetCount(log[..|log| - 1], k) + NetOf(log[|log| - 1], k)
  }

  ghost predicate NoDuplicates(s: seq<string>) {
    forall i, j :: 0 <= i < j < |s| ==> s[i] != s[j]
  }

  // ---------------------------------------------------------------- invariant

  ghost predicate SoundTable(t: Table) {
    && UniquePrefixes(t)
    && forall i :: 0 <= i < |t| ==> IsGenerated(t[i].hash.ofSecret) && t[i].prefix == PrefixOf(t[i].hash.ofSecret)
  }

  /** What a pending call remembers still describes its row. */
  ghost predicate SoundPending(t: Table, p: Pending) {
    match p
    case Begun(_) => true
    case Guarded(_, _, _, _, _) => true
    case RevokeChecked(prefix) => Find(t, prefix).Some?
    case RotateRead(prefix, owner, tenant) =>
      Find(t, prefix).Some? && Find(t, prefix).value.owner == owner && Find(t, prefix).value.tenant == tenant
    case RotateReady(prefix, owner, tenant, scopes) =>
      && Find(t, prefix).Some? && Find(t, prefix).value.owner == owner && Find(t, prefix).value.tenant == tenant
      && Find(t, prefix).value.scopes == scopes
  }

  ghost predicate PendingSound(t: Table, pending: map<nat, Pending>) {
    forall c :: c in pending ==> SoundPending(t, pending[c])
  }

  predicate IsRetired(t: Table, p: string) {
    Find(t, p).Some? && !Find(t, p).value.Active()
  }

  /** Each revoked row was retired by exactly one successful call. */
  ghost predicate RetiredOnce(t: Table, log: seq<Finished>) {
    NoDuplicates(Retired(log)) && forall p :: p in Retired(log) <==> IsRetired(t, p)
  }

  ghost predicate CountsAgree(t: Table, log: seq<Finished>) {
    forall k :: ActiveCount(t, k) == NetCount(log, k)
  }

  ghost predicate EntriesSound(t: Table, log: seq<Finished>) {
    forall f :: f in log ==> SoundEntry(t, f)
  }

  ghost predicate Invariant(s: State) {
    && SoundTable(s.table)
    && PendingSound(s.table, s.pending)
    && Issued(s.log) == Secrets(s.table)
    && RetiredOnce(s.table, s.log)
    && CountsAgree(s.table, s.log)
    && EntriesSound(s.table, s.log)
  }

  /** An issued key is still in the table with its hash and grant, and a rotation kept the grant. */
  ghost predicate SoundEntry(t: Table, f: Finished) {
    && (f.Created? || f.Rotated? ==> Find(t, f.key.prefix).Some? && SameKey(f.key, Find(t, f.key.prefix).value))
    && (f.Rotated? ==> SameGrant(f.source, f.key))
  }

  /** Rows only grow in number, and a row only ever changes by being revoked once. */
  ghost predicate Grows(t: Table, t': Table) {
    && |t| <= |t'|
    && forall i :: 0 <= i < |t| ==> t'[i] == t[i] || (t[i].Active() && t'[i] == t[i].(revokedAt := t'[i].revokedAt))
  }

  // ---------------------------------------------------------------- table facts

  lemma SamePrefixesSameIndex(t: Table, t': Table, p: string)
    requires |t| == |t'| && forall i :: 0 <= i < |t| ==> t[i].prefix == t'[i].prefix
    ensures IndexOf(t, p) == IndexOf(t', p)
  {
    var i, j := IndexOf(t, p), IndexOf(t', p);
    assert i < |t| ==> t[i].prefix == t'[i].prefix;
    assert j < |t| ==> t[j].prefix == t'[j].prefix;
  }

  lemma FindAfterInsert(t: Table, k: Key, p: string)
    requires Find(t, k.prefix).None?
    ensures Find(t + [k], p) == if p == k.prefix then Some(k) else Find(t, p)
  {
    var i, j := IndexOf(t, p), IndexOf(t + [k], p);
    if i < |t| {
      assert (t + [k])[i].prefix == p;
      assert j <= i && (t + [k])[j] == t[j];
    } else {
      assert forall n :: 0 <= n < |t| ==> (t + [k])[n] == t[n];
      assert (t + [k])[|t|] == k;
    }
  }

  lemma {:induction false} CountAfterInsert(t: Table, k: Key, q: Key)
    ensures ActiveCount(t + [k], q) == ActiveCount(t, q) + (if k.Active() && SameGrant(k, q) then 1 else 0)
  {
    assert (t + [k])[..|t|] == t;
  }

  lemma {:induction false} CountAfterUpdate(t: Table, i: nat, k: Key, q: Key)
    requires i < |t|
    ensures ActiveCount(t[i := k], q) == ActiveCount(t, q)
            - (if t[i].Active() && SameGrant(t[i], q) then 1 else 0) + (if k.Active() && SameGrant(k, q) then 1 else 0)
    decreases |t|
  {
    var n := |t| - 1;
    if i < n {
      CountAfterUpdate(t[..n], i, k, q);
      assert t[i := k][..n] == t[..n][i := k];
    } else {
      assert t[i := k][..n] == t[..n];
    }
  }

  ghost predicate InsertEffect(t: Table, k: Key, t': Table) {
    && SoundTable(t') && Secrets(t') == Secrets(t) + [k.hash.ofSecret]
    && (forall p :: Find(t', p) == if p == k.prefix then Some(k) else Find(t, p))
    && (forall q :: ActiveCount(t', q) == ActiveCount(t, q) + if SameGrant(k, q) then 1 else 0)
  }

  lemma InsertFacts(t: Table, k: Key)
    requires SoundTable(t) && Find(t, k.prefix).None?
    requires IsGenerated(k.hash.ofSecret) && k.prefix == PrefixOf(k.hash.ofSecret) && k.Active()
    ensures InsertEffect(t, k, t + [k])
  {
    forall p ensures Find(t + [k], p) == if p == k.prefix then Some(k) else Find(t, p) {
      FindAfterInsert(t, k, p);
    }
    forall q ensures ActiveCount(t + [k], q) == ActiveCount(t, q) + if SameGrant(k, q) then 1 else 0 {
      CountAfterInsert(t, k, q);
    }
    assert forall i :: 0 <= i < |t| ==> t[i].prefix != k.prefix;
  }

  ghost predicate RetireEffect(t: Table, k: Key, retired: Key, t': Table) {
    && SoundTable(t') && Secrets(t') == Secrets(t) && !retired.Active() && SameKey(k, retired)
    && (forall p :: Find(t', p) == if p == k.prefix then Some(retired) else Find(t, p))
    && (forall q :: ActiveCount(t', q) == ActiveCount(t, q) - if SameGrant(k, q) then 1 else 0)
  }

  lemma RetireFacts(t: Table, prefix: string, now: int)
    requires SoundTable(t)
    ensures var (t', retired) := Retire(t, prefix, now);
            && (retired.Some? <==> Find(t, prefix).Some? && Find(t, prefix).value.Active())
            && (retired.None? ==> t' == t)
            && (retired.Some? ==>
                  && retired == Find(t, prefix)
                  && RetireEffect(t, retired.value, retired.value.(revokedAt := Some(now)), t'))
  {
    var (t', retired) := Retire(t, prefix, now);
    if retired.Some? {
      var i := IndexOf(t, prefix);
      var k := t[i].(revokedAt := Some(now));
      assert t' == t[i := k];
      forall p ensures Find(t', p) == if p == prefix then Some(k) else Find(t, p) {
        SamePrefixesSameIndex(t, t', p);
      }
      forall q ensures ActiveCount(t', q) == ActiveCount(t, q) - if SameGrant(t[i], q) then 1 else 0 {
        CountAfterUpdate(t, i, k, q);
      }
    }
  }

  /** No row loses its prefix, hash, owner, tenant or scopes. */
  ghost predicate KeepsKeys(t: Table, t': Table) {
    forall p :: Find(t, p).Some? ==> Find(t', p).Some? && SameKey(Find(t, p).value, Find(t', p).value)
  }

  lemma PendingStaySound(t: Table, t': Table, pending: map<nat, Pending>, c: nat)
    requires KeepsKeys(t, t') && PendingSound(t, pending)
    ensures PendingSound(t', pending - {c})
  {}

  lemma EntriesStaySound(t: Table, t': Table, log: seq<Finished>, f: Finished)
    requires KeepsKeys(t, t') && EntriesSound(t, log) && SoundEntry(t', f)
    ensures EntriesSound(t', log + [f])
  {}

  lemma LogSnoc(log: seq<Finished>, f: Finished)
    ensures Issued(log + [f]) == Issued(log) + IssuedBy(f)
    ensures Retired(log + [f]) == Retired(log) + RetiredBy(f)
    ensures forall k :: NetCount(log + [f], k) == NetCount(log, k) + NetOf(f, k)
  {
    assert (log + [f])[..|log|] == log;
  }

  lemma RetiredStays(t: Table, t': Table, log: seq<Finished>, f: Finished)
    requires RetiredOnce(t, log) && (f.Created? || f.Failed?)
    requires forall q :: IsRetired(t', q) == IsRetired(t, q)
    ensures RetiredOnce(t', log + [f])
  {
    LogSnoc(log, f);
  }

  lemma RetiredGrows(t: Table, t': Table, log: seq<Finished>, f: Finished, p: string)
    requires RetiredOnce(t, log)
    requires (f.Revoked? && f.key.prefix == p) || (f.Rotated? && f.source.prefix == p)
    requires !IsRetired(t, p) && IsRetired(t', p)
    requires forall q :: q != p ==> IsRetired(t', q) == IsRetired(t, q)
    ensures RetiredOnce(t', log + [f])
  {
    LogSnoc(log, f);
    assert Retired(log + [f]) == Retired(log) + [p];
    assert p !in Retired(log);
  }

  // ---------------------------------------------------------------- one step

  lemma FailKeeps(s: State, c: nat, e: Error)
    requires Invariant(s)
    ensures Invariant(Finish(s, s.table, Failed(c, e)))
  {
    var f := Failed(c, e);
    LogSnoc(s.log, f);
    PendingStaySound(s.table, s.table, s.pending, c);
    EntriesStaySound(s.table, s.table, s.log, f);
    RetiredStays(s.table, s.table, s.log, f);
  }

  lemma InsertKeepsKeys(t: Table, k: Key, t': Table)
    requires InsertEffect(t, k, t') && Find(t, k.prefix).None?
    ensures KeepsKeys(t, t')
  {
  }

  lemma InsertKeepsRetired(t: Table, k: Key, t': Table, log: seq<Finished>, c: nat)
    requires InsertEffect(t, k, t') && Find(t, k.prefix).None? && k.Active() && RetiredOnce(t, log)
    ensures RetiredOnce(t', log + [Created(c, k)])
  {
    forall q ensures IsRetired(t', q) == IsRetired(t, q) {
      assert Find(t', q) == if q == k.prefix then Some(k) else Find(t, q);
    }
    RetiredStays(t, t', log, Created(c, k));
  }

  lemma InsertKeepsCounts(t: Table, k: Key, t': Table, log: seq<Finished>, c: nat)
    requires InsertEffect(t, k, t') && CountsAgree(t, log)
    ensures CountsAgree(t', log + [Created(c, k)])
  {
    LogSnoc(log, Created(c, k));
  }

  lemma InsertKeepsIssued(t: Table, k: Key, t': Table, log: seq<Finished>, c: nat)
    requires InsertEffect(t, k, t') && Issued(log) == Secrets(t)
    ensures Issued(log + [Created(c, k)]) == Secrets(t')
  {
    LogSnoc(log, Created(c, k));
  }

  lemma CreateKeeps(s: State, c: nat, k: Key, t': Table)
    requires Invariant(s) && Find(s.table, k.prefix).None? && k.Active() && InsertEffect(s.table, k, t')
    ensures Invariant(Finish(s, t', Created(c, k)))
  {
    InsertKeepsKeys(s.table, k, t');
    PendingStaySound(s.table, t', s.pending, c);
    assert SoundEntry(t', Created(c, k)) by {
      assert Find(t', k.prefix) == Some(k);
    }
    EntriesStaySound(s.table, t', s.log, Created(c, k));
    InsertKeepsRetired(s.table, k, t', s.log, c);
    InsertKeepsCounts(s.table, k, t', s.log, c);
    InsertKeepsIssued(s.table, k, t', s.log, c);
  }

  lemma RetireKeepsCounts(t: Table, k: Key, retired: Key, t': Table, log: seq<Finished>, c: nat)
    requires RetireEffect(t, k, retired, t') && CountsAgree(t, log) && Issued(log) == Secrets(t)
    ensures CountsAgree(t', log + [Revoked(c, k)]) && Issued(log + [Revoked(c, k)]) == Secrets(t')
  {
    LogSnoc(log, Revoked(c, k));
  }

  lemma RetireKeepsRetired(t: Table, k: Key, retired: Key, t': Table, log: seq<Finished>, c: nat)
    requires RetireEffect(t, k, retired, t') && k.Active() && Find(t, k.prefix) == Some(k) && RetiredOnce(t, log)
    ensures RetiredOnce(t', log + [Revoked(c, k)])
  {
    assert Find(t', k.prefix) == Some(retired);
    forall q | q != k.prefix ensures IsRetired(t', q) == IsRetired(t, q) {
      assert Find(t', q) == Find(t, q);
    }
    RetiredGrows(t, t', log, Revoked(c, k), k.prefix);
  }

  lemma RevokeKeeps(s: State, c: nat, k: Key, retired: Key, t': Table)
    requires Invariant(s) && k.Active() && Find(s.table, k.prefix) == Some(k) && RetireEffect(s.table, k, retired, t')
    ensures Invariant(Finish(s, t', Revoked(c, k)))
  {
    assert KeepsKeys(s.table, t');
    PendingStaySound(s.table, t', s.pending, c);
    EntriesStaySound(s.table, t', s.log, Revoked(c, k));
    RetireKeepsRetired(s.table, k, retired, t', s.log, c);
    RetireKeepsCounts(s.table, k, retired, t', s.log, c);
  }

  ghost predicate RotateEffect(t: Table, source: Key, k: Key, now: int, t': Table) {
    && SoundTable(t') && Secrets(t') == Secrets(t) + [k.hash.ofSecret]
    && source.Active() && k.Active() && source.prefix != k.prefix && SameGrant(source, k)
    && Find(t, source.prefix) == Some(source)
    && Find(t', source.prefix) == Some(source.(revokedAt := Some(now))) && Find(t', k.prefix) == Some(k)
    && (forall p :: p != source.prefix && p != k.prefix ==> Find(t', p) == Find(t, p))
    && Find(t, k.prefix).None?
    && (forall q :: ActiveCount(t', q) == ActiveCount(t, q))
  }

  lemma RotateFacts(t: Table, prefix: string, owner: string, tenant: string, scopes: seq<string>, secret: Secret,
                    now: int)
    requires SoundTable(t) && IsGenerated(secret.text)
    requires SoundPending(t, RotateReady(prefix, owner, tenant, scopes))
    ensures var (t', r) := RotateCommit(t, prefix, owner, tenant, scopes, secret, now);
            && (r.Failure? ==> t' == t)
            && (r.Success? ==> r.value.0.prefix == prefix && RotateEffect(t, r.value.0, r.value.1, now, t'))
  {
    var k := NewKey(owner, scopes, tenant, secret);
    if Find(t, k.prefix).None? {
      InsertFacts(t, k);
      RetireFacts(t + [k], prefix, now);
    }
  }

  lemma RotateKeepsRetired(t: Table, source: Key, k: Key, now: int, t': Table, log: seq<Finished>, c: nat)
    requires RotateEffect(t, source, k, now, t') && RetiredOnce(t, log)
    ensures RetiredOnce(t', log + [Rotated(c, source, k)])
  {
    forall q | q != source.prefix ensures IsRetired(t', q) == IsRetired(t, q) {
      if q != k.prefix {
        assert Find(t', q) == Find(t, q);
      }
    }
    RetiredGrows(t, t', log, Rotated(c, source, k), source.prefix);
  }

  lemma RotateKeepsCounts(t: Table, source: Key, k: Key, now: int, t': Table, log: seq<Finished>, c: nat)
    requires RotateEffect(t, source, k, now, t') && CountsAgree(t, log) && Issued(log) == Secrets(t)
    ensures CountsAgree(t', log + [Rotated(c, source, k)]) && Issued(log + [Rotated(c, source, k)]) == Secrets(t')
  {
    LogSnoc(log, Rotated(c, source, k));
  }

  lemma RotateKeeps(s: State, c: nat, source: Key, k: Key, now: int, t': Table)
    requires Invariant(s) && RotateEffect(s.table, source, k, now, t')
    ensures Invariant(Finish(s, t', Rotated(c, source, k)))
  {
    assert KeepsKeys(s.table, t');
    PendingStaySound(s.table, t', s.pending, c);
    EntriesStaySound(s.table, t', s.log, Rotated(c, source, k));
    RotateKeepsRetired(s.table, source, k, now, t', s.log, c);
    RotateKeepsCounts(s.table, source, k, now, t', s.log, c);
  }

  predicate Creates(p: Pending) {
    p.Guarded? || (p.Begun? && p.request.CreateKey?)
  }

  lemma StepInsertKeeps(s: State, c: nat, owner: string, scopes: seq<string>, tenant: string, allowNonMain: bool,
                        first: Secret, second: Secret)
    requires Invariant(s) && IsGenerated(first.text) && IsGenerated(second.text)
    ensures Invariant(StepInsert(s, c, owner, scopes, tenant, allowNonMain, first, second))
  {
    FailKeeps(s, c, CreateGuard(owner, tenant, allowNonMain).GetOr(Sql));
    match Create(s.table, owner, scopes, tenant, first, second)
    case (t, Success(k)) =>
      InsertFacts(s.table, k);
      CreateKeeps(s, c, k, t);
    case (t, Failure(e)) => FailKeeps(s, c, e);
  }

  lemma StepCreateKeeps(s: State, c: nat, first: Secret, second: Secret, now: int)
    requires Invariant(s) && c in s.pending && IsGenerated(first.text) && IsGenerated(second.text)
    requires Creates(s.pending[c])
    ensures Invariant(StepCall(s, c, first, second, now))
  {
    match s.pending[c]
    case Guarded(owner, scopes, tenant, allowNonMain, _) =>
      StepInsertKeeps(s, c, owner, scopes, tenant, allowNonMain, first, second);
    case Begun(r) => StepInsertKeeps(s, c, r.owner, r.scopes, r.tenant, r.allowNonMain, first, second);
  }

  lemma StepRevokeKeeps(s: State, c: nat, first: Secret, second: Secret, now: int)
    requires Invariant(s) && c in s.pending && s.pending[c].RevokeChecked?
    ensures Invariant(StepCall(s, c, first, second, now))
  {
    var prefix := s.pending[c].prefix;
    RetireFacts(s.table, prefix, now);
    if Retire(s.table, prefix, now).1.Some? {
      var (t', k) := Retire(s.table, prefix, now);
      RevokeKeeps(s, c, k.value, k.value.(revokedAt := Some(now)), t');
    } else {
      FailKeeps(s, c, AlreadyRevoked);
    }
  }

  lemma StepRotateKeeps(s: State, c: nat, first: Secret, second: Secret, now: int)
    requires Invariant(s) && c in s.pending && IsGenerated(first.text) && s.pending[c].RotateReady?
    ensures Invariant(StepCall(s, c, first, second, now))
  {
    var p := s.pending[c];
    RotateFacts(s.table, p.prefix, p.owner, p.tenant, p.scopes, first, now);
    match RotateCommit(s.table, p.prefix, p.owner, p.tenant, p.scopes, first, now)
    case (t, Success((source, k))) => RotateKeeps(s, c, source, k, now, t);
    case (t, Failure(e)) => FailKeeps(s, c, e);
  }

  /** A reading step changes no row: it remembers what it read. */
  lemma RememberKeeps(s: State, c: nat, p: Pending)
    requires Invariant(s) && SoundPending(s.table, p)
    ensures Invariant(s.(pending := s.pending[c := p]))
  {}

  lemma GuardKeeps(s: State, c: nat, first: Secret, second: Secret, now: int)
    requires Invariant(s) && c in s.pending && s.pending[c].Begun? && s.pending[c].request.AdminCreate?
    ensures Invariant(StepCall(s, c, first, second, now))
  {
    var r := s.pending[c].request;
    FailKeeps(s, c, SecondActiveKey);
    RememberKeeps(s, c, Guarded(r.owner, r.scopes, r.tenant, r.allowNonMain, |s.log|));
  }

  lemma RevokeCheckKeeps(s: State, c: nat, first: Secret, second: Secret, now: int)
    requires Invariant(s) && c in s.pending && s.pending[c].Begun? && s.pending[c].request.RevokeKey?
    ensures Invariant(StepCall(s, c, first, second, now))
  {
    var prefix := s.pending[c].request.prefix;
    match RevokeCheck(s.table, prefix)
    case Some(e) => FailKeeps(s, c, e);
    case None => RememberKeeps(s, c, RevokeChecked(prefix));
  }

  lemma RotateFirstReadKeeps(s: State, c: nat, first: Secret, second: Secret, now: int)
    requires Invariant(s) && c in s.pending && s.pending[c].Begun? && s.pending[c].request.RotateKey?
    ensures Invariant(StepCall(s, c, first, second, now))
  {
    var prefix := s.pending[c].request.prefix;
    match Find(s.table, prefix)
    case None => FailKeeps(s, c, NotFound);
    case Some(k) =>
      FailKeeps(s, c, AlreadyRevoked);
      RememberKeeps(s, c, RotateRead(prefix, k.owner, k.tenant));
  }

  lemma RotateSecondReadKeeps(s: State, c: nat, first: Secret, second: Secret, now: int)
    requires Invariant(s) && c in s.pending && s.pending[c].RotateRead?
    ensures Invariant(StepCall(s, c, first, second, now))
  {
    var p := s.pending[c];
    match Find(s.table, p.prefix)
    case None => FailKeeps(s, c, NotFound);
    case Some(k) => RememberKeeps(s, c, RotateReady(p.prefix, p.owner, p.tenant, k.scopes));
  }

  lemma StepKeeps(s: State, c: nat, first: Secret, second: Secret, now: int)
    requires Invariant(s) && c in s.pending && IsGenerated(first.text) && IsGenerated(second.text)
    ensures Invariant(StepCall(s, c, first, second, now))
  {
    if s.pending[c].RevokeChecked? {
      StepRevokeKeeps(s, c, first, second, now);
    } else if s.pending[c].RotateReady? {
      StepRotateKeeps(s, c, first, second, now);
    } else if Creates(s.pending[c]) {
      StepCreateKeeps(s, c, first, second, now);
    } else if s.pending[c].RotateRead? {
      RotateSecondReadKeeps(s, c, first, second, now);
    } else {
      match s.pending[c].request
      case AdminCreate(_, _, _, _) => GuardKeeps(s, c, first, second, now);
      case RevokeKey(_) => RevokeCheckKeeps(s, c, first, second, now);
      case RotateKey(_) => RotateFirstReadKeeps(s, c, first, second, now);
    }
  }

  // ---------------------------------------------------------------- whole runs

  /** Key lifecycle: under every interleaving, prefixes stay unique, the rows are exactly the secrets
      handed out by successful creates and rotates in order, each retired prefix was retired by
      exactly one successful call, and active keys of a grant are its creations minus revocations. */
  lemma {:induction false} EveryRunKeepsInvariant(s: State, moves: seq<Move>)
    requires Invariant(s) && forall m :: m in moves ==> GeneratedSecrets(m)
    ensures Invariant(Execute(s, moves))
    decreases |moves|
  {
    if moves != [] {
      var m := moves[0];
      assert m in moves;
      if m.Advance? && m.call in s.pending {
        StepKeeps(s, m.call, m.first, m.second, m.now);
      }
      EveryRunKeepsInvariant(Next(s, m), moves[1..]);
    }
  }

  /** A reading step leaves the table alone. */
  lemma ReadGrows(s: State, c: nat, first: Secret, second: Secret, now: int)
    requires c in s.pending
    requires s.pending[c].RotateRead? || (s.pending[c].Begun? && !s.pending[c].request.CreateKey?)
    ensures StepCall(s, c, first, second, now).table == s.table && s.log <= StepCall(s, c, first, second, now).log
  {}

  lemma CreateGrows(s: State, c: nat, first: Secret, second: Secret, now: int)
    requires c in s.pending && Creates(s.pending[c])
    ensures Grows(s.table, StepCall(s, c, first, second, now).table) && s.log <= StepCall(s, c, first, second, now).log
  {}

  lemma WriteGrows(s: State, c: nat, first: Secret, second: Secret, now: int)
    requires c in s.pending && (s.pending[c].RevokeChecked? || s.pending[c].RotateReady?)
    ensures Grows(s.table, StepCall(s, c, first, second, now).table) && s.log <= StepCall(s, c, first, second, now).log
  {
    var p := s.pending[c];
    if p.RevokeChecked? {
      RetireGrows(s.table, p.prefix, now);
    } else {
      RotateGrows(s.table, p.prefix, p.owner, p.tenant, p.scopes, first, now);
    }
  }

  /** One move never deletes or rewrites a row: it appends, or sets one empty `revoked_at`. */
  lemma MoveGrows(s: State, m: Move)
    ensures Grows(s.table, Next(s, m).table)
    ensures s.log <= Next(s, m).log
  {
    if m.Advance? && m.call in s.pending {
      var p := s.pending[m.call];
      if p.RevokeChecked? || p.RotateReady? {
        WriteGrows(s, m.call, m.first, m.second, m.now);
      } else if Creates(p) {
        CreateGrows(s, m.call, m.first, m.second, m.now);
      } else {
        ReadGrows(s, m.call, m.first, m.second, m.now);
      }
    }
  }

  lemma RotateGrows(t: Table, prefix: string, owner: string, tenant: string, scopes: seq<string>, secret: Secret,
                    now: int)
    ensures Grows(t, RotateCommit(t, prefix, owner, tenant, scopes, secret, now).0)
  {
    RetireGrows(t + [NewKey(owner, scopes, tenant, secret)], prefix, now);
  }

  lemma RetireGrows(t: Table, prefix: string, now: int)
    ensures Grows(t, Retire(t, prefix, now).0)
  {}

  lemma {:induction false} RunGrows(s: State, moves: seq<Move>)
    ensures Grows(s.table, Execute(s, moves).table) && s.log <= Execute(s, moves).log
    decreases |moves|
  {
    if moves != [] {
      MoveGrows(s, moves[0]);
      RunGrows(Next(s, moves[0]), moves[1..]);
    }
  }

  lemma EmptyStoreIsSound()
    ensures Invariant(EMPTY)
  {}

  /** A rotation that loses the race leaves the table untouched. */
  lemma LosingRotateLeavesNoRow(t: Table, prefix: string, owner: string, tenant: string, scopes: seq<string>,
                                secret: Secret, now: int)
    requires SoundTable(t) && IsGenerated(secret.text) && Find(t, prefix).Some? && !Find(t, prefix).value.Active()
    ensures RotateCommit(t, prefix, owner, tenant, scopes, secret, now).0 == t
    ensures RotateCommit(t, prefix, owner, tenant, scopes, secret, now).1.Failure?
  {
    var k := NewKey(owner, scopes, tenant, secret);
    if Find(t, k.prefix).None? {
      InsertFacts(t, k);
      RetireFacts(t + [k], prefix, now);
    }
  }

  // ---------------------------------------------------------------- verification

  lemma FindBySecret(t: Table, i: nat)
    requires SoundTable(t) && i < |t|
    ensures Find(t, PrefixOf(t[i].hash.ofSecret)) == Some(t[i])
  {
    var j := IndexOf(t, t[i].prefix);
    assert j <= i;
  }

  lemma GeneratedPassesTheFastPath(secret: string)
    requires IsGenerated(secret)
    ensures KEY_PREFIX <= secret && |Utf8(secret)| >= 4
  {
    PrefixesGrow(secret, 0, |secret|);
    assert secret[..0] == [] && secret[..|secret|] == secret;
  }

  /** Every issued secret has the log entry that issued it. */
  lemma {:induction false} IssuingEntry(log: seq<Finished>, secret: string) returns (f: Finished)
    requires secret in Issued(log)
    ensures f in log && (f.Created? || f.Rotated?) && f.key.hash.ofSecret == secret
    decreases |log|
  {
    var n := |log| - 1;
    f := log[n];
    if !((f.Created? || f.Rotated?) && f.key.hash.ofSecret == secret) {
      f := IssuingEntry(log[..n], secret);
    }
  }

  /** Verification is exact: after any run from an empty store, a string authenticates if and only
      if a successful create or rotate handed it out and no successful call has retired it since; the
      key returned carries the grant it was issued with.  Every other string is not found. */
  lemma VerifyIsExact(moves: seq<Move>, secret: string)
    requires forall m :: m in moves ==> GeneratedSecrets(m)
    ensures var s := Execute(EMPTY, moves);
            var r := Verify(s.table, secret);
            && (r.Success? <==> secret in Issued(s.log) && PrefixOf(secret) !in Retired(s.log))
            && (r == Failure(AlreadyRevoked) <==> secret in Issued(s.log) && PrefixOf(secret) in Retired(s.log))
            && (r.Failure? && r.error != AlreadyRevoked ==> r.error == NotFound)
            && (r.Success? ==>
                  exists f :: f in s.log && (f.Created? || f.Rotated?) && f.key.hash.ofSecret == secret &&
                    SameKey(f.key, r.value))
  {
    EmptyStoreIsSound();
    EveryRunKeepsInvariant(EMPTY, moves);
    var s := Execute(EMPTY, moves);
    var t := s.table;
    if secret in Issued(s.log) {
      var i :| 0 <= i < |t| && Secrets(t)[i] == secret;
      FindBySecret(t, i);
      GeneratedPassesTheFastPath(secret);
      assert (PrefixOf(secret) in Retired(s.log)) == IsRetired(t, PrefixOf(secret));
      var f := IssuingEntry(s.log, secret);
      assert SoundEntry(t, f);
    } else if Find(t, PrefixOf(secret)).Some? {
      var k := Find(t, PrefixOf(secret)).value;
      var i := IndexOf(t, PrefixOf(secret));
      assert Secrets(t)[i] == k.hash.ofSecret;
    }
  }
}
