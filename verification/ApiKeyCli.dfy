/** `gradatum-admin api-key` and the bootstrap mint of `init`, run one command at a time: one
    identity never holds two active keys. */
module ApiKeyCli {
  import opened Wrappers
  import opened KeyPrefix
  import opened ApiKeyTable
  import opened ApiKeyRuns

  const WRITE_SCOPES: set<string> := {"write", "admin", "service"}

  const BOOTSTRAP_IDENTITY := "main-agent"
  const BOOTSTRAP_SCOPES: seq<string> := ["vault_read", "vault_search", "vault_write", "write"]

  predicate HasWriteScope(scopes: seq<string>) {
    exists s :: s in scopes && s in WRITE_SCOPES
  }

  /** `validate_create_scopes` accepts the scope set. */
  predicate ScopesAccepted(scopes: seq<string>, readOnly: bool) {
    readOnly != HasWriteScope(scopes)
  }

  /** The guard `rotate` runs on the source key can never refuse, whatever the scopes: a key that
      looks writable and is not is rotated all the same. */
  lemma RotationScopeGuardNeverRefuses(scopes: seq<string>)
    ensures ScopesAccepted(scopes, !HasWriteScope(scopes))
    ensures !HasWriteScope(["vault_write"]) && !ScopesAccepted(["vault_write"], false)
  {}

  datatype Command =
    | CreateCmd(owner: string, declared: bool, scopes: seq<string>, readOnly: bool, tenant: string,
                allowNonMain: bool, first: Secret, second: Secret)
    | RotateCmd(prefix: string, secret: Secret, now: int)
    | RevokeCmd(prefix: string, now: int)
    | ResetCmd(execute: bool, confirm: seq<string>, now: int)
    | MintCmd(declared: bool, first: Secret, second: Secret)

  predicate SecretsGenerated(c: Command) {
    match c
    case CreateCmd(_, _, _, _, _, _, first, second) => IsGenerated(first.text) && IsGenerated(second.text)
    case RotateCmd(_, secret, _) => IsGenerated(secret.text)
    case MintCmd(_, first, second) => IsGenerated(first.text) && IsGenerated(second.text)
    case _ => true
  }

  function Prefixes(keys: seq<Key>): seq<string> {
    if keys == [] then [] else [keys[0].prefix] + Prefixes(keys[1..])
  }

  function RetireAll(t: Table, prefixes: seq<string>, now: int): Table
    decreases |prefixes|
  {
    if prefixes == [] then t else RetireAll(Retire(t, prefixes[0], now).0, prefixes[1..], now)
  }

  /** The table one command leaves. */
  function RunCommand(t: Table, c: Command): Table {
    match c
    case CreateCmd(owner, declared, scopes, readOnly, tenant, allowNonMain, first, second) =>
      if !ScopesAccepted(scopes, readOnly) || !declared || OwnerHasActive(t, owner)
         || CreateGuard(owner, tenant, allowNonMain).Some?
      then t else Create(t, owner, scopes, tenant, first, second).0
    case RotateCmd(prefix, secret, now) =>
      (match Find(t, prefix)
       case None => t
       case Some(k) => if k.Active() then RotateCommit(t, prefix, k.owner, k.tenant, k.scopes, secret, now).0 else t)
    case RevokeCmd(prefix, now) => Retire(t, prefix, now).0
    case ResetCmd(execute, confirm, now) =>
      var expected := Prefixes(List(t, false, None));
      if execute && multiset(expected) == multiset(confirm) then RetireAll(t, expected, now) else t
    case MintCmd(declared, first, second) =>
      if !declared || OwnerHasActive(t, BOOTSTRAP_IDENTITY) then t
      else Create(t, BOOTSTRAP_IDENTITY, BOOTSTRAP_SCOPES, "main", first, second).0
  }

  /** `api-key create` adds one row, with the grant it was given, if and only if the preset declares the owner, the
      scopes hold a write scope exactly when the key is not read-only, the owner has no active key and is not a
      person, the tenant is allowed, and one of the two secrets has a free prefix. */
  lemma CreateCommandIff(t: Table, c: Command)
    requires c.CreateCmd?
    ensures var t' := RunCommand(t, c);
            && (t' != t <==>
                  && c.declared
                  && (c.readOnly <==> "write" !in c.scopes && "admin" !in c.scopes && "service" !in c.scopes)
                  && !(exists i :: 0 <= i < |t| && t[i].revokedAt.None? && t[i].owner == c.owner)
                  && !("person/" <= c.owner) && (c.tenant == "main" || c.allowNonMain)
                  && (Find(t, PrefixOf(c.first.text)).None? || Find(t, PrefixOf(c.second.text)).None?))
            && (t' != t ==>
                  exists secret :: secret in {c.first, c.second} && Find(t, PrefixOf(secret.text)).None?
                    && t' == t + [Key(PrefixOf(secret.text), SecretHash(secret.salt, secret.text), c.owner, c.scopes,
                                      c.tenant, None)])
  {
    assert HasWriteScope(c.scopes) <==> "write" in c.scopes || "admin" in c.scopes || "service" in c.scopes;
    assert OwnerHasActive(t, c.owner) <==> exists i :: 0 <= i < |t| && t[i].revokedAt.None? && t[i].owner == c.owner;
    var (t', r) := Create(t, c.owner, c.scopes, c.tenant, c.first, c.second);
    if r.Success? {
      assert |t'| == |t| + 1;
    }
  }

  function RunCommands(t: Table, cs: seq<Command>): Table
    decreases |cs|
  {
    if cs == [] then t else RunCommands(RunCommand(t, cs[0]), cs[1..])
  }

  /** R1: one identity, at most one active key. */
  ghost predicate OneActivePerOwner(t: Table) {
    forall i, j :: 0 <= i < j < |t| && t[i].Active() && t[j].Active() ==> t[i].owner != t[j].owner
  }

  lemma CreateKeepsR1(t: Table, owner: string, scopes: seq<string>, tenant: string, first: Secret, second: Secret)
    requires SoundTable(t) && OneActivePerOwner(t) && !OwnerHasActive(t, owner)
    requires IsGenerated(first.text) && IsGenerated(second.text)
    ensures var t' := Create(t, owner, scopes, tenant, first, second).0; SoundTable(t') && OneActivePerOwner(t')
  {
    match Create(t, owner, scopes, tenant, first, second)
    case (_, Success(k)) => InsertFacts(t, k);
    case (_, Failure(_)) =>
  }

  lemma RetireKeepsR1(t: Table, prefix: string, now: int)
    requires SoundTable(t)
    ensures var t' := Retire(t, prefix, now).0; SoundTable(t') && Grows(t, t') && |t'| == |t|
    ensures OneActivePerOwner(t) ==> OneActivePerOwner(Retire(t, prefix, now).0)
    ensures Find(t, prefix).Some? ==> IsRetired(Retire(t, prefix, now).0, prefix)
    ensures forall p :: p != prefix ==> Find(Retire(t, prefix, now).0, p) == Find(t, p)
  {
    RetireFacts(t, prefix, now);
  }

  lemma RotateKeepsR1(t: Table, prefix: string, secret: Secret, now: int)
    requires SoundTable(t) && OneActivePerOwner(t) && IsGenerated(secret.text)
    requires Find(t, prefix).Some?
    ensures var k := Find(t, prefix).value;
            var t' := RotateCommit(t, prefix, k.owner, k.tenant, k.scopes, secret, now).0;
            SoundTable(t') && OneActivePerOwner(t')
  {
    var k := Find(t, prefix).value;
    RotateFacts(t, prefix, k.owner, k.tenant, k.scopes, secret, now);
    var minted := NewKey(k.owner, k.scopes, k.tenant, secret);
    if Find(t, minted.prefix).None? && k.Active() {
      var i := IndexOf(t, prefix);
      FindAfterInsert(t, minted, prefix);
      assert IndexOf(t + [minted], prefix) == i by {
        assert (t + [minted])[i].prefix == prefix;
      }
      SuccessorKeepsR1(t, i, minted, now);
    }
  }

  /** A key may take the place of the active one of its owner. */
  lemma SuccessorKeepsR1(t: Table, i: nat, minted: Key, now: int)
    requires OneActivePerOwner(t) && i < |t| && t[i].Active() && minted.owner == t[i].owner
    ensures OneActivePerOwner((t + [minted])[i := t[i].(revokedAt := Some(now))])
  {}

  lemma {:induction false} RetireAllKeeps(t: Table, prefixes: seq<string>, now: int)
    requires SoundTable(t)
    ensures var t' := RetireAll(t, prefixes, now);
            && SoundTable(t') && |t'| == |t| && Grows(t, t') && (OneActivePerOwner(t) ==> OneActivePerOwner(t'))
    decreases |prefixes|
  {
    if prefixes != [] {
      RetireFacts(t, prefixes[0], now);
      RetireKeepsR1(t, prefixes[0], now);
      RetireAllKeeps(Retire(t, prefixes[0], now).0, prefixes[1..], now);
    }
  }

  /** A retired key stays retired, and every listed key that exists ends up retired. */
  lemma {:induction false} RetireAllRetires(t: Table, prefixes: seq<string>, now: int, p: string)
    requires SoundTable(t) && (IsRetired(t, p) || (p in prefixes && Find(t, p).Some?))
    ensures IsRetired(RetireAll(t, prefixes, now), p)
    decreases |prefixes|
  {
    if prefixes != [] {
      RetireFacts(t, prefixes[0], now);
      RetireKeepsR1(t, prefixes[0], now);
      RetireAllRetires(Retire(t, prefixes[0], now).0, prefixes[1..], now, p);
    }
  }

  lemma CommandKeepsR1(t: Table, c: Command)
    requires SoundTable(t) && OneActivePerOwner(t) && SecretsGenerated(c)
    ensures SoundTable(RunCommand(t, c)) && OneActivePerOwner(RunCommand(t, c))
  {
    match c
    case CreateCmd(owner, _, scopes, _, tenant, _, first, second) =>
      if !OwnerHasActive(t, owner) { CreateKeepsR1(t, owner, scopes, tenant, first, second); }
    case RotateCmd(prefix, secret, now) =>
      if Find(t, prefix).Some? { RotateKeepsR1(t, prefix, secret, now); }
    case RevokeCmd(prefix, now) => RetireKeepsR1(t, prefix, now);
    case ResetCmd(_, _, now) => RetireAllKeeps(t, Prefixes(List(t, false, None)), now);
    case MintCmd(_, first, second) =>
      if !OwnerHasActive(t, BOOTSTRAP_IDENTITY) {
        CreateKeepsR1(t, BOOTSTRAP_IDENTITY, BOOTSTRAP_SCOPES, "main", first, second);
      }
  }

  /** Every sequence of commands from an empty registry keeps at most one active key per owner. */
  lemma {:induction false} SequentialRunsKeepR1(t: Table, cs: seq<Command>)
    requires SoundTable(t) && OneActivePerOwner(t)
    requires forall c :: c in cs ==> SecretsGenerated(c)
    ensures SoundTable(RunCommands(t, cs)) && OneActivePerOwner(RunCommands(t, cs))
    decreases |cs|
  {
    if cs != [] {
      assert cs[0] in cs;
      CommandKeepsR1(t, cs[0]);
      SequentialRunsKeepR1(RunCommand(t, cs[0]), cs[1..]);
    }
  }

  // ---------------------------------------------------------------- reset

  /** A listing holds the keys of the tenant asked for, or of every tenant, and revoked ones only on demand. */
  lemma {:induction false} ListMembers(t: Table, includeRevoked: bool, tenant: Option<string>, k: Key)
    ensures k in List(t, includeRevoked, tenant) <==>
              k in t && (includeRevoked || k.revokedAt == None) && (tenant == None || tenant == Some(k.tenant))
    decreases |t|
  {
    if t != [] {
      ListMembers(t[1..], includeRevoked, tenant, k);
      assert t == [t[0]] + t[1..];
    }
  }

  lemma {:induction false} PrefixesMembers(keys: seq<Key>, k: Key)
    requires k in keys
    ensures k.prefix in Prefixes(keys)
    decreases |keys|
  {
    if k != keys[0] {
      assert keys == [keys[0]] + keys[1..];
      PrefixesMembers(keys[1..], k);
    }
  }

  /** The `EXISTS` query and the list-based default give the same answer. */
  lemma HasAnyActiveAgreesWithList(t: Table)
    ensures HasAnyActive(t) <==> List(t, false, None) != []
  {
    if HasAnyActive(t) {
      var k :| k in t && k.Active();
      ListMembers(t, false, None, k);
    }
    if List(t, false, None) != [] {
      ListMembers(t, false, None, List(t, false, None)[0]);
    }
  }

  lemma RetiredRow(t: Table, prefixes: seq<string>, now: int, i: nat)
    requires SoundTable(t) && i < |t| && (t[i].Active() ==> t[i].prefix in prefixes)
    ensures |RetireAll(t, prefixes, now)| == |t| && !RetireAll(t, prefixes, now)[i].Active()
  {
    var t' := RetireAll(t, prefixes, now);
    RetireAllKeeps(t, prefixes, now);
    FindBySecret(t, i);
    RetireAllRetires(t, prefixes, now, t[i].prefix);
    FindBySecret(t', i);
  }

  lemma ConfirmedReset(t: Table, now: int)
    requires SoundTable(t)
    ensures var t' := RetireAll(t, Prefixes(List(t, false, None)), now);
            |t'| == |t| && Grows(t, t') && !HasAnyActive(t')
  {
    var expected := Prefixes(List(t, false, None));
    RetireAllKeeps(t, expected, now);
    forall i | 0 <= i < |t| ensures !RetireAll(t, expected, now)[i].Active() {
      if t[i].Active() {
        ListMembers(t, false, None, t[i]);
        PrefixesMembers(List(t, false, None), t[i]);
      }
      RetiredRow(t, expected, now, i);
    }
  }

  /** A confirmed reset leaves no active key and removes no row; any other echo changes nothing. */
  lemma ResetRevokesEveryKey(t: Table, execute: bool, confirm: seq<string>, now: int)
    requires SoundTable(t)
    ensures var t' := RunCommand(t, ResetCmd(execute, confirm, now));
            && |t'| == |t| && Grows(t, t')
            && (if execute && multiset(confirm) == multiset(Prefixes(List(t, false, None)))
                then !HasAnyActive(t') else t' == t)
  {
    ConfirmedReset(t, now);
  }
}
