/** The SQLite store as an object: each operation proved against the table functions. */
module ApiKeyStore {
  import opened Wrappers
  import opened KeyPrefix
  import opened ApiKeyTable
  import opened ApiKeyRuns
  import opened ApiKeyCli

  class SqliteApiKeyStore {
    var table: Table
    const allowNonMain: bool

    constructor (allowNonMain: bool)
      ensures table == [] && this.allowNonMain == allowNonMain
    {
      this.table, this.allowNonMain := [], allowNonMain;
    }

    /** Insert with one retry on a prefix collision; `secrets` is what the generator returns. */
    method CreateKey(owner: string, scopes: seq<string>, tenant: string, secrets: (Secret, Secret))
      returns (r: Result<Key, Error>)
      modifies this
      ensures var refusal := CreateGuard(owner, tenant, allowNonMain);
              (table, r) == (if refusal.Some? then (old(table), Failure(refusal.value))
                             else Create(old(table), owner, scopes, tenant, secrets.0, secrets.1))
    {
      var refusal := CreateGuard(owner, tenant, allowNonMain);
      if refusal.Some? {
        return Failure(refusal.value);
      }
      var firstAttempt := true;
      while true
        invariant table == old(table)
        invariant !firstAttempt ==> Find(table, PrefixOf(secrets.0.text)).Some?
        decreases firstAttempt
      {
        var secret := if firstAttempt then secrets.0 else secrets.1;
        var key := NewKey(owner, scopes, tenant, secret);
        if Find(table, key.prefix).None? {
          table := table + [key];
          return Success(key);
        }
        if !firstAttempt {
          return Failure(Sql);
        }
        firstAttempt := false;
      }
    }

    method Revoke(prefix: string, now: int) returns (r: Option<Error>)
      modifies this
      ensures table == Retire(old(table), prefix, now).0
      ensures r == RevokeCheck(old(table), prefix)
    {
      r := RevokeCheck(table, prefix);
      if r.Some? {
        return;
      }
      var (t, key) := Retire(table, prefix, now);
      table := t;
      if key.None? {
        r := Some(AlreadyRevoked);
      }
    }

    method Rotate(prefix: string, secret: Secret, now: int) returns (r: Result<Key, Error>)
      modifies this
      ensures table == RunCommand(old(table), RotateCmd(prefix, secret, now))
      ensures r.Success? ==> r.value in table && r.value.hash.ofSecret == secret.text
      ensures r.Failure? ==> table == old(table)
      ensures var source := Find(old(table), prefix);
              && (r == Failure(NotFound) <==> source.None?)
              && (r == Failure(AlreadyRevoked) <==> source.Some? && !source.value.Active())
              && (r == Failure(Sql) <==>
                    source.Some? && source.value.Active() && Find(old(table), PrefixOf(secret.text)).Some?)
              && (r.Failure? ==> r.error in {NotFound, AlreadyRevoked, Sql})
    {
      var source := Find(table, prefix);
      if source.None? {
        return Failure(NotFound);
      }
      if !source.value.Active() {
        return Failure(AlreadyRevoked);
      }
      var scopes := Find(table, prefix).value.scopes;
      var k := NewKey(source.value.owner, scopes, source.value.tenant, secret);
      if Find(table, k.prefix).Some? {
        return Failure(Sql);
      }
      FindAfterInsert(table, k, prefix);
      var (t, retired) := Retire(table + [k], prefix, now);
      if retired.None? {
        return Failure(AlreadyRevoked);
      }
      assert t[|t| - 1] == k;
      table := t;
      return Success(k);
    }

    /** `SELECT EXISTS(… WHERE revoked_at IS NULL)`: it stops at the first active row. */
    method HasActive() returns (found: bool)
      ensures found <==> List(table, false, None) != []
    {
      HasAnyActiveAgreesWithList(table);
      var i := 0;
      while i < |table|
        invariant 0 <= i <= |table| && forall j :: 0 <= j < i ==> !table[j].Active()
      {
        if table[i].Active() {
          return true;
        }
        i := i + 1;
      }
      return false;
    }

    /** `api-key reset`: preview, exact echo of the previewed prefixes, then one revocation each. */
    method RunReset(execute: bool, confirm: seq<string>, now: int) returns (confirmed: bool)
      requires SoundTable(table)
      modifies this
      ensures table == RunCommand(old(table), ResetCmd(execute, confirm, now))
      ensures confirmed <==> execute && multiset(confirm) == multiset(Prefixes(List(old(table), false, None)))
      ensures confirmed ==> !HasAnyActive(table)
      ensures |table| == |old(table)| && Grows(old(table), table)
    {
      ResetRevokesEveryKey(table, execute, confirm, now);
      var expected := Prefixes(List(table, false, None));
      if !execute || multiset(expected) != multiset(confirm) {
        return false;
      }
      var rest := expected;
      while rest != []
        invariant RetireAll(table, rest, now) == RetireAll(old(table), expected, now)
        decreases |rest|
      {
        var _ := Revoke(rest[0], now);
        rest := rest[1..];
      }
      return true;
    }
  }
}
