/** The `api_keys` table and the separately locked steps of the store's operations, as functions
    from one table to the next.  Hashing is ideal: a stored hash verifies its own secret only. */
module ApiKeyTable {
  import opened Wrappers
  import opened KeyPrefix

  datatype SecretHash = SecretHash(salt: nat, ofSecret: string)

  datatype Key = Key(
    prefix: string,
    hash: SecretHash,
    owner: string,
    scopes: seq<string>,
    tenant: string,
    revokedAt: Option<int>)
  {
    predicate Active() {
      revokedAt.None?
    }
  }

  /** Rows in insertion order. */
  type Table = seq<Key>

  datatype Error = NotFound | AlreadyRevoked | Sql | InvalidTenant | ReservedOwnerNamespace | SecondActiveKey

  datatype Secret = Secret(text: string, salt: nat)

  ghost predicate UniquePrefixes(t: Table) {
    forall i, j :: 0 <= i < j < |t| ==> t[i].prefix != t[j].prefix
  }

  /** Index of the row with this prefix, or the length of the table. */
  function IndexOf(t: Table, prefix: string): (i: nat)
    ensures i <= |t| && (i < |t| ==> t[i].prefix == prefix)
    ensures forall j :: 0 <= j < i ==> t[j].prefix != prefix
  {
    if t == [] || t[0].prefix == prefix then 0 else 1 + IndexOf(t[1..], prefix)
  }

  function Find(t: Table, prefix: string): Option<Key> {
    var i := IndexOf(t, prefix);
    if i < |t| then Some(t[i]) else None
  }

  function VerifySecret(secret: string, hash: SecretHash): bool {
    hash.ofSecret == secret
  }

  function NewKey(owner: string, scopes: seq<string>, tenant: string, secret: Secret): Key {
    Key(PrefixOf(secret.text), SecretHash(secret.salt, secret.text), owner, scopes, tenant, None)
  }

  // ---------------------------------------------------------------- create

  const RESERVED_NAMESPACE := "person/"

  function CreateGuard(owner: string, tenant: string, allowNonMain: bool): Option<Error> {
    if tenant != "main" && !allowNonMain then Some(InvalidTenant)
    else if RESERVED_NAMESPACE <= owner then Some(ReservedOwnerNamespace)
    else None
  }

  /** The locked body of `create`: insert, with one retry on a prefix collision. */
  function Create(t: Table, owner: string, scopes: seq<string>, tenant: string, first: Secret, second: Secret)
    : (Table, Result<Key, Error>)
  {
    if Find(t, PrefixOf(first.text)).None? then
      var k := NewKey(owner, scopes, tenant, first);
      (t + [k], Success(k))
    else if Find(t, PrefixOf(second.text)).None? then
      var k := NewKey(owner, scopes, tenant, second);
      (t + [k], Success(k))
    else (t, Failure(Sql))
  }

  // ---------------------------------------------------------------- revoke

  /** First locked step: the error that ends the call, if any. */
  function RevokeCheck(t: Table, prefix: string): Option<Error> {
    match Find(t, prefix)
    case None => Some(NotFound)
    case Some(k) => if k.Active() then None else Some(AlreadyRevoked)
  }

  /** `UPDATE … SET revoked_at WHERE prefix = … AND revoked_at IS NULL`, with the row it changed. */
  function Retire(t: Table, prefix: string, now: int): (Table, Option<Key>) {
    var i := IndexOf(t, prefix);
    if i < |t| && t[i].Active() then (t[i := t[i].(revokedAt := Some(now))], Some(t[i]))
    else (t, None)
  }

  // ---------------------------------------------------------------- rotate

  /** The transaction of `rotate`: insert the new key, retire the old one, or change nothing. */
  function RotateCommit(t: Table, prefix: string, owner: string, tenant: string, scopes: seq<string>,
                        secret: Secret, now: int): (Table, Result<(Key, Key), Error>)
  {
    var k := NewKey(owner, scopes, tenant, secret);
    if Find(t, k.prefix).Some? then (t, Failure(Sql))
    else
      var (t', retired) := Retire(t + [k], prefix, now);
      match retired
      case None => (t, Failure(AlreadyRevoked))
      case Some(source) => (t', Success((source, k)))
  }

  // ---------------------------------------------------------------- verify, list

  function Verify(t: Table, secret: string): Result<Key, Error> {
    if !(KEY_PREFIX <= secret) || |Utf8(secret)| < 4 then Failure(NotFound)
    else match Find(t, PrefixOf(secret))
      case None => Failure(NotFound)
      case Some(k) =>
        if !VerifySecret(secret, k.hash) then Failure(NotFound)
        else if !k.Active() then Failure(AlreadyRevoked)
        else Success(k)
  }

  function List(t: Table, includeRevoked: bool, tenant: Option<string>): seq<Key> {
    if t == [] then []
    else (if (includeRevoked || t[0].Active()) && (tenant.None? || t[0].tenant == tenant.value) then [t[0]] else [])
         + List(t[1..], includeRevoked, tenant)
  }

  predicate OwnerHasActive(t: Table, owner: string) {
    exists i :: 0 <= i < |t| && t[i].Active() && t[i].owner == owner
  }

  ghost predicate HasAnyActive(t: Table) {
    exists k :: k in t && k.Active()
  }
}
