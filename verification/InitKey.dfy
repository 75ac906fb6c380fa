/** The bootstrap key over whole sequences of `init`: when `config/main-agent.apikey.txt` opens the store, and
    the one place where an interruption leaves a root whose key nobody holds. */
module InitKey {
  import opened Wrappers
  import opened KeyPrefix
  import opened ConfigMerge
  import opened ApiKeyTable
  import opened ApiKeyRuns
  import opened InitRun

  // ---------------------------------------------------------------- the key file

  /** The key file authenticates as the bootstrap identity, with its working scopes. */
  predicate Opens(t: Table, file: Option<string>) {
    && file.Some?
    && match Verify(t, file.value)
       case Success(k) =>
         k.owner == "main-agent" && k.tenant == "main"
         && k.scopes == ["vault_read", "vault_search", "vault_write", "write"]
       case Failure(_) => false
  }

  predicate Admits(s: Root) {
    Opens(s.keys, s.keyFile)
  }

  /** An active bootstrap key is one the operator holds. */
  predicate KeyHeld(s: Root) {
    OwnerHasActive(s.keys, "main-agent") ==> Admits(s)
  }

  predicate Generated(args: Args) {
    IsGenerated(args.first.text) && IsGenerated(args.second.text)
  }

  function BootstrapKey(secret: Secret): Key {
    Key(PrefixOf(secret.text), SecretHash(secret.salt, secret.text), "main-agent",
        ["vault_read", "vault_search", "vault_write", "write"], "main", None)
  }

  /** The key a run mints: none when one is active, nor when both secrets collide. */
  function Mints(declares: string -> bool, s: Root, args: Args): Option<Key> {
    if !ReachesMint(declares, s, args) || OwnerHasActive(s.keys, "main-agent") then None
    else if Find(s.keys, PrefixOf(args.first.text)).None? then Some(BootstrapKey(args.first))
    else if Find(s.keys, PrefixOf(args.second.text)).None? then Some(BootstrapKey(args.second))
    else None
  }

  /** Writes before the key is inserted: the backup of the old preset and the new preset. */
  function PresetWrites(s: Root, args: Args): nat {
    if KeepsPreset(s, args) then 0 else if s.preset.Some? then 2 else 1
  }

  // ---------------------------------------------------------------- one run

  predicate TouchesKeys(op: Op) {
    op.InsertKey? || op.RemoveKeyFile? || op.CreateKeyFile?
  }

  lemma {:induction false} NoKeyStep(s: Root, ops: seq<Op>, budget: nat)
    requires forall op :: op in ops ==> !TouchesKeys(op)
    ensures RunCut(s, ops, budget).keys == s.keys && RunCut(s, ops, budget).keyFile == s.keyFile
    decreases |ops|
  {
    if ops != [] && budget != 0 {
      assert ops[0] in ops;
      NoKeyStep(Apply(s, ops[0]), ops[1..], budget - 1);
    }
  }

  lemma OtherPhasesSpareKeys(s: Root, args: Args)
    ensures forall op :: op in PresetOps(s, args).GetOr([]) ==> !TouchesKeys(op)
    ensures forall op :: op in FinalOps(s, args) ==> !TouchesKeys(op)
  {
    StepKinds(s, args);
    forall op | op in FinalOps(s, args) ensures !TouchesKeys(op) {
      assert op in MarkerOps(s, args) || op in ServerOps(s, args);
    }
  }

  /** The steps of a mint, from the state they find. */
  lemma MintSteps(s: Root, args: Args, t: Root, k: Key, budget: nat)
    requires t.keys == s.keys && t.keyFile == s.keyFile
    requires MintOps(s, args) == Some([InsertKey(k)] + (if s.keyFile.Some? then [RemoveKeyFile] else [])
                                      + [CreateKeyFile(k.hash.ofSecret)])
    ensures var r := RunCut(t, MintOps(s, args).value, budget);
            && r.keys == (if budget == 0 then s.keys else s.keys + [k])
            && r.keyFile == if budget >= |MintOps(s, args).value| then Some(k.hash.ofSecret)
                            else if budget >= 2 then None else s.keyFile
  {
    var ops := MintOps(s, args).value;
    assert ops[0] == InsertKey(k);
    if budget >= 1 {
      var u := Apply(t, ops[0]);
      if s.keyFile.Some? {
        assert ops[1..] == [RemoveKeyFile] + [CreateKeyFile(k.hash.ofSecret)];
        assert ops[1..][1..] == [CreateKeyFile(k.hash.ofSecret)];
        if budget >= 2 {
          assert RunCut(u, ops[1..], budget - 1) == RunCut(Apply(u, RemoveKeyFile), ops[1..][1..], budget - 2);
          RunCutOne(Apply(u, RemoveKeyFile), CreateKeyFile(k.hash.ofSecret), budget - 2);
        }
      } else {
        assert ops[1..] == [CreateKeyFile(k.hash.ofSecret)];
        RunCutOne(u, CreateKeyFile(k.hash.ofSecret), budget - 1);
      }
    }
  }

  lemma MintedKey(declares: string -> bool, s: Root, args: Args)
    requires ReachesMint(declares, s, args)
    ensures |PresetOps(s, args).value| == PresetWrites(s, args)
    ensures match Mints(declares, s, args)
            case None => MintOps(s, args).GetOr([]) == []
            case Some(k) =>
              MintOps(s, args) == Some([InsertKey(k)] + (if s.keyFile.Some? then [RemoveKeyFile] else [])
                                       + [CreateKeyFile(k.hash.ofSecret)])
  {
  }

  /** The table and the key file after a run cut anywhere: insert, remove the stale file, write the secret. */
  lemma KeyAfterRun(declares: string -> bool, s: Root, args: Args, budget: nat)
    ensures var r, n := After(declares, s, Run(args, budget)), PresetWrites(s, args);
            match Mints(declares, s, args)
            case None => r.keys == s.keys && r.keyFile == s.keyFile
            case Some(k) =>
              && r.keys == (if budget <= n then s.keys else s.keys + [k])
              && r.keyFile == if budget >= n + (if s.keyFile.Some? then 3 else 2) then Some(k.hash.ofSecret)
                              else if budget >= n + 2 then None else s.keyFile
  {
    OtherPhasesSpareKeys(s, args);
    if ReachesMint(declares, s, args) && MintOps(s, args).Some? {
      MintedKey(declares, s, args);
      var a, b, c := PresetOps(s, args).value, MintOps(s, args).value, FinalOps(s, args);
      PhasedRun(s, a, b, c, budget);
      var t := RunCut(s, a, budget);
      NoKeyStep(s, a, budget);
      var u := RunCut(t, b, Left(budget, a));
      NoKeyStep(u, c, Left(Left(budget, a), b));
      if Mints(declares, s, args).Some? {
        MintSteps(s, args, t, Mints(declares, s, args).value, Left(budget, a));
      }
    } else {
      if ReachesMint(declares, s, args) { MintedKey(declares, s, args); }
      NoKeyStep(s, Plan(declares, s, args), budget);
    }
  }

  // ---------------------------------------------------------------- what the key file opens

  /** A freshly minted key is found by its own secret and by no other string. */
  lemma MintedVerifies(t: Table, k: Key, text: string)
    requires SoundTable(t) && Find(t, k.prefix).None? && k.Active()
    requires IsGenerated(k.hash.ofSecret) && k.prefix == PrefixOf(k.hash.ofSecret)
    ensures SoundTable(t + [k])
    ensures Verify(t + [k], k.hash.ofSecret) == Success(k)
    ensures text != k.hash.ofSecret && Verify(t + [k], text).Success? ==>
              Verify(t, text) == Verify(t + [k], text) && Verify(t, text).value in t
  {
    InsertFacts(t, k);
    GeneratedPassesTheFastPath(k.hash.ofSecret);
  }

  lemma NoOwnerNoAdmission(t: Table, text: string)
    requires !OwnerHasActive(t, "main-agent") && Verify(t, text).Success? && Verify(t, text).value in t
    ensures Verify(t, text).value.owner != "main-agent"
  {
    var k := Verify(t, text).value;
    var i :| 0 <= i < |t| && t[i] == k;
  }

  /** The only string that opens a table as the bootstrap identity is the secret of its new key. */
  lemma OpensAfterMint(t: Table, secret: Secret, file: Option<string>)
    requires SoundTable(t) && !OwnerHasActive(t, "main-agent")
    requires IsGenerated(secret.text) && Find(t, PrefixOf(secret.text)).None?
    ensures SoundTable(t + [BootstrapKey(secret)]) && OwnerHasActive(t + [BootstrapKey(secret)], "main-agent")
    ensures Opens(t + [BootstrapKey(secret)], file) <==> file == Some(secret.text)
  {
    var k := BootstrapKey(secret);
    assert (t + [k])[|t|] == k;
    MintedVerifies(t, k, file.GetOr(""));
    if file.Some? && file.value != secret.text && Verify(t + [k], file.value).Success? {
      NoOwnerNoAdmission(t, file.value);
    }
  }

  lemma MintsEither(declares: string -> bool, s: Root, args: Args) returns (secret: Secret)
    requires Mints(declares, s, args).Some? && Generated(args)
    ensures Mints(declares, s, args) == Some(BootstrapKey(secret))
    ensures IsGenerated(secret.text) && Find(s.keys, PrefixOf(secret.text)).None?
    ensures !OwnerHasActive(s.keys, "main-agent")
  {
    secret := if Find(s.keys, PrefixOf(args.first.text)).None? then args.first else args.second;
  }

  lemma WritesOfSuccess(declares: string -> bool, s: Root, args: Args, budget: nat)
    requires Succeeds(declares, s, args, budget) && !OwnerHasActive(s.keys, "main-agent")
    ensures Mints(declares, s, args).Some?
    ensures budget >= PresetWrites(s, args) + if s.keyFile.Some? then 3 else 2
  {
    MintedKey(declares, s, args);
    var a, b, c := PresetOps(s, args).value, MintOps(s, args).value, FinalOps(s, args);
    assert |Plan(declares, s, args)| == |a| + |b| + |c|;
  }

  /** A successful init on a root without an active bootstrap key leaves a file that opens the store as that
      identity; on a root with one, neither the table nor the file changes. */
  lemma SuccessfulInitHandsOverTheKey(declares: string -> bool, s: Root, args: Args, budget: nat)
    requires SoundTable(s.keys) && Generated(args) && Succeeds(declares, s, args, budget)
    ensures var r := After(declares, s, Run(args, budget));
            if OwnerHasActive(s.keys, "main-agent") then r.keys == s.keys && r.keyFile == s.keyFile
            else Admits(r) && SoundTable(r.keys) && |r.keys| == |s.keys| + 1 && s.keys <= r.keys
  {
    KeyAfterRun(declares, s, args, budget);
    if !OwnerHasActive(s.keys, "main-agent") {
      WritesOfSuccess(declares, s, args, budget);
      var secret := MintsEither(declares, s, args);
      OpensAfterMint(s.keys, secret, Some(secret.text));
    }
  }

  // ---------------------------------------------------------------- torn mints

  /** The run is cut after the key is inserted and before its secret is on disk. */
  predicate Tears(declares: string -> bool, s: Root, args: Args, budget: nat) {
    && Mints(declares, s, args).Some?
    && PresetWrites(s, args) < budget < PresetWrites(s, args) + (if s.keyFile.Some? then 3 else 2)
    && !(budget == PresetWrites(s, args) + 1 && s.keyFile == Some(Mints(declares, s, args).value.hash.ofSecret))
  }

  /** A run cut anywhere keeps the key held if and only if it is not torn, and keeps the table sound. */
  lemma KeyHeldIff(declares: string -> bool, s: Root, args: Args, budget: nat)
    requires SoundTable(s.keys) && Generated(args) && KeyHeld(s)
    ensures var r := After(declares, s, Run(args, budget));
            SoundTable(r.keys) && (KeyHeld(r) <==> !Tears(declares, s, args, budget))
  {
    KeyAfterRun(declares, s, args, budget);
    if Mints(declares, s, args).Some? {
      var secret := MintsEither(declares, s, args);
      OpensAfterMint(s.keys, secret, After(declares, s, Run(args, budget)).keyFile);
    }
  }

  ghost predicate AllSound(runs: seq<Run>) {
    forall r :: r in runs ==> Generated(r.args)
  }

  ghost predicate NoneTears(declares: string -> bool, s: Root, runs: seq<Run>)
    decreases |runs|
  {
    runs == [] ||
    (!Tears(declares, s, runs[0].args, runs[0].budget) && NoneTears(declares, After(declares, s, runs[0]), runs[1..]))
  }

  /** A key nobody holds stays so: no later init, forced or not, cut or not, writes the file. */
  lemma {:induction false} TornForever(declares: string -> bool, s: Root, runs: seq<Run>)
    requires OwnerHasActive(s.keys, "main-agent") && !Admits(s)
    ensures var r := AfterAll(declares, s, runs);
            r.keys == s.keys && r.keyFile == s.keyFile && !Admits(r)
    decreases |runs|
  {
    if runs != [] {
      assert runs[0] == Run(runs[0].args, runs[0].budget);
      KeyAfterRun(declares, s, runs[0].args, runs[0].budget);
      TornForever(declares, After(declares, s, runs[0]), runs[1..]);
    }
  }

  /** After any sequence of inits, each cut anywhere, an active bootstrap key is held if and only if no run was
      torn. */
  lemma {:induction false} KeyHeldForeverIff(declares: string -> bool, s: Root, runs: seq<Run>)
    requires SoundTable(s.keys) && KeyHeld(s) && AllSound(runs)
    ensures KeyHeld(AfterAll(declares, s, runs)) <==> NoneTears(declares, s, runs)
    decreases |runs|
  {
    if runs != [] {
      assert runs[0] in runs && runs[0] == Run(runs[0].args, runs[0].budget);
      var t := After(declares, s, runs[0]);
      KeyHeldIff(declares, s, runs[0].args, runs[0].budget);
      if Tears(declares, s, runs[0].args, runs[0].budget) {
        TornForever(declares, t, runs[1..]);
      } else {
        KeyHeldForeverIff(declares, t, runs[1..]);
      }
    }
  }

  /** On a fresh root the cut after the second write (preset, key) is torn, and every later init with it. */
  lemma InterruptedMintIsNeverRepaired(declares: string -> bool, args: Args, runs: seq<Run>)
    requires Generated(args) && args.rendered.Some? && declares(args.rendered.value)
    ensures var s := Root(None, None, map[], Missing, None, None, []);
            var r := AfterAll(declares, After(declares, s, Run(args, 2)), runs);
            OwnerHasActive(r.keys, "main-agent") && r.keyFile.None?
  {
    var s := Root(None, None, map[], Missing, None, None, []);
    var t := After(declares, s, Run(args, 2));
    KeyAfterRun(declares, s, args, 2);
    assert t.keys[0] == BootstrapKey(args.first);
    TornForever(declares, t, runs);
  }

  /** Over any non-empty sequence of successful inits from a sound root whose active key is held, the file opens
      the store. */
  lemma {:induction false} KeyFileAlwaysOpens(declares: string -> bool, s: Root, runs: seq<Run>)
    requires SoundTable(s.keys) && KeyHeld(s) && AllSound(runs) && AllSucceed(declares, s, runs) && runs != []
    ensures Admits(AfterAll(declares, s, runs))
    decreases |runs|
  {
    assert runs[0] in runs && runs[0] == Run(runs[0].args, runs[0].budget);
    var t := After(declares, s, runs[0]);
    SuccessfulInitHandsOverTheKey(declares, s, runs[0].args, runs[0].budget);
    if |runs| > 1 {
      KeyFileAlwaysOpens(declares, t, runs[1..]);
    } else {
      assert AfterAll(declares, t, runs[1..]) == t;
    }
  }

  // ---------------------------------------------------------------- the whole root

  lemma MarkerTail(s: Root, args: Args, t: Root, budget: nat)
    requires budget >= |MarkerOps(s, args)|
    ensures RunCut(t, MarkerOps(s, args), budget) == t.(marker := Some(args.bearer))
  {
    var ops := MarkerOps(s, args);
    if |ops| == 2 {
      assert ops[1..] == [CreateMarker(args.bearer)];
      RunCutOne(Apply(t, RemoveMarker), CreateMarker(args.bearer), budget - 1);
    } else {
      assert ops == [CreateMarker(args.bearer)];
      RunCutOne(t, CreateMarker(args.bearer), budget);
    }
  }

  /** The marker of a successful init holds its bearer, whatever was there, and server.toml the template, with the
      operator's document merged in when there was one. */
  lemma SuccessfulInitWrites(declares: string -> bool, s: Root, args: Args, budget: nat)
    requires Succeeds(declares, s, args, budget)
    ensures var r := After(declares, s, Run(args, budget));
            && r.marker == Some(args.bearer)
            && match s.server
               case Missing => r.server == Doc(args.template)
               case Broken => false
               case Doc(tree) => tree.Table? && r.server == Doc(MergeUserConfig(tree, args.template))
  {
    var head := PresetOps(s, args).value + MintOps(s, args).value;
    var tree := NewServer(s, args).value;
    PlanWithMarker(declares, s, args, head);
    RunsToTheEnd(s, head + MarkerOps(s, args), tree, budget);
    RunCutConcat(s, head, MarkerOps(s, args), budget);
    MarkerTail(s, args, RunCut(s, head, budget), budget - |head|);
  }

  lemma PlanWithMarker(declares: string -> bool, s: Root, args: Args, head: seq<Op>)
    requires ReachesMint(declares, s, args) && MintOps(s, args).Some? && NewServer(s, args).Some?
    requires head == PresetOps(s, args).value + MintOps(s, args).value
    ensures var tree := NewServer(s, args).value;
            Plan(declares, s, args) == (head + MarkerOps(s, args)) + ([WriteServer(tree)] + TokenFileOps(s, tree))
  {
    Regroup(PresetOps(s, args).value, MintOps(s, args).value, MarkerOps(s, args), ServerOps(s, args));
  }

  lemma Regroup(a: seq<Op>, b: seq<Op>, c: seq<Op>, d: seq<Op>)
    ensures a + (b + (c + d)) == ((a + b) + c) + d
  {
  }

  lemma AtPair(i: Item, section: string, key: string)
    requires i.Table? && section in i.entries && i.entries[section].Table? && key in i.entries[section].entries
    ensures At(i, [section, key]) == Some(i.entries[section].entries[key])
  {
    assert [section, key][1..] == [key] && [key][1..] == [];
    assert At(i.entries[section], [key]) == At(i.entries[section].entries[key], []);
  }

  /** The token of a document stands under `internal_api.token`, or in an inline table of that name. */
  lemma TokenInIff(tree: Item, v: Value)
    requires tree.Table?
    ensures TokenIn(tree) == Some(v) <==>
              || At(tree, ["internal_api", "token"]) == Some(Leaf(v))
              || exists fields: map<string, Value> ::
                   At(tree, ["internal_api"]) == Some(Leaf(Inline(fields))) && "token" in fields && fields["token"] == v
  {
    var path := ["internal_api", "token"];
    assert path[1..] == ["token"] && ["token"][1..] == [] && ["internal_api"][1..] == [];
    if "internal_api" in tree.entries {
      var section := tree.entries["internal_api"];
      assert At(tree, ["internal_api"]) == Some(section) && At(tree, path) == At(section, ["token"]);
      assert section.Table? && "token" in section.entries ==>
          At(section, ["token"]) == Some(section.entries["token"]);
    }
  }

  /** What a first init puts in `server.toml`. */
  lemma FreshServerToml(root: string, bind: string, token: string, adminToken: string)
    ensures var t := Template(root, bind, token, adminToken);
            && At(t, ["server", "bind"]) == Some(Leaf(Str(bind)))
            && At(t, ["server", "metrics_bind"]) == Some(Leaf(Str("127.0.0.1:19091")))
            && At(t, ["internal_api", "bind"]) == Some(Leaf(Str("127.0.0.1:19092")))
            && At(t, ["storage", "root"]) == Some(Leaf(Str(root)))
            && At(t, ["storage", "vault_index_path"]) == Some(Leaf(Str(root + "/vault/.gradatum/index.db")))
            && At(t, ["auth", "api_keys_db_path"]) == Some(Leaf(Str(root + "/db/api_keys.sqlite")))
            && At(t, ["auth", "revocation_db_path"]) == Some(Leaf(Str(root + "/db/revocation.sqlite")))
            && At(t, ["acl", "preset_path"]) == Some(Leaf(Str(root + "/config/bearer.toml")))
            && At(t, ["internal_api", "token"]) == Some(Leaf(Str(token)))
            && At(t, ["internal_api", "admin_token"]) == Some(Leaf(Str(adminToken)))
  {
    var t := Template(root, bind, token, adminToken);
    AtPair(t, "server", "bind");
    AtPair(t, "server", "metrics_bind");
    AtPair(t, "internal_api", "bind");
    AtPair(t, "storage", "root");
    AtPair(t, "storage", "vault_index_path");
    AtPair(t, "auth", "api_keys_db_path");
    AtPair(t, "auth", "revocation_db_path");
    AtPair(t, "acl", "preset_path");
    AtPair(t, "internal_api", "token");
    AtPair(t, "internal_api", "admin_token");
  }
}
