/** `gradatum-admin init` over whole runs: the files it writes, in order, with a failure possible
    before any of them. */
module InitRun {
  import opened Wrappers
  import opened ConfigMerge
  import opened ApiKeyTable
  import opened ApiKeyCli

  function S(text: string): Item { Leaf(Str(text)) }

  function N(text: string): Item { Leaf(Other(text)) }

  /** `generate_server_toml_template`. */
  function Template(root: string, bind: string, token: string, adminToken: string): (t: Item)
    ensures t.Table?
  {
    Table(map[
      "server" := Table(map["bind" := S(bind), "metrics_bind" := S("127.0.0.1:19091")]),
      "storage" := Table(map["root" := S(root), "vault_index_path" := S(root + "/vault/.gradatum/index.db")]),
      "auth" := Table(map[
        "jwt_ttl_human_secs" := N("3600"), "jwt_ttl_service_secs" := N("86400"), "revocation_store" := S("sqlite"),
        "revocation_db_path" := S(root + "/db/revocation.sqlite"),
        "api_keys_db_path" := S(root + "/db/api_keys.sqlite")]),
      "acl" := Table(map["preset_path" := S(root + "/config/bearer.toml")]),
      "log" := Table(map["format" := S("json")]),
      "embed" := Table(map[
        "enabled" := N("true"), "endpoint" := S("http://localhost:8436/v1/embeddings"), "model" := S("bge-m3-Q8_0"),
        "dim" := N("1024"), "timeout_ms" := N("5000")]),
      "curator" := Table(map[
        "backend" := S("openai_compat"), "llm_review_enabled" := N("true"), "heuristic_admit_threshold" := N("0.8"),
        "confidence_threshold" := N("0.7"), "llm_review_fallback" := S("pending-review-fallback"),
        "llm_review_max_tokens" := N("128"),
        "llm" := Table(map[
          "backend" := S("openai_compat"), "base_url" := S("http://localhost:8000"),
          "model" := S("Qwen3-4B-Instruct-2507"), "timeout_ms" := N("60000")])]),
      "apalis" := Table(map["workers" := Table(map[
        "curate" := Table(map["concurrency" := N("1"), "timeout_secs" := N("300")])])]),
      "queue" := Table(map["purge_after_secs" := N("86400"), "purge_interval_secs" := N("3600")]),
      "internal_api" := Table(map[
        "bind" := S("127.0.0.1:19092"), "token" := S(token), "admin_token" := S(adminToken)])])
  }

  /** The template carries its token and not the old storage key: re-running the merge on it is idempotent. */
  lemma TemplateShape(root: string, bind: string, token: string, adminToken: string)
    ensures TokenIn(Template(root, bind, token, adminToken)) == Some(Str(token))
    ensures At(Template(root, bind, token, adminToken), OLD_KEY).None?
  {
    var t := Template(root, bind, token, adminToken);
    AtTwo(t, "storage", "db_path");
  }

  /** `extract_internal_token` looks through a table and through an inline table alike. */
  function TokenIn(tree: Item): Option<Value> {
    if tree.Leaf? || "internal_api" !in tree.entries then None
    else match tree.entries["internal_api"]
      case Table(entries) =>
        if "token" in entries && entries["token"].Leaf? then Some(entries["token"].value) else None
      case Leaf(Inline(fields)) => if "token" in fields then Some(fields["token"]) else None
      case Leaf(_) => None
  }

  /** The token of a merged document is the backup's when it has one; otherwise only the template's
      can be there. */
  lemma TokenOfMerge(template: Item, backup: Item)
    requires template.Table? && backup.Table?
    requires "internal_api" in template.entries && template.entries["internal_api"].Table?
    ensures var token := TokenIn(MergeUserConfig(backup, template));
            if TokenIn(backup).Some? then token == TokenIn(backup) else token.Some? ==> token == TokenIn(template)
  {
    var b := Migrate(backup);
    assert "internal_api" in b.entries <==> "internal_api" in backup.entries;
    assert "internal_api" in b.entries ==> b.entries["internal_api"] == backup.entries["internal_api"];
    var section := template.entries["internal_api"];
    if "internal_api" in b.entries {
      var merged := Merge(section, b.entries["internal_api"]);
      assert Merge(template, b).entries["internal_api"] == merged;
      var present := b.entries["internal_api"];
      if present.Table? && "token" in section.entries && "token" in present.entries {
        assert merged.entries["token"] == Merge(section.entries["token"], present.entries["token"]);
      }
    }
  }

  // ---------------------------------------------------------------- state and steps

  /** server.toml on disk: absent, unparsable, or a document. */
  datatype ServerToml = Missing | Broken | Doc(tree: Item)

  datatype Root = Root(
    marker: Option<string>,        // config/admin.bearer.txt
    preset: Option<string>,        // config/bearer.toml
    backups: map<string, string>,  // config/bearer.toml.bak.<timestamp>, by timestamp
    server: ServerToml,            // config/server.toml
    tokenFile: Option<string>,     // config/internal-worker.token.txt
    keyFile: Option<string>,       // config/main-agent.apikey.txt
    keys: Table)                   // db/api_keys.sqlite

  /** Flags, and what the outside world answers: the rendered preset (None when rendering refuses), the
      server.toml template filled in with a minted token, the admin bearer, the key secrets, and the clock, to
      the second, when the old preset is copied aside. */
  datatype Args = Args(
    force: bool, overwritePreset: bool, rendered: Option<string>, template: Item, token: string,
    bearer: string, first: Secret, second: Secret, stamp: string)

  ghost predicate FromTemplate(args: Args) {
    exists rootDir, bind, adminToken :: args.template == Template(rootDir, bind, args.token, adminToken)
  }

  datatype Op =
    | SavePreset(stamp: string, text: string)
    | WritePreset(text: string)
    | InsertKey(key: Key)
    | RemoveKeyFile
    | CreateKeyFile(secret: string)
    | RemoveMarker
    | CreateMarker(bearer: string)
    | WriteServer(tree: Item)
    | RemoveTokenFile
    | CreateTokenFile(token: string)

  function Apply(s: Root, op: Op): Root {
    match op
    case SavePreset(stamp, text) => s.(backups := s.backups[stamp := text])
    case WritePreset(text) => s.(preset := Some(text))
    case InsertKey(key) => s.(keys := s.keys + [key])
    case RemoveKeyFile => s.(keyFile := None)
    case CreateKeyFile(secret) => s.(keyFile := Some(secret))
    case RemoveMarker => s.(marker := None)
    case CreateMarker(bearer) => s.(marker := Some(bearer))
    case WriteServer(tree) => s.(server := Doc(tree))
    case RemoveTokenFile => s.(tokenFile := None)
    case CreateTokenFile(token) => s.(tokenFile := Some(token))
  }

  function RunCut(s: Root, ops: seq<Op>, budget: nat): Root
    decreases |ops|
  {
    if ops == [] || budget == 0 then s else RunCut(Apply(s, ops[0]), ops[1..], budget - 1)
  }

  lemma {:induction false} RunCutConcat(s: Root, a: seq<Op>, b: seq<Op>, budget: nat)
    ensures RunCut(s, a + b, budget) ==
            RunCut(RunCut(s, a, budget), b, if |a| <= budget then budget - |a| else 0)
    decreases |a|
  {
    if a == [] {
      assert a + b == b;
    } else if budget != 0 {
      assert (a + b)[1..] == a[1..] + b;
      RunCutConcat(Apply(s, a[0]), a[1..], b, budget - 1);
    }
  }

  // ---------------------------------------------------------------- the plan

  predicate KeepsPreset(s: Root, args: Args) {
    s.preset.Some? && s.marker.Some? && !args.overwritePreset
  }

  /** The old preset is copied aside, then replaced; None when rendering refuses, and the run stops. */
  function PresetOps(s: Root, args: Args): Option<seq<Op>> {
    if KeepsPreset(s, args) then Some([])
    else match args.rendered
      case None => None
      case Some(text) => Some(Replacing(s, args.stamp, text))
  }

  /** The steps that put `text` in place of the preset. */
  function Replacing(s: Root, stamp: string, text: string): seq<Op> {
    (if s.preset.Some? then [SavePreset(stamp, s.preset.value)] else []) + [WritePreset(text)]
  }

  /** Bootstrap key: skipped when one is active, refused when the store errs twice. */
  function MintOps(s: Root, args: Args): Option<seq<Op>> {
    if OwnerHasActive(s.keys, BOOTSTRAP_IDENTITY) then Some([])
    else match Create(s.keys, BOOTSTRAP_IDENTITY, BOOTSTRAP_SCOPES, "main", args.first, args.second).1
      case Failure(_) => None
      case Success(key) =>
        Some([InsertKey(key)] + (if s.keyFile.Some? then [RemoveKeyFile] else []) + [CreateKeyFile(key.hash.ofSecret)])
  }

  function MarkerOps(s: Root, args: Args): seq<Op> {
    (if args.force && s.marker.Some? then [RemoveMarker] else []) + [CreateMarker(args.bearer)]
  }

  function NewServer(s: Root, args: Args): Option<Item> {
    match s.server
    case Missing => Some(args.template)
    case Broken => None
    case Doc(tree) => if tree.Table? then Some(MergeUserConfig(tree, args.template)) else None
  }

  function TokenFileOps(s: Root, tree: Item): seq<Op> {
    match TokenIn(tree)
    case Some(Str(token)) => (if s.tokenFile.Some? then [RemoveTokenFile] else []) + [CreateTokenFile(token)]
    case _ => []
  }

  /** server.toml, then the side file when the written document carries a token string. */
  function ServerOps(s: Root, args: Args): seq<Op> {
    match NewServer(s, args)
    case None => []
    case Some(tree) => [WriteServer(tree)] + TokenFileOps(s, tree)
  }

  function FinalOps(s: Root, args: Args): seq<Op> {
    MarkerOps(s, args) + ServerOps(s, args)
  }

  /** The preset the mint validates against. */
  function PresetInForce(s: Root, args: Args): string
    requires PresetOps(s, args).Some?
  {
    if KeepsPreset(s, args) then s.preset.value else args.rendered.value
  }

  predicate ReachesMint(declares: string -> bool, s: Root, args: Args) {
    (s.marker.Some? ==> args.force) && PresetOps(s, args).Some? && declares(PresetInForce(s, args))
  }

  /** Preset, then mint, then marker, then server.toml and its side file.  `declares` tells whether a
      preset parses and declares the bootstrap identity. */
  function Plan(declares: string -> bool, s: Root, args: Args): seq<Op> {
    if s.marker.Some? && !args.force then []
    else if PresetOps(s, args).None? then []
    else if !ReachesMint(declares, s, args) || MintOps(s, args).None? then PresetOps(s, args).value
    else PresetOps(s, args).value + (MintOps(s, args).value + FinalOps(s, args))
  }

  predicate Succeeds(declares: string -> bool, s: Root, args: Args, budget: nat) {
    && budget >= |Plan(declares, s, args)|
    && ReachesMint(declares, s, args) && MintOps(s, args).Some?
    && NewServer(s, args).Some? && TokenIn(NewServer(s, args).value).Some?
    && TokenIn(NewServer(s, args).value).value.Str?
  }

  /** What is left of the budget after `ops`. */
  function Left(budget: nat, ops: seq<Op>): nat {
    if |ops| <= budget then budget - |ops| else 0
  }

  lemma PhasedRun(s: Root, a: seq<Op>, b: seq<Op>, c: seq<Op>, budget: nat)
    ensures RunCut(s, a + (b + c), budget)
            == RunCut(RunCut(RunCut(s, a, budget), b, Left(budget, a)), c, Left(Left(budget, a), b))
  {
    RunCutConcat(s, a, b + c, budget);
    RunCutConcat(RunCut(s, a, budget), b, c, Left(budget, a));
  }

  /** The kinds of step in each part of a plan. */
  lemma StepKinds(s: Root, args: Args)
    ensures MintOps(s, args).Some? ==>
              forall op :: op in MintOps(s, args).value ==> op.InsertKey? || op.RemoveKeyFile? || op.CreateKeyFile?
    ensures forall op :: op in MarkerOps(s, args) ==> op.RemoveMarker? || op.CreateMarker?
    ensures forall op :: op in ServerOps(s, args) ==> op.WriteServer? || op.RemoveTokenFile? || op.CreateTokenFile?
    ensures forall op :: op in ServerOps(s, args) && op.WriteServer? ==> NewServer(s, args) == Some(op.tree)
    ensures PresetOps(s, args).Some? && !KeepsPreset(s, args) ==>
              PresetOps(s, args).value == Replacing(s, args.stamp, PresetInForce(s, args))
  {}

  // ---------------------------------------------------------------- the token

  function TokenOf(s: Root): Option<Value> {
    match s.server
    case Doc(tree) => TokenIn(tree)
    case _ => None
  }

  predicate WellFormed(s: Root) {
    s.server.Doc? ==> s.server.tree.Table?
  }

  /** A merge keeps whatever token the old document carried, and mints one only when there was none. */
  lemma MergeKeepsToken(s: Root, args: Args)
    requires WellFormed(s) && NewServer(s, args).Some? && FromTemplate(args)
    ensures NewServer(s, args).value.Table?
    ensures TokenOf(s).Some? ==> TokenIn(NewServer(s, args).value) == TokenOf(s)
    ensures s.server.Missing? ==> TokenIn(NewServer(s, args).value) == Some(Str(args.token))
    ensures TokenOf(s).None? && TokenIn(NewServer(s, args).value).Some? ==>
              TokenIn(NewServer(s, args).value) == Some(Str(args.token))
  {
    var rootDir, bind, adminToken :| args.template == Template(rootDir, bind, args.token, adminToken);
    TemplateShape(rootDir, bind, args.token, adminToken);
    TemplateMergesToTable(s, args);
    if s.server.Doc? {
      TokenOfMerge(args.template, s.server.tree);
    }
  }

  lemma TemplateMergesToTable(s: Root, args: Args)
    requires WellFormed(s) && NewServer(s, args).Some? && FromTemplate(args)
    ensures NewServer(s, args).value.Table?
  {
    if s.server.Doc? {
      MigratedLacksOldKey(s.server.tree);
    }
  }

  ghost predicate GoodOp(op: Op, token: Value) {
    op.WriteServer? ==> op.tree.Table? && TokenIn(op.tree) == Some(token)
  }

  lemma {:induction false} GoodOpsKeepToken(s: Root, ops: seq<Op>, budget: nat, token: Value)
    requires WellFormed(s) && TokenOf(s) == Some(token)
    requires forall op :: op in ops ==> GoodOp(op, token)
    ensures WellFormed(RunCut(s, ops, budget)) && TokenOf(RunCut(s, ops, budget)) == Some(token)
    decreases |ops|
  {
    if ops != [] && budget != 0 {
      assert ops[0] in ops;
      GoodOpsKeepToken(Apply(s, ops[0]), ops[1..], budget - 1, token);
    }
  }

  datatype Run = Run(args: Args, budget: nat)

  function After(declares: string -> bool, s: Root, r: Run): Root {
    RunCut(s, Plan(declares, s, r.args), r.budget)
  }

  function AfterAll(declares: string -> bool, s: Root, runs: seq<Run>): Root
    decreases |runs|
  {
    if runs == [] then s else AfterAll(declares, After(declares, s, runs[0]), runs[1..])
  }

  lemma PlanKeepsToken(declares: string -> bool, s: Root, args: Args, token: Value)
    requires WellFormed(s) && TokenOf(s) == Some(token) && FromTemplate(args)
    ensures forall op :: op in Plan(declares, s, args) ==> GoodOp(op, token)
  {
    StepKinds(s, args);
    if NewServer(s, args).Some? {
      MergeKeepsToken(s, args);
    }
    forall op | op in Plan(declares, s, args) ensures GoodOp(op, token) {
      if op.WriteServer? {
        assert op in ServerOps(s, args);
      }
    }
  }

  /** Once server.toml carries a token, no sequence of inits, forced or not, cut anywhere or not,
      ever changes it. */
  lemma {:induction false} TokenNeverChanges(declares: string -> bool, s: Root, runs: seq<Run>, token: Value)
    requires WellFormed(s) && TokenOf(s) == Some(token)
    requires forall r :: r in runs ==> FromTemplate(r.args)
    ensures TokenOf(AfterAll(declares, s, runs)) == Some(token)
    decreases |runs|
  {
    if runs != [] {
      assert runs[0] in runs;
      PlanKeepsToken(declares, s, runs[0].args, token);
      GoodOpsKeepToken(s, Plan(declares, s, runs[0].args), runs[0].budget, token);
      TokenNeverChanges(declares, After(declares, s, runs[0]), runs[1..], token);
    }
  }

  lemma TokenFileTail(s: Root, t: Root, tree: Item, budget: nat)
    requires TokenIn(tree).Some? && TokenIn(tree).value.Str? && budget >= |TokenFileOps(s, tree)|
    ensures RunCut(t, TokenFileOps(s, tree), budget) == t.(tokenFile := Some(TokenIn(tree).value.text))
  {
    var ops := TokenFileOps(s, tree);
    if |ops| == 2 {
      assert ops[1..] == [ops[1]];
      assert RunCut(Apply(t, ops[0]), ops[1..], budget - 1) == Apply(Apply(t, ops[0]), ops[1]);
    }
  }

  lemma PlanHead(declares: string -> bool, s: Root, args: Args) returns (head: seq<Op>)
    requires ReachesMint(declares, s, args) && MintOps(s, args).Some? && NewServer(s, args).Some?
    ensures var tree := NewServer(s, args).value;
            Plan(declares, s, args) == head + ([WriteServer(tree)] + TokenFileOps(s, tree))
  {
    head := PresetOps(s, args).value + MintOps(s, args).value + MarkerOps(s, args);
    assert Plan(declares, s, args) == head + ServerOps(s, args);
  }

  /** A successful init leaves a side file equal to the token in server.toml, and that token is the
      one the root already had, or the minted one when it had none. */
  lemma SuccessfulInitAgrees(declares: string -> bool, s: Root, args: Args, budget: nat)
    requires WellFormed(s) && FromTemplate(args) && Succeeds(declares, s, args, budget)
    ensures var r := After(declares, s, Run(args, budget));
            && WellFormed(r) && TokenOf(r).Some? && TokenOf(r).value.Str?
            && r.tokenFile == Some(TokenOf(r).value.text)
            && TokenOf(r) == if TokenOf(s).Some? then TokenOf(s) else Some(Str(args.token))
  {
    MergeKeepsToken(s, args);
    var head := PlanHead(declares, s, args);
    RunsToTheEnd(s, head, NewServer(s, args).value, budget);
  }

  lemma RunCutThen(s: Root, head: seq<Op>, op: Op, tail: seq<Op>, budget: nat)
    requires budget > |head|
    ensures RunCut(s, head + ([op] + tail), budget) ==
            RunCut(Apply(RunCut(s, head, budget), op), tail, budget - |head| - 1)
  {
    RunCutConcat(s, head, [op] + tail, budget);
    assert ([op] + tail)[1..] == tail;
  }

  lemma RunsToTheEnd(s: Root, head: seq<Op>, tree: Item, budget: nat)
    requires TokenIn(tree).Some? && TokenIn(tree).value.Str?
    requires budget >= |head| + 1 + |TokenFileOps(s, tree)|
    ensures RunCut(s, head + ([WriteServer(tree)] + TokenFileOps(s, tree)), budget) ==
            RunCut(s, head, budget).(server := Doc(tree), tokenFile := Some(TokenIn(tree).value.text))
  {
    var t := Apply(RunCut(s, head, budget), WriteServer(tree));
    RunCutThen(s, head, WriteServer(tree), TokenFileOps(s, tree), budget);
    TokenFileTail(s, t, tree, budget - |head| - 1);
  }

  /** Every run of the sequence succeeds from the state it starts in. */
  ghost predicate AllSucceed(declares: string -> bool, s: Root, runs: seq<Run>)
    decreases |runs|
  {
    runs == [] ||
    (&& FromTemplate(runs[0].args) && Succeeds(declares, s, runs[0].args, runs[0].budget)
     && AllSucceed(declares, After(declares, s, runs[0]), runs[1..]))
  }

  /** Over any sequence of successful inits, server.toml and its side file both carry the token the
      root started with, or the one the first init minted when it had none. */
  lemma {:induction false} FirstTokenForever(declares: string -> bool, s: Root, runs: seq<Run>, token: string)
    requires WellFormed(s) && runs != [] && AllSucceed(declares, s, runs)
    requires Some(Str(token)) == if TokenOf(s).Some? then TokenOf(s) else Some(Str(runs[0].args.token))
    ensures var r := AfterAll(declares, s, runs);
            TokenOf(r) == Some(Str(token)) && r.tokenFile == Some(token)
    decreases |runs|
  {
    SuccessfulInitAgrees(declares, s, runs[0].args, runs[0].budget);
    var s' := After(declares, s, runs[0]);
    if |runs| > 1 {
      FirstTokenForever(declares, s', runs[1..], token);
    } else {
      assert AfterAll(declares, s', runs[1..]) == s';
    }
  }

  // ---------------------------------------------------------------- the marker

  /** Where the marker sits in the plan: only after a declaring preset and an active bootstrap key. */
  ghost predicate MarkerJustified(declares: string -> bool, s: Root) {
    s.preset.Some? && declares(s.preset.value) && OwnerHasActive(s.keys, BOOTSTRAP_IDENTITY)
  }

  lemma {:induction false} CutBeforeMarker(s: Root, ops: seq<Op>, budget: nat)
    requires forall op :: op in ops ==> !op.CreateMarker?
    ensures RunCut(s, ops, budget).marker.Some? ==> RunCut(s, ops, budget).marker == s.marker
    decreases |ops|
  {
    if ops != [] && budget != 0 {
      assert ops[0] in ops;
      CutBeforeMarker(Apply(s, ops[0]), ops[1..], budget - 1);
    }
  }

  lemma {:induction false} TailKeepsPresetAndKeys(s: Root, ops: seq<Op>, budget: nat)
    requires forall op :: op in ops ==> !op.WritePreset? && !op.InsertKey?
    ensures RunCut(s, ops, budget).preset == s.preset && RunCut(s, ops, budget).keys == s.keys
    decreases |ops|
  {
    if ops != [] && budget != 0 {
      assert ops[0] in ops;
      TailKeepsPresetAndKeys(Apply(s, ops[0]), ops[1..], budget - 1);
    }
  }

  lemma {:induction false} MintState(s: Root, args: Args, t: Root, budget: nat)
    requires MintOps(s, args).Some? && t.keys == s.keys && budget >= |MintOps(s, args).value|
    ensures var r := RunCut(t, MintOps(s, args).value, budget);
            r.preset == t.preset && OwnerHasActive(r.keys, BOOTSTRAP_IDENTITY)
  {
    var ops := MintOps(s, args).value;
    if ops != [] {
      var key := ops[0].key;
      var t1 := Apply(t, ops[0]);
      assert t1.keys[|t.keys|] == key && key.Active() && key.owner == BOOTSTRAP_IDENTITY;
      assert forall op :: op in ops[1..] ==> op.RemoveKeyFile? || op.CreateKeyFile?;
      TailKeepsPresetAndKeys(t1, ops[1..], budget - 1);
      assert RunCut(t, ops, budget) == RunCut(t1, ops[1..], budget - 1);
    } else {
      assert RunCut(t, ops, budget) == t;
    }
  }

  /** Failure at any step: if a run, cut anywhere, leaves a marker it did not find there, then the
      preset in place declares the bootstrap identity and an active key for it exists. */
  lemma MarkerOnlyWhenJustified(declares: string -> bool, s: Root, args: Args, budget: nat)
    ensures var r := After(declares, s, Run(args, budget));
            r.marker.Some? && r.marker != s.marker ==> MarkerJustified(declares, r)
  {
    StepKinds(s, args);
    if ReachesMint(declares, s, args) && MintOps(s, args).Some? {
      MarkerAfterMint(declares, s, args, budget);
    } else {
      CutBeforeMarker(s, Plan(declares, s, args), budget);
    }
  }

  lemma MarkerAfterMint(declares: string -> bool, s: Root, args: Args, budget: nat)
    requires ReachesMint(declares, s, args) && MintOps(s, args).Some?
    ensures var r := After(declares, s, Run(args, budget));
            r.marker.Some? && r.marker != s.marker ==> MarkerJustified(declares, r)
  {
    StepKinds(s, args);
    var a, b, c := PresetOps(s, args).value, MintOps(s, args).value, FinalOps(s, args);
    var t, left := RunCut(s, a, budget), Left(budget, a);
    PhasedRun(s, a, b, c, budget);
    CutBeforeMarker(s, a, budget);
    CutBeforeMarker(t, b, left);
    if budget >= |a| + |b| {
      MarkerAfterFinal(declares, s, args, budget);
    }
  }

  lemma FinalSparesPresetAndKeys(s: Root, args: Args)
    ensures forall op :: op in FinalOps(s, args) ==> !op.WritePreset? && !op.InsertKey?
  {
    StepKinds(s, args);
  }

  lemma MarkerAfterFinal(declares: string -> bool, s: Root, args: Args, budget: nat)
    requires ReachesMint(declares, s, args) && MintOps(s, args).Some?
    requires budget >= |PresetOps(s, args).value| + |MintOps(s, args).value|
    ensures var a, b := PresetOps(s, args).value, MintOps(s, args).value;
            var u := RunCut(RunCut(s, a, budget), b, Left(budget, a));
            MarkerJustified(declares, RunCut(u, FinalOps(s, args), Left(Left(budget, a), b)))
  {
    FinalSparesPresetAndKeys(s, args);
    var a, b, c := PresetOps(s, args).value, MintOps(s, args).value, FinalOps(s, args);
    var t, left := RunCut(s, a, budget), Left(budget, a);
    PresetState(declares, s, args, budget);
    MintState(s, args, t, left);
    TailKeepsPresetAndKeys(RunCut(t, b, left), c, left - |b|);
  }

  lemma PresetState(declares: string -> bool, s: Root, args: Args, budget: nat)
    requires ReachesMint(declares, s, args) && budget >= |PresetOps(s, args).value|
    ensures var t := RunCut(s, PresetOps(s, args).value, budget);
            t.preset == Some(PresetInForce(s, args)) && t.keys == s.keys && t.marker == s.marker
  {
    if !KeepsPreset(s, args) {
      ReplacedState(s, args.stamp, PresetInForce(s, args), budget);
    }
  }

  /** The three states a replacement of the preset passes through. */
  lemma ReplacedState(s: Root, stamp: string, text: string, budget: nat)
    ensures var saved := if s.preset.Some? then s.(backups := s.backups[stamp := s.preset.value]) else s;
            RunCut(s, Replacing(s, stamp, text), budget) ==
            if budget >= |Replacing(s, stamp, text)| then saved.(preset := Some(text))
            else if budget == 0 then s else saved
  {
    var write := WritePreset(text);
    if s.preset.Some? {
      var save := SavePreset(stamp, s.preset.value);
      assert Replacing(s, stamp, text) == [save] + [write] && ([save] + [write])[1..] == [write];
      if budget >= 1 {
        RunCutOne(Apply(s, save), write, budget - 1);
      }
    } else {
      assert Replacing(s, stamp, text) == [write];
      RunCutOne(s, write, budget);
    }
  }

  lemma RunCutOne(s: Root, op: Op, budget: nat)
    ensures RunCut(s, [op], budget) == if budget == 0 then s else Apply(s, op)
  {
    assert [op][1..] == [];
  }

  // ---------------------------------------------------------------- the preset

  lemma {:induction false} NoPresetStep(s: Root, ops: seq<Op>, budget: nat)
    requires forall op :: op in ops ==> !op.SavePreset? && !op.WritePreset?
    ensures RunCut(s, ops, budget).preset == s.preset && RunCut(s, ops, budget).backups == s.backups
    decreases |ops|
  {
    if ops != [] && budget != 0 {
      assert ops[0] in ops;
      NoPresetStep(Apply(s, ops[0]), ops[1..], budget - 1);
    }
  }

  /** The run gets past the "already initialised" refusal on a root without the marker, or with
      `--overwrite-preset`, and renders a preset. */
  predicate Replaces(s: Root, args: Args) {
    (s.marker.None? || (args.force && (args.overwritePreset || s.preset.None?))) && args.rendered.Some?
  }

  /** The preset and its backups after a run cut anywhere. */
  lemma PresetsAfterRun(declares: string -> bool, s: Root, args: Args, budget: nat)
    ensures var r := After(declares, s, Run(args, budget));
            if Replaces(s, args) then
              var t := RunCut(s, Replacing(s, args.stamp, args.rendered.value), budget);
              r.preset == t.preset && r.backups == t.backups
            else r.preset == s.preset && r.backups == s.backups
  {
    if Replaces(s, args) {
      var first := Replacing(s, args.stamp, args.rendered.value);
      var rest := AfterPreset(declares, s, args);
      RunCutConcat(s, first, rest, budget);
      NoPresetStep(RunCut(s, first, budget), rest, Left(budget, first));
    } else {
      PresetLeftAlone(declares, s, args);
      NoPresetStep(s, Plan(declares, s, args), budget);
    }
  }

  /** A run replaces an existing preset exactly when `Replaces` says so and its second write succeeds, and then
      the old one is the backup of that second. */
  lemma PresetAfterRun(declares: string -> bool, s: Root, args: Args, budget: nat)
    requires s.preset.Some?
    ensures var r := After(declares, s, Run(args, budget));
            && r.preset == (if budget >= 2 && Replaces(s, args) then args.rendered else s.preset)
            && r.backups == if budget >= 1 && Replaces(s, args) then s.backups[args.stamp := s.preset.value]
                            else s.backups
  {
    PresetsAfterRun(declares, s, args, budget);
    if Replaces(s, args) {
      ReplacedState(s, args.stamp, args.rendered.value, budget);
    }
  }

  ghost predicate Kept(s: Root, text: string) {
    s.preset == Some(text) || exists stamp :: stamp in s.backups && s.backups[stamp] == text
  }

  /** The run writes its backup over an older one of the same second that holds a preset found nowhere else. */
  ghost predicate Loses(s: Root, args: Args, budget: nat) {
    && Replaces(s, args) && s.preset.Some? && budget >= 1 && args.stamp in s.backups
    && var lost := s.backups[args.stamp];
       && lost != s.preset.value && !(budget >= 2 && args.rendered == Some(lost))
       && forall stamp :: stamp in s.backups && stamp != args.stamp ==> s.backups[stamp] != lost
  }

  ghost predicate KeepsPresets(declares: string -> bool, s: Root, args: Args, budget: nat) {
    forall text :: Kept(s, text) ==> Kept(After(declares, s, Run(args, budget)), text)
  }

  lemma KeptAfterRun(declares: string -> bool, s: Root, args: Args, budget: nat, text: string)
    requires Kept(s, text) && !(Loses(s, args, budget) && text == s.backups[args.stamp])
    ensures Kept(After(declares, s, Run(args, budget)), text)
  {
    var r := After(declares, s, Run(args, budget));
    if s.preset.None? {
      PresetsAfterRun(declares, s, args, budget);
      if Replaces(s, args) {
        ReplacedState(s, args.stamp, args.rendered.value, budget);
      }
    } else {
      PresetAfterRun(declares, s, args, budget);
      if s.preset == Some(text) {
        assert Replaces(s, args) && budget >= 1 ==> r.backups[args.stamp] == text;
      } else {
        var stamp :| stamp in s.backups && s.backups[stamp] == text;
        assert stamp != args.stamp ==> stamp in r.backups && r.backups[stamp] == text;
        if stamp == args.stamp && Replaces(s, args) && budget >= 1 && !(budget >= 2 && args.rendered == Some(text)) {
          var other :| other in s.backups && other != args.stamp && s.backups[other] == text;
          assert r.backups[other] == text;
        }
      }
    }
  }

  lemma LostAfterRun(declares: string -> bool, s: Root, args: Args, budget: nat)
    requires Loses(s, args, budget)
    ensures Kept(s, s.backups[args.stamp]) && !Kept(After(declares, s, Run(args, budget)), s.backups[args.stamp])
  {
    PresetAfterRun(declares, s, args, budget);
  }

  /** A run cut anywhere keeps every preset, in place or in a backup, if and only if it does not lose one. */
  lemma KeepsPresetsIff(declares: string -> bool, s: Root, args: Args, budget: nat)
    ensures KeepsPresets(declares, s, args, budget) <==> !Loses(s, args, budget)
  {
    if Loses(s, args, budget) {
      LostAfterRun(declares, s, args, budget);
    } else {
      forall text | Kept(s, text) ensures Kept(After(declares, s, Run(args, budget)), text) {
        KeptAfterRun(declares, s, args, budget, text);
      }
    }
  }

  ghost predicate AllKeepPresets(declares: string -> bool, s: Root, runs: seq<Run>)
    decreases |runs|
  {
    runs == [] ||
    (&& KeepsPresets(declares, s, runs[0].args, runs[0].budget)
     && AllKeepPresets(declares, After(declares, s, runs[0]), runs[1..]))
  }

  ghost predicate NoneLoses(declares: string -> bool, s: Root, runs: seq<Run>)
    decreases |runs|
  {
    runs == [] ||
    (!Loses(s, runs[0].args, runs[0].budget) && NoneLoses(declares, After(declares, s, runs[0]), runs[1..]))
  }

  /** Through any sequence of inits, each cut anywhere, every run keeps every preset if and only if none writes
      over the only copy of one. */
  lemma {:induction false} PresetsKeptIff(declares: string -> bool, s: Root, runs: seq<Run>)
    ensures AllKeepPresets(declares, s, runs) <==> NoneLoses(declares, s, runs)
    decreases |runs|
  {
    if runs != [] {
      assert runs[0] == Run(runs[0].args, runs[0].budget);
      KeepsPresetsIff(declares, s, runs[0].args, runs[0].budget);
      PresetsKeptIff(declares, After(declares, s, runs[0]), runs[1..]);
    }
  }

  /** In such a sequence a preset that was in place or in a backup still is at the end. */
  lemma {:induction false} PresetsAreKept(declares: string -> bool, s: Root, runs: seq<Run>, text: string)
    requires Kept(s, text) && NoneLoses(declares, s, runs)
    ensures Kept(AfterAll(declares, s, runs), text)
    decreases |runs|
  {
    if runs != [] {
      assert runs[0] == Run(runs[0].args, runs[0].budget);
      KeptAfterRun(declares, s, runs[0].args, runs[0].budget, text);
      PresetsAreKept(declares, After(declares, s, runs[0]), runs[1..], text);
    }
  }

  /** Two overwriting inits in one second: the preset that the first one saved is gone. */
  lemma SameSecondLosesAPreset(declares: string -> bool, s: Root, first: Args, second: Args)
    requires s.preset == Some("mine") && s.backups == map[] && s.marker.None?
    requires first.rendered == Some("a") && second.rendered == Some("b") && first.stamp == second.stamp
    requires second.force && second.overwritePreset
    ensures Kept(s, "mine") && !Kept(AfterAll(declares, s, [Run(first, 2), Run(second, 2)]), "mine")
  {
    var t := After(declares, s, Run(first, 2));
    PresetAfterRun(declares, s, first, 2);
    PresetAfterRun(declares, t, second, 2);
    var r := After(declares, t, Run(second, 2));
    assert r.preset == Some("b") && r.backups == map[first.stamp := "a"];
    assert "mine" != "a" && "mine" != "b";
    TwoRuns(declares, s, Run(first, 2), Run(second, 2));
  }

  lemma TwoRuns(declares: string -> bool, s: Root, first: Run, second: Run)
    ensures AfterAll(declares, s, [first, second]) == After(declares, After(declares, s, first), second)
  {
    assert [first, second][1..] == [second] && [second][1..] == [];
    var t := After(declares, s, first);
    assert AfterAll(declares, t, [second]) == After(declares, t, second);
  }

  lemma PresetLeftAlone(declares: string -> bool, s: Root, args: Args)
    requires !Replaces(s, args)
    ensures forall op :: op in Plan(declares, s, args) ==> !op.SavePreset? && !op.WritePreset?
  {
    MintSparesPreset(s, args);
    var plan := Plan(declares, s, args);
    if plan != [] {
      var a, b, c := PresetOps(s, args).value, MintOps(s, args).GetOr([]), FinalOps(s, args);
      assert a == [];
      forall op | op in plan ensures op in b || op in c {
        assert plan == a || plan == a + (b + c);
      }
    }
  }

  /** A plan that renders a preset puts it in place first and never again. */
  lemma AfterPreset(declares: string -> bool, s: Root, args: Args) returns (rest: seq<Op>)
    requires Replaces(s, args)
    ensures Plan(declares, s, args) == Replacing(s, args.stamp, args.rendered.value) + rest
    ensures forall op :: op in rest ==> !op.SavePreset? && !op.WritePreset?
  {
    MintSparesPreset(s, args);
    rest := if ReachesMint(declares, s, args) && MintOps(s, args).Some?
            then MintOps(s, args).value + FinalOps(s, args) else [];
    assert PresetOps(s, args) == Some(Replacing(s, args.stamp, args.rendered.value));
  }

  lemma MintSparesPreset(s: Root, args: Args)
    ensures forall op :: op in MintOps(s, args).GetOr([]) ==> !op.SavePreset? && !op.WritePreset?
    ensures forall op :: op in FinalOps(s, args) ==> !op.SavePreset? && !op.WritePreset?
  {
    StepKinds(s, args);
    forall op | op in FinalOps(s, args) ensures !op.SavePreset? && !op.WritePreset? {
      assert op in MarkerOps(s, args) || op in ServerOps(s, args);
    }
  }

  /** `--force` removes the marker before it recreates it: interrupted in between, the next plain
      `init` takes the root for a fresh one and replaces the operator's preset, which is left as a backup. */
  lemma InterruptedForceReplacesThePreset(declares: string -> bool, s: Root, forced: Args, plain: Args)
    requires s.marker.Some? && s.preset.Some? && declares(s.preset.value) && OwnerHasActive(s.keys, BOOTSTRAP_IDENTITY)
    requires forced.force && !forced.overwritePreset
    requires !plain.force && !plain.overwritePreset && plain.rendered.Some?
    ensures var cut := After(declares, s, Run(forced, 1));
            && cut.marker.None? && cut.preset == s.preset
            && forall budget: nat :: budget >= 2 ==>
                 var r := After(declares, cut, Run(plain, budget));
                 r.preset == plain.rendered && r.backups == s.backups[plain.stamp := s.preset.value]
  {
    var plan := Plan(declares, s, forced);
    assert plan == [] + ([] + FinalOps(s, forced));
    assert plan[0] == RemoveMarker;
    var cut := After(declares, s, Run(forced, 1));
    assert cut == RunCut(Apply(s, plan[0]), plan[1..], 0);
    forall budget: nat | budget >= 2
      ensures var r := After(declares, cut, Run(plain, budget));
              r.preset == plain.rendered && r.backups == s.backups[plain.stamp := s.preset.value]
    {
      PresetAfterRun(declares, cut, plain, budget);
    }
  }

  // ---------------------------------------------------------------- the command

  /** The root directory as `init` changes it, with a fault after `budget` writes. */
  class RootDir {
    var marker: Option<string>
    var preset: Option<string>
    var backups: map<string, string>
    var server: ServerToml
    var tokenFile: Option<string>
    var keyFile: Option<string>
    var keys: Table
    var budget: nat

    ghost function State(): Root
      reads this
    {
      Root(marker, preset, backups, server, tokenFile, keyFile, keys)
    }

    constructor (budget: nat)
      ensures State() == Root(None, None, map[], Missing, None, None, []) && this.budget == budget
    {
      marker, preset, backups, server, tokenFile, keyFile, keys := None, None, map[], Missing, None, None, [];
      this.budget := budget;
    }

    method Perform(op: Op) returns (ok: bool)
      modifies this
      ensures ok == (old(budget) > 0) && budget == (if ok then old(budget) - 1 else 0)
      ensures State() == (if ok then Apply(old(State()), op) else old(State()))
    {
      if budget == 0 {
        return false;
      }
      budget := budget - 1;
      match op {
        case SavePreset(stamp, text) => backups := backups[stamp := text];
        case WritePreset(text) => preset := Some(text);
        case InsertKey(key) => keys := keys + [key];
        case RemoveKeyFile => keyFile := None;
        case CreateKeyFile(secret) => keyFile := Some(secret);
        case RemoveMarker => marker := None;
        case CreateMarker(bearer) => marker := Some(bearer);
        case WriteServer(tree) => server := Doc(tree);
        case RemoveTokenFile => tokenFile := None;
        case CreateTokenFile(token) => tokenFile := Some(token);
      }
      return true;
    }

    method PerformAll(ops: seq<Op>) returns (ok: bool)
      modifies this
      ensures State() == RunCut(old(State()), ops, old(budget))
      ensures ok == (|ops| <= old(budget)) && budget == (if ok then old(budget) - |ops| else 0)
    {
      ok := true;
      var rest := ops;
      while rest != []
        invariant RunCut(State(), rest, budget) == RunCut(old(State()), ops, old(budget))
        invariant old(budget) - budget == |ops| - |rest|
        decreases |rest|
      {
        ok := Perform(rest[0]);
        if !ok {
          return;
        }
        rest := rest[1..];
      }
    }

    /** The preset, the check that it declares the bootstrap identity, the key, then the rest. */
    method Phases(declares: string -> bool, a: seq<Op>, b: Option<seq<Op>>, c: seq<Op>, ghost text: string)
      returns (ok: bool)
      requires |a| <= budget ==> RunCut(State(), a, budget).preset == Some(text)
      modifies this
      ensures State() == RunCut(old(State()), if declares(text) && b.Some? then a + (b.value + c) else a, old(budget))
      ensures ok <==> declares(text) && b.Some? && |a + (b.value + c)| <= old(budget)
    {
      if b.Some? {
        PhasedRun(State(), a, b.value, c, budget);
      }
      ok := PerformAll(a);
      if !ok {
        return false;
      }
      if !declares(preset.value) {
        return false;
      }
      if b.None? {
        return false;
      }
      ok := PerformAll(b.value);
      if !ok {
        return false;
      }
      ok := PerformAll(c);
    }

    method Init(declares: string -> bool, args: Args) returns (ok: bool)
      modifies this
      ensures State() == RunCut(old(State()), Plan(declares, old(State()), args), old(budget))
      ensures ok <==> Succeeds(declares, old(State()), args, old(budget))
    {
      if marker.Some? && !args.force {
        return false;
      }
      if !(preset.Some? && marker.Some? && !args.overwritePreset) {
        if args.rendered.None? {
          return false;
        }
      }
      var r := Root(marker, preset, backups, server, tokenFile, keyFile, keys);
      var a := PresetOps(r, args).value;
      if |a| <= budget {
        PresetWritten(r, args, budget);
      }
      PlanParts(declares, r, args, budget);
      ok := Phases(declares, a, MintOps(r, args), FinalOps(r, args), PresetInForce(r, args));
      if ok {
        var tree := NewServer(r, args);
        ok := tree.Some? && TokenIn(tree.value).Some? && TokenIn(tree.value).value.Str?;
      }
    }
  }

  lemma PlanParts(declares: string -> bool, s: Root, args: Args, budget: nat)
    requires (s.marker.Some? ==> args.force) && PresetOps(s, args).Some?
    ensures var a, b, c := PresetOps(s, args).value, MintOps(s, args), FinalOps(s, args);
            var declared := declares(PresetInForce(s, args));
            && Plan(declares, s, args) == (if declared && b.Some? then a + (b.value + c) else a)
            && (Succeeds(declares, s, args, budget) <==>
                  && declared && b.Some? && |a + (b.value + c)| <= budget
                  && NewServer(s, args).Some? && TokenIn(NewServer(s, args).value).Some?
                  && TokenIn(NewServer(s, args).value).value.Str?)
  {
  }

  lemma PresetWritten(s: Root, args: Args, budget: nat)
    requires PresetOps(s, args).Some? && budget >= |PresetOps(s, args).value|
    ensures RunCut(s, PresetOps(s, args).value, budget).preset == Some(PresetInForce(s, args))
  {
    if !KeepsPreset(s, args) {
      ReplacedState(s, args.stamp, PresetInForce(s, args), budget);
    }
  }
}
