/** The ACL engine: compiled glob sets, and the rule over the preset's own patterns that they implement. */
module AclEngine {
  import opened Wrappers
  import opened Text

  /** The glob library: which patterns compile, and what they match. */
  datatype Globs = Globs(valid: string -> bool, matches: (string, string) -> bool)

  datatype Op = Read | Write

  datatype Decision = Allow | DenyExplicit | DenyImplicit

  datatype Trust =
    | Unauthenticated
    | BearerToken(sub: string, tenantId: string)
    | Studio(user: string)
    | Mtls(cn: string)

  datatype Consumer = Consumer(identity: string, readPatterns: seq<string>, writePatterns: seq<string>)

  /** A pattern list split into its allow and its deny set. */
  datatype Split = Split(allow: seq<string>, deny: seq<string>)

  datatype Compiled = Compiled(identity: string, read: Split, write: Split)

  // ---------------------------------------------------------------- compilation

  predicate IsNegation(p: string) {
    p != [] && p[0] == '!'
  }

  function GlobOf(p: string): string {
    if IsNegation(p) then p[1..] else p
  }

  /** The deny set holds exactly the negations, without their `!`; the allow set the other patterns. */
  ghost predicate SplitOf(patterns: seq<string>, s: Split) {
    && (forall g :: g in s.allow <==> g in patterns && !IsNegation(g))
    && (forall g :: g in s.deny <==> "!" + g in patterns)
  }

  ghost predicate AllValid(globs: Globs, patterns: seq<string>) {
    forall p <- patterns :: globs.valid(GlobOf(p))
  }

  method SplitPatterns(globs: Globs, patterns: seq<string>) returns (r: Option<Split>)
    ensures r.Some? <==> AllValid(globs, patterns)
    ensures r.Some? ==> SplitOf(patterns, r.value)
  {
    var allow, deny: seq<string> := [], [];
    for n := 0 to |patterns|
      invariant AllValid(globs, patterns[..n]) && SplitOf(patterns[..n], Split(allow, deny))
    {
      var p := patterns[n];
      assert patterns[..n + 1] == patterns[..n] + [p];
      assert p in patterns;
      if p != [] && p[0] == '!' {
        var rest := p[1..];
        assert p == "!" + rest;
        assert forall g: string :: "!" + g == p ==> g == ("!" + g)[1..] == rest;
        if !globs.valid(rest) {
          return None;
        }
        deny := deny + [rest];
      } else {
        assert forall g: string :: ("!" + g)[0] == '!';
        if !globs.valid(p) {
          return None;
        }
        allow := allow + [p];
      }
    }
    assert patterns[..|patterns|] == patterns;
    r := Some(Split(allow, deny));
  }

  ghost predicate CompiledFrom(c: Consumer, k: Compiled) {
    k.identity == c.identity && SplitOf(c.readPatterns, k.read) && SplitOf(c.writePatterns, k.write)
  }

  ghost predicate Compiles(globs: Globs, c: Consumer) {
    AllValid(globs, c.readPatterns) && AllValid(globs, c.writePatterns)
  }

  ghost predicate EngineOf(preset: seq<Consumer>, engine: seq<Compiled>) {
    |engine| == |preset| && forall i :: 0 <= i < |preset| ==> CompiledFrom(preset[i], engine[i])
  }

  /** The engine loads if and only if every pattern compiles. */
  method CompilePreset(globs: Globs, preset: seq<Consumer>) returns (r: Option<seq<Compiled>>)
    ensures r.Some? <==> forall c <- preset :: Compiles(globs, c)
    ensures r.Some? ==> EngineOf(preset, r.value)
  {
    var engine := [];
    for n := 0 to |preset|
      invariant forall c <- preset[..n] :: Compiles(globs, c)
      invariant EngineOf(preset[..n], engine)
    {
      assert preset[..n + 1] == preset[..n] + [preset[n]];
      assert preset[n] in preset;
      var read := SplitPatterns(globs, preset[n].readPatterns);
      if read.None? {
        return None;
      }
      var write := SplitPatterns(globs, preset[n].writePatterns);
      if write.None? {
        return None;
      }
      engine := engine + [Compiled(preset[n].identity, read.value, write.value)];
    }
    assert preset[..|preset|] == preset;
    r := Some(engine);
  }

  // ---------------------------------------------------------------- evaluation

  function IsMatch(globs: Globs, globSet: seq<string>, locus: string): (b: bool)
    ensures b <==> exists g :: g in globSet && globs.matches(g, locus)
  {
    globSet != [] && (globs.matches(globSet[0], locus) || IsMatch(globs, globSet[1..], locus))
  }

  /** Index of the first consumer with the identity. */
  function FindConsumer(engine: seq<Compiled>, identity: string): (r: Option<nat>)
    ensures r.Some? ==> r.value < |engine| && engine[r.value].identity == identity
    ensures forall i :: 0 <= i < |engine| && (r.Some? ==> i < r.value) ==> engine[i].identity != identity
  {
    if engine == [] then None
    else if engine[0].identity == identity then Some(0)
    else
      var r := FindConsumer(engine[1..], identity);
      if r.None? then None else Some(r.value + 1)
  }

  function IdentityOf(trust: Trust): Option<string> {
    match trust
    case Unauthenticated => None
    case BearerToken(sub, _) => Some(sub)
    case Studio(user) => Some(user)
    case Mtls(cn) => Some(cn)
  }

  /** The locus is a tenant root, a single segment, of another tenant than the token's. */
  predicate ForeignRoot(trust: Trust, locus: string) {
    trust.BearerToken? && '/' !in locus && locus != [] && locus != trust.tenantId
  }

  function HasIdentity(engine: seq<Compiled>, identity: string): bool {
    exists i :: 0 <= i < |engine| && engine[i].identity == identity
  }

  function Evaluate(globs: Globs, engine: seq<Compiled>, trust: Trust, op: Op, locus: string): Decision {
    var identity := IdentityOf(trust);
    if identity.None? then DenyImplicit
    else
      var found := FindConsumer(engine, identity.value);
      if found.None? then DenyImplicit
      else if ForeignRoot(trust, locus) then DenyExplicit
      else
        var c := engine[found.value];
        var split := if op.Read? then c.read else c.write;
        if IsMatch(globs, split.deny, locus) then DenyExplicit
        else if IsMatch(globs, split.allow, locus) then Allow
        else DenyImplicit
  }

  function MessagingLocus(recipient: string): string {
    "messaging/" + recipient
  }

  function EvaluateMessagingSend(globs: Globs, engine: seq<Compiled>, trust: Trust, recipient: string): Decision {
    Evaluate(globs, engine, trust, Write, MessagingLocus(recipient))
  }

  // ---------------------------------------------------------------- the rule over the preset

  function PatternsFor(c: Consumer, op: Op): seq<string> {
    if op.Read? then c.readPatterns else c.writePatterns
  }

  /** The consumer that answers for an identity: the first that declares it. */
  ghost predicate Answers(preset: seq<Consumer>, i: int, identity: string) {
    && 0 <= i < |preset| && preset[i].identity == identity
    && forall j :: 0 <= j < i ==> preset[j].identity != identity
  }

  ghost predicate Denied(globs: Globs, patterns: seq<string>, locus: string) {
    exists g :: "!" + g in patterns && globs.matches(g, locus)
  }

  ghost predicate Granted(globs: Globs, patterns: seq<string>, locus: string) {
    exists g :: g in patterns && !IsNegation(g) && globs.matches(g, locus)
  }

  ghost predicate Declared(preset: seq<Consumer>, identity: Option<string>) {
    identity.Some? && exists i :: Answers(preset, i, identity.value)
  }

  lemma FoundAnswers(preset: seq<Consumer>, engine: seq<Compiled>, identity: string)
    requires EngineOf(preset, engine)
    ensures FindConsumer(engine, identity).Some? <==> Declared(preset, Some(identity))
    ensures forall i :: Answers(preset, i, identity) ==> FindConsumer(engine, identity) == Some(i)
  {
    var r := FindConsumer(engine, identity);
    if r.Some? {
      assert Answers(preset, r.value, identity);
    }
    forall i | Answers(preset, i, identity) ensures r == Some(i) {
      assert engine[i].identity == identity;
    }
  }

  /** For a declared identity the compiled engine decides as the preset's own patterns say. */
  lemma EvaluateDeclared(globs: Globs, preset: seq<Consumer>, engine: seq<Compiled>, trust: Trust, op: Op,
                         locus: string, i: int)
    requires EngineOf(preset, engine) && IdentityOf(trust).Some? && Answers(preset, i, IdentityOf(trust).value)
    ensures var patterns, d := PatternsFor(preset[i], op), Evaluate(globs, engine, trust, op, locus);
            && (d == DenyExplicit <==> ForeignRoot(trust, locus) || Denied(globs, patterns, locus))
            && (d == Allow <==>
                  !ForeignRoot(trust, locus) && !Denied(globs, patterns, locus) && Granted(globs, patterns, locus))
  {
    FoundAnswers(preset, engine, IdentityOf(trust).value);
    assert CompiledFrom(preset[i], engine[i]);
  }

  /** Everyone else, and an unauthenticated caller, is denied by default. */
  lemma EvaluateUndeclared(globs: Globs, preset: seq<Consumer>, engine: seq<Compiled>, trust: Trust, op: Op,
                           locus: string)
    requires EngineOf(preset, engine) && !Declared(preset, IdentityOf(trust))
    ensures Evaluate(globs, engine, trust, op, locus) == DenyImplicit
  {
    if IdentityOf(trust).Some? {
      FoundAnswers(preset, engine, IdentityOf(trust).value);
    }
  }

  // ---------------------------------------------------------------- each kind of caller

  /** What one consumer's patterns say of a locus. */
  ghost function ByPatterns(globs: Globs, patterns: seq<string>, locus: string): Decision {
    if Denied(globs, patterns, locus) then DenyExplicit
    else if Granted(globs, patterns, locus) then Allow
    else DenyImplicit
  }

  /** A bearer token answers to its subject; its tenant decides only on single-segment loci, and there refuses
      every tenant but its own. */
  lemma BearerDecision(globs: Globs, preset: seq<Consumer>, engine: seq<Compiled>, sub: string, tenant: string,
                       op: Op, locus: string, i: int)
    requires EngineOf(preset, engine) && Answers(preset, i, sub)
    ensures Evaluate(globs, engine, BearerToken(sub, tenant), op, locus)
         == if locus != "" && '/' !in locus && locus != tenant then DenyExplicit
            else match op
              case Read => ByPatterns(globs, preset[i].readPatterns, locus)
              case Write => ByPatterns(globs, preset[i].writePatterns, locus)
  {
    EvaluateDeclared(globs, preset, engine, BearerToken(sub, tenant), op, locus, i);
  }

  /** A Studio user and a client certificate answer to their name on every locus. */
  lemma NamedDecision(globs: Globs, preset: seq<Consumer>, engine: seq<Compiled>, name: string, op: Op,
                      locus: string, i: int)
    requires EngineOf(preset, engine) && Answers(preset, i, name)
    ensures var d := match op
              case Read => ByPatterns(globs, preset[i].readPatterns, locus)
              case Write => ByPatterns(globs, preset[i].writePatterns, locus);
            && Evaluate(globs, engine, Studio(name), op, locus) == d
            && Evaluate(globs, engine, Mtls(name), op, locus) == d
  {
    EvaluateDeclared(globs, preset, engine, Studio(name), op, locus, i);
    EvaluateDeclared(globs, preset, engine, Mtls(name), op, locus, i);
  }

  /** A name that no consumer declares is denied by default, in every kind of trust, and so is a caller without
      one: a token's tenant or the locus changes nothing. */
  lemma UnknownDecision(globs: Globs, preset: seq<Consumer>, engine: seq<Compiled>, name: string, tenant: string,
                        op: Op, locus: string)
    requires EngineOf(preset, engine)
    ensures Evaluate(globs, engine, Unauthenticated, op, locus) == DenyImplicit
    ensures HasIdentity(engine, name) <==> exists i :: 0 <= i < |preset| && preset[i].identity == name
    ensures !HasIdentity(engine, name) ==>
              && Evaluate(globs, engine, BearerToken(name, tenant), op, locus) == DenyImplicit
              && Evaluate(globs, engine, Studio(name), op, locus) == DenyImplicit
              && Evaluate(globs, engine, Mtls(name), op, locus) == DenyImplicit
  {
    EvaluateUndeclared(globs, preset, engine, Unauthenticated, op, locus);
    assert forall i :: 0 <= i < |preset| ==> preset[i].identity == engine[i].identity;
    if !HasIdentity(engine, name) {
      assert !Declared(preset, Some(name));
      EvaluateUndeclared(globs, preset, engine, BearerToken(name, tenant), op, locus);
      EvaluateUndeclared(globs, preset, engine, Studio(name), op, locus);
      EvaluateUndeclared(globs, preset, engine, Mtls(name), op, locus);
    }
  }

  /** A message is decided by the sender's write patterns alone: tenant isolation never applies to a channel. */
  lemma MessagingIgnoresTenant(globs: Globs, preset: seq<Consumer>, engine: seq<Compiled>, sub: string, tenant: string,
                               recipient: string, i: int)
    requires EngineOf(preset, engine) && Answers(preset, i, sub)
    ensures var d := ByPatterns(globs, preset[i].writePatterns, "messaging/" + recipient);
            && EvaluateMessagingSend(globs, engine, BearerToken(sub, tenant), recipient) == d
            && EvaluateMessagingSend(globs, engine, Studio(sub), recipient) == d
            && EvaluateMessagingSend(globs, engine, Mtls(sub), recipient) == d
  {
    var locus := "messaging/" + recipient;
    assert locus[9] == '/';
    BearerDecision(globs, preset, engine, sub, tenant, Write, locus, i);
    NamedDecision(globs, preset, engine, sub, Write, locus, i);
  }

  /** No bearer is allowed on the root of another tenant, whatever the preset says of it, and a bearer no consumer
      declares on nothing at all. */
  lemma NeverAllowed(globs: Globs, preset: seq<Consumer>, engine: seq<Compiled>, sub: string, tenant: string, op: Op,
                     locus: string)
    requires EngineOf(preset, engine)
    requires (locus != "" && '/' !in locus && locus != tenant) || forall c <- preset :: c.identity != sub
    ensures Evaluate(globs, engine, BearerToken(sub, tenant), op, locus) != Allow
  {
    UnknownDecision(globs, preset, engine, sub, tenant, op, locus);
    if Declared(preset, Some(sub)) {
      var i :| Answers(preset, i, sub);
      assert preset[i] in preset;
      BearerDecision(globs, preset, engine, sub, tenant, op, locus, i);
    } else {
      EvaluateUndeclared(globs, preset, engine, BearerToken(sub, tenant), op, locus);
    }
  }

  // ---------------------------------------------------------------- laws of presets

  ghost predicate SameMembers(a: seq<string>, b: seq<string>) {
    forall p :: p in a <==> p in b
  }

  /** The same consumers in the same order, with their patterns permuted or repeated. */
  ghost predicate SamePatterns(a: seq<Consumer>, b: seq<Consumer>) {
    && |a| == |b|
    && forall i :: 0 <= i < |a| ==>
                     a[i].identity == b[i].identity && SameMembers(a[i].readPatterns, b[i].readPatterns)
                     && SameMembers(a[i].writePatterns, b[i].writePatterns)
  }

  /** The order of patterns does not matter. */
  lemma PatternOrderIsIrrelevant(globs: Globs, a: seq<Consumer>, b: seq<Consumer>, x: seq<Compiled>, y: seq<Compiled>,
                                 trust: Trust, op: Op, locus: string)
    requires SamePatterns(a, b) && EngineOf(a, x) && EngineOf(b, y)
    ensures Evaluate(globs, x, trust, op, locus) == Evaluate(globs, y, trust, op, locus)
  {
    if Declared(a, IdentityOf(trust)) {
      var i :| Answers(a, i, IdentityOf(trust).value);
      assert Answers(b, i, IdentityOf(trust).value);
      EvaluateDeclared(globs, a, x, trust, op, locus, i);
      EvaluateDeclared(globs, b, y, trust, op, locus, i);
      assert SameMembers(PatternsFor(a[i], op), PatternsFor(b[i], op));
    } else {
      EvaluateUndeclared(globs, a, x, trust, op, locus);
      if Declared(b, IdentityOf(trust)) {
        var i :| Answers(b, i, IdentityOf(trust).value);
        assert Answers(a, i, IdentityOf(trust).value);
      }
      EvaluateUndeclared(globs, b, y, trust, op, locus);
    }
  }

  /** The same consumers; `b` has the patterns of `a` and possibly more negations. */
  ghost predicate MoreNegations(a: seq<Consumer>, b: seq<Consumer>) {
    && |a| == |b|
    && forall i :: 0 <= i < |a| ==>
                     a[i].identity == b[i].identity && OnlyNegationsAdded(a[i].readPatterns, b[i].readPatterns)
                     && OnlyNegationsAdded(a[i].writePatterns, b[i].writePatterns)
  }

  ghost predicate OnlyNegationsAdded(a: seq<string>, b: seq<string>) {
    forall p :: (p in a ==> p in b) && (p in b && !IsNegation(p) ==> p in a)
  }

  /** Adding negations anywhere never turns a denial into an allow. */
  lemma NegationsNeverAllow(globs: Globs, a: seq<Consumer>, b: seq<Consumer>, x: seq<Compiled>, y: seq<Compiled>,
                            trust: Trust, op: Op, locus: string)
    requires MoreNegations(a, b) && EngineOf(a, x) && EngineOf(b, y)
    requires Evaluate(globs, y, trust, op, locus) == Allow
    ensures Evaluate(globs, x, trust, op, locus) == Allow
  {
    if !Declared(b, IdentityOf(trust)) {
      EvaluateUndeclared(globs, b, y, trust, op, locus);
      assert false;
    }
    var i :| Answers(b, i, IdentityOf(trust).value);
    assert Answers(a, i, IdentityOf(trust).value);
    EvaluateDeclared(globs, b, y, trust, op, locus, i);
    EvaluateDeclared(globs, a, x, trust, op, locus, i);
    assert OnlyNegationsAdded(PatternsFor(a[i], op), PatternsFor(b[i], op));
  }

  // ---------------------------------------------------------------- `acl validate`

  predicate NoPositive(patterns: seq<string>) {
    forall p <- patterns :: IsNegation(p) || Trim(p) == []
  }

  /** `consumers_with_no_positive_read_pattern`. */
  function Warned(preset: seq<Consumer>): (ids: seq<string>)
    ensures forall id :: id in ids <==>
              exists i :: 0 <= i < |preset| && preset[i].identity == id && NoPositive(preset[i].readPatterns)
  {
    if preset == [] then []
    else (if NoPositive(preset[0].readPatterns) then [preset[0].identity] else []) + Warned(preset[1..])
  }

  predicate NegatedOrBlank(p: string) {
    (p != "" && p[0] == '!') || forall c <- p :: IsWhitespace(c)
  }

  /** The warning names an identity if and only if one of its declarations has only negated and blank patterns to
      read with. */
  lemma WarnedIff(preset: seq<Consumer>, id: string)
    ensures id in Warned(preset) <==>
              exists i :: 0 <= i < |preset| && preset[i].identity == id
                          && forall p <- preset[i].readPatterns :: NegatedOrBlank(p)
  {
    forall p: string ensures IsNegation(p) || Trim(p) == [] <==> NegatedOrBlank(p) {
      TrimBlankIff(p);
    }
    forall i | 0 <= i < |preset|
      ensures NoPositive(preset[i].readPatterns) <==> forall p <- preset[i].readPatterns :: NegatedOrBlank(p)
    {
    }
  }

  /** A blank pattern matches no locus but a blank one. */
  ghost predicate BlankMatchesBlank(globs: Globs) {
    forall p: string, locus: string :: Trim(p) == [] && globs.matches(p, locus) ==> Trim(locus) == []
  }

  ghost predicate UniqueIdentities(preset: seq<Consumer>) {
    forall i, j :: 0 <= i < j < |preset| ==> preset[i].identity != preset[j].identity
  }

  /** No glob library that keeps blanks apart lets this caller read a locus that is not blank. */
  ghost predicate ReadsNothing(engine: seq<Compiled>, trust: Trust) {
    forall globs: Globs, locus: string :: BlankMatchesBlank(globs) && Trim(locus) != [] ==>
                                            Evaluate(globs, engine, trust, Read, locus) != Allow
  }

  /** Every positive pattern is blank, or stands negated in the same list. */
  ghost predicate AllCancelled(patterns: seq<string>) {
    forall p :: p in patterns ==> IsNegation(p) || Trim(p) == [] || "!" + p in patterns
  }

  /** A glob library in which `p` matches every locus that is not blank, and nothing else matches anything. */
  ghost function OnlyMatches(p: string): Globs {
    Globs(g => true, (g: string, locus: string) => g == p && Trim(locus) != [])
  }

  lemma UncancelledReads(preset: seq<Consumer>, engine: seq<Compiled>, trust: Trust, i: int, p: string)
    requires EngineOf(preset, engine) && IdentityOf(trust).Some? && Answers(preset, i, IdentityOf(trust).value)
    requires var patterns := preset[i].readPatterns;
             p in patterns && !IsNegation(p) && Trim(p) != [] && "!" + p !in patterns
    ensures !ReadsNothing(engine, trust)
  {
    var globs, locus := OnlyMatches(p), "a/b";
    assert Trim(locus) == locus;
    assert BlankMatchesBlank(globs);
    assert locus[1] == '/' && !ForeignRoot(trust, locus);
    EvaluateDeclared(globs, preset, engine, trust, Read, locus, i);
    assert globs.matches(p, locus);
    assert Evaluate(globs, engine, trust, Read, locus) == Allow;
  }

  /** A caller reads nothing, whatever the glob library, if and only if the consumer that answers for it has
      every positive read pattern cancelled by its own negation. */
  lemma ReadsNothingIff(preset: seq<Consumer>, engine: seq<Compiled>, trust: Trust, i: int)
    requires EngineOf(preset, engine) && IdentityOf(trust).Some? && Answers(preset, i, IdentityOf(trust).value)
    ensures ReadsNothing(engine, trust) <==> AllCancelled(preset[i].readPatterns)
  {
    var patterns := preset[i].readPatterns;
    if AllCancelled(patterns) {
      forall globs: Globs, locus: string | BlankMatchesBlank(globs) && Trim(locus) != []
        ensures Evaluate(globs, engine, trust, Read, locus) != Allow
      {
        EvaluateDeclared(globs, preset, engine, trust, Read, locus, i);
        if Granted(globs, patterns, locus) {
          var g :| g in patterns && !IsNegation(g) && globs.matches(g, locus);
          assert "!" + g in patterns;
        }
      }
    } else {
      var p :| p in patterns && !(IsNegation(p) || Trim(p) == [] || "!" + p in patterns);
      UncancelledReads(preset, engine, trust, i, p);
    }
  }

  /** The warning tells the truth of an identity it names if the declaration that answers is one it names it
      for; in particular whenever identities are unique. */
  lemma WarnedReadsNothing(preset: seq<Consumer>, engine: seq<Compiled>, trust: Trust, i: int)
    requires EngineOf(preset, engine) && IdentityOf(trust).Some? && Answers(preset, i, IdentityOf(trust).value)
    requires NoPositive(preset[i].readPatterns)
             || (UniqueIdentities(preset) && IdentityOf(trust).value in Warned(preset))
    ensures ReadsNothing(engine, trust)
  {
    assert NoPositive(preset[i].readPatterns);
    ReadsNothingIff(preset, engine, trust, i);
  }

  /** With a repeated identity the warning can name a consumer that does read. */
  lemma RepeatedIdentityIsWarnedYetReads(globs: Globs, engine: seq<Compiled>, id: string, glob: string, locus: string)
    requires !IsNegation(glob) && globs.matches(glob, locus)
    requires EngineOf([Consumer(id, [glob], []), Consumer(id, [], [])], engine)
    ensures id in Warned([Consumer(id, [glob], []), Consumer(id, [], [])])
    ensures Evaluate(globs, engine, Studio(id), Read, locus) == Allow
  {
    var preset := [Consumer(id, [glob], []), Consumer(id, [], [])];
    assert NoPositive(preset[1].readPatterns);
    assert Answers(preset, 0, id);
    EvaluateDeclared(globs, preset, engine, Studio(id), Read, locus, 0);
    assert glob in preset[0].readPatterns;
    assert forall g: string :: ("!" + g)[0] == '!';
  }
}
