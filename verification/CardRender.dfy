/** The project-map card printed for a CHANGELOG entry, and the typed links read back from it. */
module CardRender {
  import opened ChangelogParse
  import opened ProjectCard

  datatype Card = Card(title: string, body: string, tags: seq<string>, sectionHint: string)

  function KindWire(k: Kind): string {
    match k
    case Feature => "FEATURE"
    case Enhancement => "ENHANCEMENT"
    case Fix => "FIX"
    case Task => "TASK"
  }

  function KindTag(k: Kind): string {
    match k
    case Feature => "feature"
    case Enhancement => "enhancement"
    case Fix => "fix"
    case Task => "task"
  }

  /** `replace("[[", "[ [")`: one pass, occurrences taken from the left without overlap. */
  function Escape(t: string): string {
    if t == [] then []
    else if |t| >= 2 && t[0] == '[' && t[1] == '[' then "[ [" + Escape(t[2..])
    else [t[0]] + Escape(t[1..])
  }

  function Tail(title: string, marker: string): string {
    "\n\n" + Escape(title) + After(marker)
  }

  function After(marker: string): string {
    "\n\n<!-- pm-source: " + marker + " -->"
  }

  /** `lead`, then `[[key:value]]`, then `tail`. */
  function Print(lead: string, key: string, value: string, tail: string): string {
    lead + "[[" + (key + ":" + value) + "]]" + tail
  }

  /** The wikilink line `[[project:gradatum]] [[status:OPEN]] [[kind:…]] [[version:gradatum/…]]`, then the tail. */
  function Header(kindWire: string, version: string, tail: string): string {
    Print("", "project", "gradatum",
          Print(" ", "status", "OPEN",
                Print(" ", "kind", kindWire, Print(" ", "version", "gradatum/" + version, tail))))
  }

  function Body(kind: Kind, version: string, title: string, marker: string): string {
    Header(KindWire(kind), version, Tail(title, marker))
  }

  function RenderCard(e: Entry): Card {
    Card("[PROJECT-MAP][gradatum] " + e.title + " — v" + e.version,
         Body(e.kind, e.version, e.title, e.marker),
         ["project-map", "v" + e.version, KindTag(e.kind)],
         "project-map")
  }

  /** The links the project-map schema asks of a card. */
  function RequiredLinks(kindWire: string, version: string): seq<Link> {
    [Link("project", "gradatum"), Link("status", "OPEN"),
     Link("kind", kindWire), Link("version", "gradatum/" + version)]
  }

  // ---------------------------------------------------------------- reading the card back

  /** A typed link printed behind quiet text is the first one read. */
  lemma ReadLink(lead: string, key: string, value: string, tail: string)
    requires Quiet(lead) && ':' !in key && ']' !in key && ']' !in value
    ensures Links(Print(lead, key, value, tail)) == [Link(key, value)] + Links(tail)
  {
    ReadPrinted(lead, key + ":" + value, tail);
    SplitAt(key, ':', value);
  }

  lemma ReadTwo(lead: string, key: string, value: string, key': string, value': string, tail: string)
    requires Quiet(lead) && ':' !in key && ']' !in key && ']' !in value
    requires ':' !in key' && ']' !in key' && ']' !in value'
    ensures Links(Print(lead, key, value, Print(" ", key', value', tail)))
            == [Link(key, value), Link(key', value')] + Links(tail)
  {
    ReadLink(" ", key', value', tail);
    var rest := Print(" ", key', value', tail);
    ReadLink(lead, key, value, rest);
  }

  lemma ReadKindAndVersion(kindWire: string, version: string, tail: string)
    requires ']' !in kindWire && ']' !in version
    ensures Links(Print(" ", "kind", kindWire, Print(" ", "version", "gradatum/" + version, tail)))
            == [Link("kind", kindWire), Link("version", "gradatum/" + version)] + Links(tail)
  {
    ReadTwo(" ", "kind", kindWire, "version", "gradatum/" + version, tail);
  }

  lemma ReadProjectAndStatus(tail: string)
    ensures Links(Print("", "project", "gradatum", Print(" ", "status", "OPEN", tail)))
            == [Link("project", "gradatum"), Link("status", "OPEN")] + Links(tail)
  {
    ReadTwo("", "project", "gradatum", "status", "OPEN", tail);
  }

  /** The four required links come first, in order, whatever follows them. */
  lemma HeaderLinks(kindWire: string, version: string, tail: string)
    requires ']' !in kindWire && ']' !in version
    ensures Links(Header(kindWire, version, tail)) == RequiredLinks(kindWire, version) + Links(tail)
  {
    ReadKindAndVersion(kindWire, version, tail);
    ReadProjectAndStatus(Print(" ", "kind", kindWire, Print(" ", "version", "gradatum/" + version, tail)));
  }

  lemma CardLinks(kind: Kind, version: string, title: string, marker: string)
    requires ']' !in version
    ensures Links(Body(kind, version, title, marker))
            == RequiredLinks(KindWire(kind), version) + Links(Tail(title, marker))
  {
    HeaderLinks(KindWire(kind), version, Tail(title, marker));
  }

  // ---------------------------------------------------------------- the escape

  ghost predicate HasOpening(s: string) {
    exists i :: Doubled(s, '[', i)
  }

  /** Three brackets in a row: two openings that overlap. */
  ghost predicate HasTriple(s: string) {
    exists i :: Doubled(s, '[', i) && Doubled(s, '[', i + 1)
  }

  lemma OpeningCons(s: string)
    requires s != []
    ensures HasOpening(s) <==> Doubled(s, '[', 0) || HasOpening(s[1..])
  {
    if HasOpening(s) && !Doubled(s, '[', 0) {
      var i :| Doubled(s, '[', i);
      assert Doubled(s[1..], '[', i - 1);
    }
    if HasOpening(s[1..]) {
      var i :| Doubled(s[1..], '[', i);
      assert Doubled(s, '[', i + 1);
    }
  }

  lemma TripleCons(s: string)
    requires s != []
    ensures HasTriple(s) <==> (Doubled(s, '[', 0) && Doubled(s, '[', 1)) || HasTriple(s[1..])
  {
    if HasTriple(s) && !(Doubled(s, '[', 0) && Doubled(s, '[', 1)) {
      var i :| Doubled(s, '[', i) && Doubled(s, '[', i + 1);
      assert i > 0;
      assert Doubled(s[1..], '[', i - 1) && Doubled(s[1..], '[', (i - 1) + 1);
    }
    if HasTriple(s[1..]) {
      var i :| Doubled(s[1..], '[', i) && Doubled(s[1..], '[', i + 1);
      assert Doubled(s, '[', i + 1) && Doubled(s, '[', (i + 1) + 1);
    }
    if Doubled(s, '[', 0) && Doubled(s, '[', 1) {
      assert Doubled(s, '[', 0 + 1);
    }
  }

  lemma EscapeHead(t: string)
    ensures |Escape(t)| >= 1 <==> |t| >= 1
    ensures |t| >= 1 ==> Escape(t)[0] == t[0]
  {
  }

  lemma EscapedPairStep(rest: string)
    ensures HasOpening("[ [" + rest) <==> (rest != [] && rest[0] == '[') || HasOpening(rest)
  {
    var s, s', s'' := "[ [" + rest, " [" + rest, "[" + rest;
    assert s[1..] == s' && s'[1..] == s'' && s''[1..] == rest;
    OpeningCons(s);
    OpeningCons(s');
    OpeningCons(s'');
  }

  lemma PairStep(t: string)
    requires |t| >= 2 && t[0] == '[' && t[1] == '['
    ensures HasTriple(t) <==> (|t| > 2 && t[2] == '[') || HasTriple(t[2..])
  {
    TripleCons(t);
    TripleCons(t[1..]);
    assert t[1..][1..] == t[2..];
  }

  /** The escape leaves a double bracket in the title if and only if the title has a triple one. */
  lemma {:induction false} EscapeLeavesOpeningIff(t: string)
    ensures HasOpening(Escape(t)) <==> HasTriple(t)
  {
    if t != [] {
      if |t| >= 2 && t[0] == '[' && t[1] == '[' {
        EscapeLeavesOpeningIff(t[2..]);
        EscapeHead(t[2..]);
        EscapedPairStep(Escape(t[2..]));
        PairStep(t);
      } else {
        EscapeLeavesOpeningIff(t[1..]);
        EscapeHead(t[1..]);
        assert Escape(t)[1..] == Escape(t[1..]);
        OpeningCons(Escape(t));
        TripleCons(t);
      }
    }
  }

  // ---------------------------------------------------------------- when the card conforms

  /** Only the escaped title of a tail can hold a typed span when nothing behind it closes one. */
  lemma SpanInTitle(text: string, after: string)
    requires ']' !in after
    ensures HasTypedSpan("\n\n" + text + after, 0) <==> HasTypedSpan(text, 0)
  {
    var s := "\n\n" + text + after;
    assert forall j :: 0 <= j < |text| ==> s[j + 2] == text[j];
    if HasTypedSpan(s, 0) {
      var i, k :| 0 <= i && TypedSpan(s, i, k);
      SpanDown(text, after, s, i, k);
    }
    if HasTypedSpan(text, 0) {
      var i, k :| 0 <= i && TypedSpan(text, i, k);
      SpanUp(text, after, s, i, k);
    }
  }

  lemma SpanDown(text: string, after: string, s: string, i: int, k: int)
    requires ']' !in after && s == "\n\n" + text + after && TypedSpan(s, i, k)
    ensures 0 <= i - 2 && TypedSpan(text, i - 2, k - 2)
  {
    assert forall j :: 2 + |text| <= j < |s| ==> s[j] == after[j - 2 - |text|] && s[j] in after;
    assert s[i + 2..k] == text[i..k - 2];
    forall j | i <= j < k - 2 ensures !Doubled(text, ']', j) {
      assert !Doubled(s, ']', j + 2);
    }
  }

  lemma SpanUp(text: string, after: string, s: string, i: int, k: int)
    requires s == "\n\n" + text + after && TypedSpan(text, i, k)
    ensures TypedSpan(s, i + 2, k + 2)
  {
    assert s[i + 4..k + 2] == text[i + 2..k];
    forall j | i + 4 <= j < k + 2 ensures !Doubled(s, ']', j) {
      assert !Doubled(text, ']', j - 2);
    }
  }

  lemma AfterCloses(marker: string)
    requires ']' !in marker
    ensures ']' !in After(marker)
  {
    var lead := "\n\n<!-- pm-source: ";
    assert ']' !in lead && ']' !in " -->";
    assert forall c <- After(marker) :: c in lead || c in marker || c in " -->";
  }

  lemma SpanlessText(text: string, after: string)
    requires ']' !in after
    ensures Links("\n\n" + text + after) == [] <==> !HasTypedSpan(text, 0)
  {
    SpanInTitle(text, after);
    LinksEmptyIff("\n\n" + text + after);
  }

  lemma TailEmptyIff(title: string, marker: string)
    requires ']' !in marker
    ensures Links(Tail(title, marker)) == [] <==> !HasTypedSpan(Escape(title), 0)
  {
    AfterCloses(marker);
    SpanlessText(Escape(title), After(marker));
  }

  lemma HeadAlone(required: seq<Link>, more: seq<Link>)
    ensures required + more == required <==> more == []
  {
    assert |required + more| == |required| + |more|;
  }

  /** A card carries the four required links and nothing else if and only if its escaped title holds
      no typed span, provided neither version nor marker holds a `]`. */
  lemma CardConformsIff(kind: Kind, version: string, title: string, marker: string)
    requires ']' !in version && ']' !in marker
    ensures Links(Body(kind, version, title, marker)) == RequiredLinks(KindWire(kind), version)
            <==> !HasTypedSpan(Escape(title), 0)
  {
    CardLinks(kind, version, title, marker);
    HeadAlone(RequiredLinks(KindWire(kind), version), Links(Tail(title, marker)));
    TailEmptyIff(title, marker);
  }

  /** In particular a title without a triple bracket always conforms. */
  lemma PlainTitleConforms(kind: Kind, version: string, title: string, marker: string)
    requires ']' !in version && ']' !in marker && !HasTriple(title)
    ensures Links(Body(kind, version, title, marker)) == RequiredLinks(KindWire(kind), version)
  {
    if HasTypedSpan(Escape(title), 0) {
      EscapeLeavesOpeningIff(title);
      assert false;
    }
    CardConformsIff(kind, version, title, marker);
  }

  lemma EscapeOfTriple(target: string)
    requires '[' !in target
    ensures Escape("[[[" + target + "]]") == "[ [[" + target + "]]"
  {
    var title, inner := "[[[" + target + "]]", "[" + target + "]]";
    assert title[2..] == inner;
    EscapeKeeps(inner);
    assert "[ [" + inner == "[ [[" + target + "]]";
  }

  lemma TailOfTriple(key: string, value: string, marker: string)
    requires '[' !in key + ":" + value
    ensures Tail("[[[" + (key + ":" + value) + "]]", marker) == Print("\n\n[ ", key, value, After(marker))
  {
    var target, after := key + ":" + value, After(marker);
    EscapeOfTriple(target);
    assert "\n\n" + ("[ [[" + target + "]]") + after == "\n\n[ " + "[[" + target + "]]" + after;
  }

  /** The single escape pass is not enough: a triple bracket adds a link, whose key and value the title chooses. */
  lemma TripleBracketAddsLink(kind: Kind, version: string, key: string, value: string, marker: string)
    requires ']' !in version && ':' !in key && ']' !in key && ']' !in value && '[' !in key + ":" + value
    ensures Links(Body(kind, version, "[[[" + (key + ":" + value) + "]]", marker))
            == RequiredLinks(KindWire(kind), version) + ([Link(key, value)] + Links(After(marker)))
  {
    TailOfTriple(key, value, marker);
    HeaderLinks(KindWire(kind), version, Print("\n\n[ ", key, value, After(marker)));
    ReadLink("\n\n[ ", key, value, After(marker));
  }

  lemma {:induction false} EscapeKeeps(s: string)
    requires !HasOpening(s)
    ensures Escape(s) == s
    decreases |s|
  {
    if s != [] {
      OpeningCons(s);
      EscapeKeeps(s[1..]);
    }
  }
}
