/** Which cards the marker search takes for which entry: the whole printed body, not only its comment. */
module CardMarkers {
  import opened Text
  import opened ChangelogParse
  import opened MarkerMatch
  import opened SourceMarkers
  import opened CardRender
  import opened ParsedCards

  // ---------------------------------------------------------------- occurrences in parts of a text

  lemma InFirstPart(x: string, y: string, m: string, i: nat)
    requires i + |m| <= |x|
    ensures OccursAt(x + "\n\n" + y, m, i) <==> OccursAt(x, m, i)
    ensures Bounded(x + "\n\n" + y, i + |m|) <==> Bounded(x, i + |m|)
  {
    var s := x + "\n\n" + y;
    OccurrenceByPosition(s, m, i);
    OccurrenceByPosition(x, m, i);
    assert forall q :: 0 <= q < |x| ==> s[q] == x[q];
    assert s[|x|] == '\n';
  }

  lemma InSecondPart(x: string, y: string, m: string, i: nat)
    ensures OccursAt(x + "\n\n" + y, m, |x| + 2 + i) <==> OccursAt(y, m, i)
    ensures Bounded(x + "\n\n" + y, |x| + 2 + i + |m|) <==> Bounded(y, i + |m|)
  {
    var s := x + "\n\n" + y;
    OccurrenceByPosition(s, m, |x| + 2 + i);
    OccurrenceByPosition(y, m, i);
    assert forall q :: 0 <= q < |y| ==> s[|x| + 2 + q] == y[q];
  }

  /** A text without line breaks occurs in one of two paragraphs, or not at all. */
  lemma ByParagraph(x: string, y: string, m: string)
    requires m != [] && '\n' !in m
    ensures HasBoundedOccurrence(x + "\n\n" + y, m) <==> HasBoundedOccurrence(x, m) || HasBoundedOccurrence(y, m)
  {
    var s := x + "\n\n" + y;
    if HasBoundedOccurrence(s, m) {
      var i: nat :| OccursAt(s, m, i) && Bounded(s, i + |m|);
      if i + |m| <= |x| {
        InFirstPart(x, y, m, i);
      } else {
        NotAcross(x, y, m, i);
        InSecondPart(x, y, m, i - |x| - 2);
      }
    }
    if HasBoundedOccurrence(x, m) {
      var i: nat :| OccursAt(x, m, i) && Bounded(x, i + |m|);
      InFirstPart(x, y, m, i);
    }
    if HasBoundedOccurrence(y, m) {
      var i: nat :| OccursAt(y, m, i) && Bounded(y, i + |m|);
      InSecondPart(x, y, m, i);
    }
  }

  lemma NotAcross(x: string, y: string, m: string, i: nat)
    requires m != [] && '\n' !in m && OccursAt(x + "\n\n" + y, m, i) && i + |m| > |x|
    ensures i >= |x| + 2
  {
    var s := x + "\n\n" + y;
    assert s[|x|] == '\n' && s[|x| + 1] == '\n';
    forall q | i <= q < i + |m| ensures s[q] in m {
      assert s[i..i + |m|][q - i] == s[q];
    }
  }

  // ---------------------------------------------------------------- the escaped title

  lemma {:induction false} EscapePrefix(m: string, t: string)
    requires '[' !in m
    ensures m <= t ==> Escape(t) == m + Escape(t[|m|..])
    ensures m <= Escape(t) ==> m <= t
    decreases |m|
  {
    if m != [] && t != [] && m[0] == t[0] {
      EscapePrefix(m[1..], t[1..]);
      assert m[0] in m && m == [m[0]] + m[1..];
      assert Escape(t) == [t[0]] + Escape(t[1..]);
      assert m <= Escape(t) <==> m[1..] <= Escape(t[1..]);
      assert m <= t <==> m[1..] <= t[1..];
      if m <= t {
        assert t[1..][|m| - 1..] == t[|m|..];
      }
    } else {
      EscapeHead(t);
    }
  }

  predicate OccursHere(s: string, m: string) {
    m <= s && Bounded(s, |m|)
  }

  predicate OccursLater(s: string, m: string) {
    OccursHere(s, m) || (s != [] && OccursLater(s[1..], m))
  }

  lemma EscapeHere(t: string, m: string)
    requires '[' !in m
    ensures OccursHere(Escape(t), m) <==> OccursHere(t, m)
  {
    EscapePrefix(m, t);
    if m <= t {
      EscapeHead(t[|m|..]);
      assert |t| > |m| ==> t[|m|..][0] == t[|m|] && Escape(t)[|m|] == Escape(t[|m|..])[0];
    }
  }

  /** The escape neither makes nor breaks an occurrence of a text without brackets and blanks. */
  lemma {:induction false} EscapeKeepsOccurrences(t: string, m: string)
    requires m != [] && '[' !in m && ' ' !in m
    ensures OccursLater(Escape(t), m) <==> OccursLater(t, m)
    decreases |t|
  {
    EscapeHere(t, m);
    if t != [] {
      if |t| >= 2 && t[0] == '[' && t[1] == '[' {
        EscapeKeepsOccurrences(t[2..], m);
        SkipThree(Escape(t[2..]), m);
        assert t[1..][1..] == t[2..];
        assert !OccursHere(t, m) && !OccursHere(t[1..], m);
      } else {
        EscapeKeepsOccurrences(t[1..], m);
        assert Escape(t)[1..] == Escape(t[1..]);
      }
    }
  }

  lemma SkipThree(rest: string, m: string)
    requires m != [] && '[' !in m && ' ' !in m
    ensures OccursLater("[ [" + rest, m) <==> OccursLater(rest, m)
  {
    var s := "[ [" + rest;
    assert s[1..] == " [" + rest;
    assert (" [" + rest)[1..] == "[" + rest;
    assert ("[" + rest)[1..] == rest;
    assert m[0] in m;
    assert !OccursHere(s, m) && !OccursHere(" [" + rest, m) && !OccursHere("[" + rest, m);
    assert OccursLater(s, m) == OccursLater(" [" + rest, m) == OccursLater("[" + rest, m);
  }

  lemma {:induction false} LaterIsOccurrence(s: string, m: string)
    ensures OccursLater(s, m) <==> HasBoundedOccurrence(s, m)
    decreases |s|
  {
    assert OccursHere(s, m) <==> OccursAt(s, m, 0) && Bounded(s, |m|);
    if s != [] {
      LaterIsOccurrence(s[1..], m);
      if HasBoundedOccurrence(s[1..], m) {
        var i: nat :| OccursAt(s[1..], m, i) && Bounded(s[1..], i + |m|);
        ShiftOccurrence(s, m, 1, i);
      }
      if HasBoundedOccurrence(s, m) && !OccursHere(s, m) {
        var i: nat :| OccursAt(s, m, i) && Bounded(s, i + |m|);
        assert i > 0;
        ShiftOccurrence(s, m, 1, i - 1);
      }
    }
  }

  /** What the title spells out without a bracket, the escaped title spells out too. */
  lemma {:induction false} EscapeKeepsSpelling(t: string, m: string)
    requires m != [] && '[' !in m && OccursLater(t, m)
    ensures OccursLater(Escape(t), m)
    decreases |t|
  {
    if OccursHere(t, m) {
      EscapeHere(t, m);
    } else if |t| >= 2 && t[0] == '[' && t[1] == '[' {
      assert !OccursHere(t[1..], m) by { assert m[0] in m; }
      assert t[1..][1..] == t[2..];
      EscapeKeepsSpelling(t[2..], m);
      var rest := Escape(t[2..]);
      assert ("[ [" + rest)[1..] == " [" + rest && (" [" + rest)[1..] == "[" + rest && ("[" + rest)[1..] == rest;
    } else {
      EscapeKeepsSpelling(t[1..], m);
      assert Escape(t)[1..] == Escape(t[1..]);
    }
  }

  /** A card body holds what its title spells out without a bracket. */
  lemma TitleIsInBody(kindWire: string, version: string, title: string, marker: string, m: string)
    requires m != [] && '[' !in m && HasBoundedOccurrence(title, m)
    ensures HasBoundedOccurrence(Header(kindWire, version, Tail(title, marker)), m)
  {
    var head, t, comment := Header(kindWire, version, ""), Escape(title), Comment(marker);
    LaterIsOccurrence(title, m);
    EscapeKeepsSpelling(title, m);
    LaterIsOccurrence(t, m);
    var i: nat :| OccursAt(t, m, i) && Bounded(t, i + |m|);
    InFirstPart(t, comment, m, i);
    InSecondPart(head, t + "\n\n" + comment, m, i);
    HeaderThenTail(kindWire, version, title, marker);
  }

  lemma TitleOccurrence(title: string, m: string)
    requires m != [] && '[' !in m && ' ' !in m
    ensures HasBoundedOccurrence(Escape(title), m) <==> HasBoundedOccurrence(title, m)
  {
    EscapeKeepsOccurrences(title, m);
    LaterIsOccurrence(title, m);
    LaterIsOccurrence(Escape(title), m);
  }

  // ---------------------------------------------------------------- the link line

  predicate OneSlash(s: string) {
    forall i, j :: 0 <= i < j < |s| ==> !(s[i] == '/' && s[j] == '/')
  }

  lemma OneSlashConcat(a: string, b: string)
    requires '/' !in a && '/' !in b
    ensures OneSlash(a + "/" + b)
  {
    var s := a + "/" + b;
    assert forall i :: 0 <= i < |s| && i != |a| ==> s[i] in a || s[i] in b;
  }

  lemma PrintWithoutSlash(lead: string, key: string, value: string, tail: string)
    requires '/' !in lead && '/' !in key && '/' !in value && '/' !in tail
    ensures '/' !in Print(lead, key, value, tail)
  {
    var s := Print(lead, key, value, tail);
    assert '/' !in "[[" && '/' !in ":" && '/' !in "]]";
    assert forall c <- s :: c in lead || c in "[[" || c in key || c in ":" || c in value || c in "]]" || c in tail;
  }

  lemma PrintOnto(lead: string, key: string, value: string, inner: string, tail: string)
    ensures Print(lead, key, value, inner + tail) == Print(lead, key, value, inner) + tail
  {
    var front := lead + "[[" + (key + ":" + value) + "]]";
    assert front + (inner + tail) == front + inner + tail;
  }

  /** The link line up to its version, then `rest`. */
  function LinkLine(kindWire: string, rest: string): string {
    Print("", "project", "gradatum", Print(" ", "status", "OPEN", Print(" ", "kind", kindWire, rest)))
  }

  lemma LinkLineConcat(kindWire: string, inner: string, tail: string)
    ensures LinkLine(kindWire, inner + tail) == LinkLine(kindWire, inner) + tail
  {
    var a := Print(" ", "kind", kindWire, inner);
    PrintOnto(" ", "kind", kindWire, inner, tail);
    PrintOnto(" ", "status", "OPEN", a, tail);
    PrintOnto("", "project", "gradatum", Print(" ", "status", "OPEN", a), tail);
  }

  lemma LinkLineWithoutSlash(kindWire: string, inner: string)
    requires '/' !in kindWire && '/' !in inner
    ensures '/' !in LinkLine(kindWire, inner)
  {
    var a := Print(" ", "kind", kindWire, inner);
    PrintWithoutSlash(" ", "kind", kindWire, inner);
    PrintWithoutSlash(" ", "status", "OPEN", a);
    PrintWithoutSlash("", "project", "gradatum", Print(" ", "status", "OPEN", a));
  }

  lemma VersionLink(version: string)
    ensures Print(" ", "version", "gradatum/" + version, "") == " [[version:gradatum" + ("/" + (version + "]]"))
  {
  }

  lemma HeaderHasOneSlash(kindWire: string, version: string)
    requires '/' !in kindWire && '/' !in version
    ensures OneSlash(Header(kindWire, version, ""))
  {
    var inner, b := " [[version:gradatum", version + "]]";
    VersionLink(version);
    LinkLineConcat(kindWire, inner, "/" + b);
    var a := LinkLine(kindWire, inner);
    LinkLineWithoutSlash(kindWire, inner);
    OneSlashConcat(a, b);
    assert a + "/" + b == a + ("/" + b);
  }

  lemma OccurrenceHasSlashes(p: Parts, s: string, i: nat)
    requires WellFormedParts(p) && OccursAt(s, Join(p), i)
    ensures !OneSlash(s)
  {
    OccurrenceByPosition(s, Join(p), i);
    NoGBeforeLaterSlash(p);
    SlashesOf(p, 9);
    SlashesOf(p, SecondSlash(p));
    assert s[i + 9] == '/' && s[i + SecondSlash(p)] == '/';
  }

  /** A marker has three slashes, so a text with at most one does not hold it. */
  lemma NoMarkerInOneSlash(p: Parts, s: string)
    requires WellFormedParts(p) && OneSlash(s)
    ensures !HasBoundedOccurrence(s, Join(p))
  {
    if HasBoundedOccurrence(s, Join(p)) {
      var i: nat :| OccursAt(s, Join(p), i) && Bounded(s, i + |Join(p)|);
      OccurrenceHasSlashes(p, s, i);
      assert false;
    }
  }

  // ---------------------------------------------------------------- the whole card

  lemma MarkerCharacters(p: Parts)
    requires WellFormedParts(p)
    ensures Join(p) != [] && '\n' !in Join(p) && '[' !in Join(p) && ' ' !in Join(p)
  {
    forall q | 0 <= q < |Join(p)| ensures Join(p)[q] != '\n' && Join(p)[q] != '[' && Join(p)[q] != ' ' {
      Layout(p, q);
    }
  }

  lemma SearchIsExact(p: Parts, text: string)
    requires WellFormedParts(p)
    ensures Matches(text, Join(p)) <==> HasBoundedOccurrence(text, Join(p))
  {
    MarkerCharacters(p);
    forall k: nat ensures !BorderAt(Join(p), k) {
      RenderedMarkerHasNoBorder(p, k);
    }
    MatchesExactIff(Join(p));
  }

  lemma HeaderThenTail(kindWire: string, version: string, title: string, marker: string)
    ensures Header(kindWire, version, Tail(title, marker))
            == Header(kindWire, version, "") + "\n\n" + (Escape(title) + "\n\n" + Comment(marker))
  {
    var tail := Tail(title, marker);
    TailParagraphs(title, marker);
    var last := Print(" ", "version", "gradatum/" + version, "");
    assert Print(" ", "version", "gradatum/" + version, tail) == last + tail;
    LinkLineConcat(kindWire, last, tail);
    var head, rest := Header(kindWire, version, ""), Escape(title) + "\n\n" + Comment(marker);
    assert head + ("\n\n" + rest) == head + "\n\n" + rest;
  }

  lemma TailParagraphs(title: string, marker: string)
    ensures Tail(title, marker) == "\n\n" + (Escape(title) + "\n\n" + Comment(marker))
  {
    assert After(marker) == "\n\n" + Comment(marker);
    var t, c := Escape(title), Comment(marker);
    assert "\n\n" + t + ("\n\n" + c) == "\n\n" + (t + "\n\n" + c);
  }

  /** The search finds one marker in the card of another entry if and only if the markers are equal, or the
      title of that card spells the marker out with no digit behind it. */
  lemma CardMatchesIff(a: Parts, kindWire: string, version: string, title: string, b: Parts)
    requires WellFormedParts(a) && WellFormedParts(b) && '/' !in kindWire && '/' !in version
    ensures Matches(Header(kindWire, version, Tail(title, Join(b))), Join(a))
            <==> Join(a) == Join(b) || HasBoundedOccurrence(title, Join(a))
  {
    var m, head, comment := Join(a), Header(kindWire, version, ""), Comment(Join(b));
    HeaderThenTail(kindWire, version, title, Join(b));
    SearchIsExact(a, head + "\n\n" + (Escape(title) + "\n\n" + comment));
    MarkerCharacters(a);
    ByParagraph(head, Escape(title) + "\n\n" + comment, m);
    HeaderHasOneSlash(kindWire, version);
    NoMarkerInOneSlash(a, head);
    ByParagraph(Escape(title), comment, m);
    TitleOccurrence(title, m);
    SearchIsExact(a, comment);
    CommentMatchesOnlyItself(a, b);
  }

  // ---------------------------------------------------------------- the entries of a parse

  /** An entry whose version is made of digits and dots, in a standard section. */
  predicate Regular(e: Entry) {
    DigitsAndDots(e.version) && IsStandardSection(e.section)
  }

  lemma EntryMarker(isUpper: IsUpper, o: Options, lines: seq<string>, e: Entry) returns (p: Parts)
    requires AsciiTable(isUpper) && o.marker == MarkerFormat(isUpper) && e in Parse(o, lines) && Regular(e)
    ensures WellFormedParts(p) && Join(p) == e.marker
  {
    forall i | 0 <= i < |lines| ensures NamesClean(ClassifyLines(lines)[i]) {
      HeadingVersionIsClean(lines[i]);
    }
    EntriesAreClean(o, START, ClassifyLines(lines), e);
    p := PartsOf(isUpper, e.version, e.section, e.idx);
  }

  lemma KindWireHasNoSlash(k: Kind)
    ensures '/' !in KindWire(k)
  {
    match k
    case Feature =>
    case Enhancement =>
    case Fix =>
    case Task =>
  }

  /** For entries of one parse: the search for the marker of `x` accepts the card of `y` if and only if the two
      markers are equal, or the title of `y` spells the marker of `x` out. */
  lemma ParsedCardMatchesIff(isUpper: IsUpper, o: Options, lines: seq<string>, x: Entry, y: Entry)
    requires AsciiTable(isUpper) && o.marker == MarkerFormat(isUpper)
    requires x in Parse(o, lines) && y in Parse(o, lines) && Regular(x) && Regular(y)
    ensures Matches(RenderCard(y).body, x.marker) <==> x.marker == y.marker || HasBoundedOccurrence(y.title, x.marker)
  {
    var a := EntryMarker(isUpper, o, lines, x);
    var b := EntryMarker(isUpper, o, lines, y);
    KindWireHasNoSlash(y.kind);
    CardMatchesIff(a, KindWire(y.kind), y.version, y.title, b);
  }

  /** When no section of a version is repeated, the comment of one entry never matches the marker of another,
      and its card does only through its title. */
  lemma OtherCardsMatchByTitleOnly(isUpper: IsUpper, o: Options, lines: seq<string>, i: nat, j: nat)
    requires !o.includeMeta && AsciiTable(isUpper) && o.marker == MarkerFormat(isUpper)
    requires NoSectionRepeated(Tag(o, START, ClassifyLines(lines), 0))
    requires i < |Parse(o, lines)| && j < |Parse(o, lines)| && i != j
    requires Regular(Parse(o, lines)[i]) && Regular(Parse(o, lines)[j])
    ensures var x, y := Parse(o, lines)[i], Parse(o, lines)[j];
            && !Matches(Comment(y.marker), x.marker)
            && (Matches(RenderCard(y).body, x.marker) <==> HasBoundedOccurrence(y.title, x.marker))
  {
    var x, y := Parse(o, lines)[i], Parse(o, lines)[j];
    DistinctMarkersIff(o, isUpper, lines);
    assert x.marker != y.marker;
    var a := EntryMarker(isUpper, o, lines, x);
    var b := EntryMarker(isUpper, o, lines, y);
    CommentMatchesOnlyItself(a, b);
    ParsedCardMatchesIff(isUpper, o, lines, x, y);
  }
}
