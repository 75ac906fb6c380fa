/** From CHANGELOG text to project-map card: every parsed entry prints a card that reads back. */
module ParsedCards {
  import opened Wrappers
  import opened Text
  import opened ChangelogParse
  import ChangelogLines
  import opened SourceMarkers
  import opened ProjectCard
  import opened CardRender
  import opened ProjectScope

  predicate NamesClean(line: Line) {
    line.Version? ==> ']' !in line.name
  }

  lemma HeadingVersionIsClean(line: string)
    ensures NamesClean(ClassifyLine(line))
  {
    if "## [" <= line {
      var rest := line[4..];
      var end := FindSub(rest, "]");
      FoundIsFirst(rest, "]");
      if end.Some? {
        forall j | 0 <= j < end.value ensures rest[j] != ']' {
          assert !OccursAt(rest, "]", j);
          assert rest[j..j + 1] == [rest[j]];
        }
        assert ']' !in rest[..end.value];
      }
    }
  }

  lemma {:induction false} EntriesAreClean(o: Options, s: ParseState, lines: seq<Line>, e: Entry)
    requires s.version.Some? ==> ']' !in s.version.value
    requires forall i :: 0 <= i < |lines| ==> NamesClean(lines[i])
    requires e in Entries(o, s, lines)
    ensures ']' !in e.version && e.marker == o.marker(e.version, e.section, e.idx)
    decreases |lines|
  {
    var rest := Entries(o, Step(o, s, lines[0]), lines[1..]);
    if e !in Emit(o, s, lines[0]) {
      assert e in rest;
      assert NamesClean(lines[0]);
      EntriesAreClean(o, Step(o, s, lines[0]), lines[1..], e);
    }
  }

  lemma CleanConcat(a: string, b: string)
    requires ']' !in a && ']' !in b
    ensures ']' !in a + b
  {
  }

  lemma CleanParts(version: string, snake: string, rank: string)
    requires ']' !in version && ']' !in snake && ']' !in rank
    ensures ']' !in "changelog/" + version + "/" + snake + "/" + rank
  {
    CleanConcat("changelog/", version);
    CleanConcat("changelog/" + version, "/");
    CleanConcat("changelog/" + version + "/", snake);
    CleanConcat("changelog/" + version + "/" + snake, "/");
    CleanConcat("changelog/" + version + "/" + snake + "/", rank);
  }

  lemma MarkerIsClean(isUpper: IsUpper, version: string, section: string, idx: nat)
    requires AsciiTable(isUpper) && IsStandardSection(section) && ']' !in version
    ensures ']' !in SourceMarker(isUpper, version, section, idx)
  {
    StandardSectionShape(section);
    SnakeOfCapitalised(isUpper, section);
    DecimalRoundTrip(idx);
    CleanParts(version, SectionToSnake(isUpper, section), Decimal(idx));
  }

  lemma ParsedIsClean(o: Options, lines: seq<string>, e: Entry)
    requires e in Parse(o, lines)
    ensures ']' !in e.version && e.marker == o.marker(e.version, e.section, e.idx)
  {
    forall i | 0 <= i < |lines| ensures NamesClean(ClassifyLines(lines)[i]) {
      HeadingVersionIsClean(lines[i]);
    }
    EntriesAreClean(o, START, ClassifyLines(lines), e);
  }

  /** The card of an entry the parser produced in a standard section carries exactly the four required
      links if and only if the escaped title holds no typed span. */
  lemma ParsedCardConformsIff(isUpper: IsUpper, o: Options, lines: seq<string>, e: Entry)
    requires AsciiTable(isUpper) && o.marker == MarkerFormat(isUpper)
    requires e in Parse(o, lines) && IsStandardSection(e.section)
    ensures Links(RenderCard(e).body) == RequiredLinks(KindWire(e.kind), e.version)
            <==> !HasTypedSpan(Escape(e.title), 0)
  {
    ParsedIsClean(o, lines, e);
    MarkerIsClean(isUpper, e.version, e.section, e.idx);
    CardConformsIff(e.kind, e.version, e.title, e.marker);
  }

  /** The text of the kind link and the tag of a section. */
  function WireAndTag(section: string): (string, string) {
    if section == "Added" then ("FEATURE", "feature")
    else if section == "Changed" || section == "Performance" then ("ENHANCEMENT", "enhancement")
    else if section == "Fixed" || section == "Security" || section == "Privacy" then ("FIX", "fix")
    else ("TASK", "task")
  }

  /** From heading to card: the four links, the tags, the title and the section of the card of a parsed entry. */
  lemma CardOfSection(o: Options, lines: seq<string>, e: Entry)
    requires e in Parse(o, lines)
    ensures var c, (wire, tag) := RenderCard(e), WireAndTag(e.section);
            && [Link("project", "gradatum"), Link("status", "OPEN"), Link("kind", wire),
                Link("version", "gradatum/" + e.version)] <= Links(c.body)
            && c.tags == ["project-map", "v" + e.version, tag] && c.sectionHint == "project-map"
            && c.title == "[PROJECT-MAP][gradatum] " + e.title + " — v" + e.version
  {
    ParsedIsClean(o, lines, e);
    ChangelogLines.KindsOfEntries(o, lines, e);
    CardLinks(e.kind, e.version, e.title, e.marker);
  }

  // ---------------------------------------------------------------- where a card is counted

  lemma {:induction false} FactsConcat(a: seq<Link>, l: Link)
    ensures Facts(a + [l]) == Sets(Facts(a), l)
  {
    assert (a + [l])[..|a|] == a;
  }

  lemma SetsOpening(f: CardFacts, kindWire: string)
    ensures Sets(f, Link("project", "gradatum")) == f && Sets(f, Link("kind", kindWire)) == f
    ensures Sets(f, Link("status", "OPEN")) == f.(status := Some("OPEN"))
  {
    assert |"project"| == 7 && |"version"| == 7 && |"status"| == 6 && |"kind"| == 4;
    assert "project"[0] != "version"[0];
  }

  lemma FactsOfOpening(kindWire: string)
    ensures Facts([Link("project", "gradatum"), Link("status", "OPEN"), Link("kind", kindWire)])
            == CardFacts(Some("OPEN"), None)
  {
    var none: seq<Link>, project := [], Link("project", "gradatum");
    var status, kind := Link("status", "OPEN"), Link("kind", kindWire);
    FactsConcat(none, project);
    FactsConcat(none + [project], status);
    FactsConcat(none + [project] + [status], kind);
    SetsOpening(Facts(none), kindWire);
    SetsOpening(Facts(none + [project] + [status]), kindWire);
    assert none + [project] + [status] + [kind] == [project, status, kind];
  }

  lemma FactsOfRequired(kindWire: string, version: string)
    ensures Facts(RequiredLinks(kindWire, version)) == CardFacts(Some("OPEN"), Some(version))
  {
    var kind, ver := Link("kind", kindWire), Link("version", "gradatum/" + version);
    var opening := [Link("project", "gradatum"), Link("status", "OPEN"), kind];
    FactsOfOpening(kindWire);
    assert RequiredLinks(kindWire, version) == opening + [ver];
    FactsConcat(opening, ver);
    SplitSlash(version);
  }

  lemma SplitSlash(version: string)
    ensures SplitOnce("gradatum/" + version, '/') == Some(Link("gradatum", version))
  {
    SplitAt("gradatum", '/', version);
    assert "gradatum" + ['/'] + version == "gradatum/" + version;
  }

  /** A card whose title has no triple bracket is counted as open, under its own version. */
  lemma PlainCardIsOpen(kind: Kind, version: string, title: string, marker: string)
    requires ']' !in version && ']' !in marker && !HasTriple(title)
    ensures Facts(Links(Body(kind, version, title, marker))) == CardFacts(Some("OPEN"), Some(version))
    ensures Bucket(Facts(Links(Body(kind, version, title, marker)))) == Some(Open)
  {
    PlainTitleConforms(kind, version, title, marker);
    FactsOfRequired(KindWire(kind), version);
  }

  /** A triple bracket in the title moves the freshly created card to the status the title names. */
  lemma TitleMovesTheCard(kind: Kind, version: string, status: string, marker: string)
    requires ']' !in version && ']' !in marker && ']' !in status && '[' !in status
    ensures Facts(Links(Body(kind, version, "[[[" + ("status" + ":" + status) + "]]", marker)))
            == CardFacts(Some(status), Some(version))
  {
    assert '[' !in "status:";
    assert "status" + ":" + status == "status:" + status;
    TripleBracketAddsLink(kind, version, "status", status, marker);
    AfterCloses(marker);
    LinksEmptyIff(After(marker));
    FactsOfRequired(KindWire(kind), version);
    FactsConcat(RequiredLinks(KindWire(kind), version), Link("status", status));
    assert [Link("status", status)] + Links(After(marker)) == [Link("status", status)];
  }
}
