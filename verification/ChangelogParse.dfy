/** The CHANGELOG parser: a state machine over lines, and the laws that relate its runs. */
module ChangelogParse {
  import opened Wrappers
  import opened Text

  datatype Kind = Feature | Enhancement | Fix | Task

  datatype Entry = Entry(version: string, section: string, kind: Kind, title: string, marker: string, idx: nat)

  const MAX_TITLE_LEN: nat := 80
  const U64_MAX: nat := 0xFFFF_FFFF_FFFF_FFFF

  /** `char::is_uppercase`, a Unicode table. */
  type IsUpper = char -> bool

  const STANDARD_SECTIONS: set<string> :=
    {"Added", "Changed", "Fixed", "Security", "Removed", "Deprecated", "Performance", "Privacy"}

  predicate IsStandardSection(section: string) {
    section in STANDARD_SECTIONS
  }

  function SectionToKind(section: string): Kind {
    if section == "Added" then Feature
    else if section in {"Changed", "Performance"} then Enhancement
    else if section in {"Fixed", "Security", "Privacy"} then Fix
    else Task
  }

  function ToAsciiLower(c: char): char {
    if 'A' <= c <= 'Z' then (c as int + 32) as char else c
  }

  /** Snake case: an underscore before every upper-case letter but the first. */
  function SnakeFrom(isUpper: IsUpper, section: string, first: bool): string {
    if section == [] then []
    else (if isUpper(section[0]) && !first then "_" else "") + [ToAsciiLower(section[0])]
         + SnakeFrom(isUpper, section[1..], false)
  }

  function SectionToSnake(isUpper: IsUpper, section: string): string {
    SnakeFrom(isUpper, section, true)
  }

  // ---------------------------------------------------------------- versions

  datatype Triple = Triple(major: nat, minor: nat, patch: nat)

  function Component(parts: seq<string>, i: nat): nat {
    if i < |parts| then ParseUnsigned(Split(parts[i], '-')[0], U64_MAX).GetOr(0) else 0
  }

  /** A missing or unparsable component counts as 0, and a suffix such as `-rc` is dropped. */
  function SemverTriple(v: string): Triple {
    var parts := Split(v, '.');
    Triple(Component(parts, 0), Component(parts, 1), Component(parts, 2))
  }

  predicate AtMost(a: Triple, b: Triple) {
    a.major < b.major || (a.major == b.major && (a.minor < b.minor || (a.minor == b.minor && a.patch <= b.patch)))
  }

  predicate InRange(v: string, from: string, to: string) {
    AtMost(SemverTriple(from), SemverTriple(v)) && AtMost(SemverTriple(v), SemverTriple(to))
  }

  function VersionTest(from: string, to: string): string -> bool {
    v => InRange(v, from, to)
  }

  // ---------------------------------------------------------------- titles

  /** Removes closed `**…**` markers and keeps the text they wrap. */
  function RemoveBold(s: string): string
    decreases |s|
  {
    if s == [] then []
    else if "**" <= s && FindSub(s[2..], "**").Some? then
      var end := FindSub(s[2..], "**").value;
      s[2..2 + end] + RemoveBold(s[2 + end + 2..])
    else [s[0]] + RemoveBold(s[1..])
  }

  /** The text up to the next turn of the loop, and how many characters that turn reads. */
  function NextPiece(s: string): (r: (string, nat))
    requires s != []
    ensures 0 < r.1 <= |s|
  {
    if "**" <= s && FindSub(s[2..], "**").Some? then
      var end := FindSub(s[2..], "**").value;
      (s[2..2 + end], 2 + end + 2)
    else ([s[0]], 1)
  }

  lemma BoldTurn(out: string, s: string, goal: string)
    requires s != [] && goal == out + RemoveBold(s)
    ensures var (piece, n) := NextPiece(s); goal == (out + piece) + RemoveBold(s[n..])
  {
    var (piece, n) := NextPiece(s);
    var later := RemoveBold(s[n..]);
    assert RemoveBold(s) == piece + later;
    assert out + (piece + later) == (out + piece) + later;
  }

  method TakePiece(s: string) returns (piece: string, n: nat)
    requires s != []
    ensures (piece, n) == NextPiece(s)
  {
    if "**" <= s {
      var end := FindSub(s[2..], "**");
      if end.Some? {
        return s[2..2 + end.value], 2 + end.value + 2;
      }
    }
    return [s[0]], 1;
  }

  method RemoveBoldLoop(s: string) returns (out: string)
    ensures out == RemoveBold(s)
  {
    out := [];
    var rest := s;
    ghost var goal := RemoveBold(s);
    while rest != []
      invariant goal == out + RemoveBold(rest)
      decreases |rest|
    {
      BoldTurn(out, rest, goal);
      var piece, n := TakePiece(rest);
      out, rest := out + piece, rest[n..];
    }
  }

  function WithoutStars(s: string): string {
    if s == [] then [] else (if s[0] == '*' then [] else [s[0]]) + WithoutStars(s[1..])
  }

  lemma {:induction false} WithoutStarsConcat(a: string, b: string)
    ensures WithoutStars(a + b) == WithoutStars(a) + WithoutStars(b)
    decreases |a|
  {
    if a == [] {
      assert a + b == b;
    } else {
      assert (a + b)[1..] == a[1..] + b;
      WithoutStarsConcat(a[1..], b);
    }
  }

  lemma StarredSpan(inner: string, rest: string)
    ensures WithoutStars("**" + (inner + ("**" + rest))) == WithoutStars(inner) + WithoutStars(rest)
  {
    WithoutStarsConcat("**", inner + ("**" + rest));
    WithoutStarsConcat(inner, "**" + rest);
    WithoutStarsConcat("**", rest);
    TwoStars();
  }

  lemma BoldSpan(s: string, end: nat)
    requires "**" <= s && OccursAt(s[2..], "**", end)
    ensures s == "**" + (s[2..2 + end] + ("**" + s[2 + end + 2..]))
  {
    assert s[2..][end..end + 2] == s[2 + end..2 + end + 2];
  }

  /** Removing bold markers drops nothing but asterisks. */
  lemma {:induction false} RemoveBoldKeepsText(s: string)
    ensures WithoutStars(RemoveBold(s)) == WithoutStars(s)
    decreases |s|
  {
    if s != [] {
      if "**" <= s && FindSub(s[2..], "**").Some? {
        var end := FindSub(s[2..], "**").value;
        var inner, rest := s[2..2 + end], s[2 + end + 2..];
        FoundIsFirst(s[2..], "**");
        BoldSpan(s, end);
        StarredSpan(inner, rest);
        RemoveBoldKeepsText(rest);
        WithoutStarsConcat(inner, RemoveBold(rest));
      } else {
        RemoveBoldKeepsText(s[1..]);
      }
    }
  }

  lemma TwoStars()
    ensures WithoutStars("**") == ""
  {
    assert "**"[1..] == "*" && "*"[1..] == "";
  }

  function StripAndTruncate(raw: string): string {
    var s := Trim(raw);
    var s := Trim(if "- " <= s then s[2..] else s);
    var s := RemoveBold(s);
    if |s| > MAX_TITLE_LEN then s[..MAX_TITLE_LEN] else s
  }

  // ---------------------------------------------------------------- lines

  /** What one line means to the state machine. */
  datatype Line =
    | Version(name: string)
    | Unreleased
    | Section(name: string)
    | Bullet(title: string)
    | Text

  function ClassifyLine(line: string): Line {
    if "## [" <= line then
      var end := FindSub(line[4..], "]");
      if end.None? then Text
      else
        var name := line[4..][..end.value];
        if |name| == 10 && (forall i :: 0 <= i < 10 ==> ToAsciiLower(name[i]) == "unreleased"[i]) then Unreleased
        else Version(name)
    else if "### " <= line then Section(Trim(line[4..]))
    else if "#### " <= line then Text
    else if "- " <= line || "  - " <= line then
      var title := StripAndTruncate(if "  - " <= line then line[2..] else line);
      if title == [] then Text else Bullet(title)
    else Text
  }

  function ClassifyLines(lines: seq<string>): seq<Line> {
    seq(|lines|, i requires 0 <= i < |lines| => ClassifyLine(lines[i]))
  }

  // ---------------------------------------------------------------- the machine

  /** The version test (`VersionTest` of the two bounds), the meta switch, and the marker format
      (`MarkerFormat` of the Unicode table). */
  datatype Options = Options(inRange: string -> bool, includeMeta: bool, marker: (string, string, nat) -> string)

  datatype ParseState = ParseState(version: Option<string>, inRange: bool, section: Option<string>, idx: nat)

  const START := ParseState(None, false, None, 0)

  function SourceMarker(isUpper: IsUpper, version: string, section: string, idx: nat): string {
    "changelog/" + version + "/" + SectionToSnake(isUpper, section) + "/" + Decimal(idx)
  }

  function MarkerFormat(isUpper: IsUpper): (string, string, nat) -> string {
    (version: string, section: string, idx: nat) => SourceMarker(isUpper, version, section, idx)
  }

  function MakeEntry(o: Options, version: string, section: string, title: string, idx: nat): Entry {
    Entry(version, section, SectionToKind(section), title, o.marker(version, section, idx), idx)
  }

  /** The bullet is captured in this state. */
  predicate Captures(o: Options, s: ParseState) {
    s.inRange && s.version.Some? && s.section.Some? && (o.includeMeta || IsStandardSection(s.section.value))
  }

  function Step(o: Options, s: ParseState, line: Line): ParseState {
    match line
    case Version(v) => ParseState(Some(v), o.inRange(v), None, 0)
    case Unreleased => ParseState(None, false, None, s.idx)
    case Section(name) => s.(section := Some(name), idx := 0)
    case Bullet(_) => if Captures(o, s) then s.(idx := s.idx + 1) else s
    case Text => s
  }

  function Emit(o: Options, s: ParseState, line: Line): seq<Entry> {
    if line.Bullet? && Captures(o, s) then [MakeEntry(o, s.version.value, s.section.value, line.title, s.idx)] else []
  }

  function Entries(o: Options, s: ParseState, lines: seq<Line>): seq<Entry>
    decreases |lines|
  {
    if lines == [] then [] else Emit(o, s, lines[0]) + Entries(o, Step(o, s, lines[0]), lines[1..])
  }

  function Parse(o: Options, lines: seq<string>): seq<Entry> {
    Entries(o, START, ClassifyLines(lines))
  }

  /** One turn of the parser's loop. */
  method ParseLine(o: Options, s: ParseState, line: Line, entries: seq<Entry>)
    returns (s': ParseState, entries': seq<Entry>)
    ensures s' == Step(o, s, line) && entries' == entries + Emit(o, s, line)
  {
    s', entries' := s, entries;
    match line {
      case Version(v) => s' := ParseState(Some(v), o.inRange(v), None, 0);
      case Unreleased => s' := s.(version := None, inRange := false, section := None);
      case Section(name) => s' := s.(section := Some(name), idx := 0);
      case Text =>
      case Bullet(title) =>
        if !s.inRange || s.version.None? || s.section.None? {
          return;
        }
        if !o.includeMeta && !IsStandardSection(s.section.value) {
          return;
        }
        entries' := entries + [MakeEntry(o, s.version.value, s.section.value, title, s.idx)];
        s' := s.(idx := s.idx + 1);
    }
  }

  method ParseLines(o: Options, lines: seq<Line>) returns (entries: seq<Entry>)
    ensures entries == Entries(o, START, lines)
  {
    entries := [];
    var s := START;
    var rest := lines;
    ghost var pending := Entries(o, START, lines);
    while rest != []
      invariant pending == Entries(o, s, rest)
      invariant entries + pending == Entries(o, START, lines)
      decreases |rest|
    {
      ghost var emitted := Emit(o, s, rest[0]);
      ghost var later := Entries(o, Step(o, s, rest[0]), rest[1..]);
      assert pending == emitted + later;
      assert entries + (emitted + later) == (entries + emitted) + later;
      s, entries := ParseLine(o, s, rest[0], entries);
      rest, pending := rest[1..], later;
    }
  }

  /** `parse_changelog` over the lines of the file. */
  method ParseChangelog(o: Options, lines: seq<string>) returns (entries: seq<Entry>)
    ensures entries == Parse(o, lines)
  {
    entries := ParseLines(o, ClassifyLines(lines));
  }

  // ---------------------------------------------------------------- relational laws

  function Standard(entries: seq<Entry>): seq<Entry> {
    if entries == [] then []
    else (if IsStandardSection(entries[0].section) then [entries[0]] else []) + Standard(entries[1..])
  }

  function Within(entries: seq<Entry>, inRange: string -> bool): seq<Entry> {
    if entries == [] then []
    else (if inRange(entries[0].version) then [entries[0]] else []) + Within(entries[1..], inRange)
  }

  /** Two states that differ at most in the item rank of a meta section. */
  predicate AgreeOnStandard(a: ParseState, b: ParseState) {
    && a.version == b.version && a.inRange == b.inRange && a.section == b.section
    && (a.section.Some? && IsStandardSection(a.section.value) ==> a.idx == b.idx)
  }

  lemma {:induction false} MetaFilterRun(plain: Options, meta: Options, a: ParseState, b: ParseState, lines: seq<Line>)
    requires meta == plain.(includeMeta := true) && !plain.includeMeta && AgreeOnStandard(a, b)
    ensures Entries(plain, a, lines) == Standard(Entries(meta, b, lines))
    decreases |lines|
  {
    if lines != [] {
      MetaFilterRun(plain, meta, Step(plain, a, lines[0]), Step(meta, b, lines[0]), lines[1..]);
      var rest := Entries(meta, Step(meta, b, lines[0]), lines[1..]);
      var e := Emit(meta, b, lines[0]);
      assert (e + rest)[|e|..] == rest;
    }
  }

  /** Parsing without meta sections is the standard-section filter of parsing with them, ranks and
      markers included. */
  lemma MetaFilterLaw(o: Options, lines: seq<string>)
    requires !o.includeMeta
    ensures Parse(o, lines) == Standard(Parse(o.(includeMeta := true), lines))
  {
    MetaFilterRun(o, o.(includeMeta := true), START, START, ClassifyLines(lines));
  }

  /** The narrow run is out of range, or agrees with the wide one. */
  predicate AgreeInRange(o: Options, a: ParseState, b: ParseState) {
    && a.version == b.version && a.section == b.section
    && (a.version.None? ==> !a.inRange && !b.inRange)
    && (a.version.Some? ==> a.inRange == o.inRange(a.version.value))
    && (a.inRange ==> b.inRange)
    && (a.inRange && a.section.Some? ==> a.idx == b.idx)
  }

  lemma {:induction false} RangeRun(narrow: Options, wide: Options, a: ParseState, b: ParseState, lines: seq<Line>)
    requires wide == narrow.(inRange := wide.inRange) && forall v :: narrow.inRange(v) ==> wide.inRange(v)
    requires AgreeInRange(narrow, a, b)
    ensures Entries(narrow, a, lines) == Within(Entries(wide, b, lines), narrow.inRange)
    decreases |lines|
  {
    if lines != [] {
      RangeRun(narrow, wide, Step(narrow, a, lines[0]), Step(wide, b, lines[0]), lines[1..]);
      var rest := Entries(wide, Step(wide, b, lines[0]), lines[1..]);
      var e := Emit(wide, b, lines[0]);
      assert (e + rest)[|e|..] == rest;
    }
  }

  /** Parsing a narrower version range is filtering the parse of a wider one. */
  lemma RangeLaw(narrow: Options, wide: Options, lines: seq<string>, from: string, to: string, from': string,
                 to': string)
    requires wide == narrow.(inRange := wide.inRange)
    requires narrow.inRange == VersionTest(from, to) && wide.inRange == VersionTest(from', to')
    requires AtMost(SemverTriple(from'), SemverTriple(from)) && AtMost(SemverTriple(to), SemverTriple(to'))
    ensures Parse(narrow, lines) == Within(Parse(wide, lines), narrow.inRange)
  {
    forall v | narrow.inRange(v) ensures wide.inRange(v) {
      AtMostTransitive(SemverTriple(from'), SemverTriple(from), SemverTriple(v));
      AtMostTransitive(SemverTriple(v), SemverTriple(to), SemverTriple(to'));
    }
    RangeRun(narrow, wide, START, START, ClassifyLines(lines));
  }

  lemma AtMostTransitive(a: Triple, b: Triple, c: Triple)
    requires AtMost(a, b) && AtMost(b, c)
    ensures AtMost(a, c)
  {}

  function MetaCount(entries: seq<Entry>): nat {
    if entries == [] then 0 else (if IsStandardSection(entries[0].section) then 0 else 1) + MetaCount(entries[1..])
  }

  lemma {:induction false} StandardPlusMeta(entries: seq<Entry>)
    ensures |Standard(entries)| + MetaCount(entries) == |entries|
    decreases |entries|
  {
    if entries != [] {
      StandardPlusMeta(entries[1..]);
    }
  }

  /** `skipped_meta` is the exact number of meta entries: the subtraction never saturates. */
  lemma SkippedMetaIsExact(o: Options, lines: seq<string>)
    ensures var total := Parse(o.(includeMeta := true), lines);
            && |Parse(o, lines)| <= |total|
            && |total| - |Parse(o, lines)| == if o.includeMeta then 0 else MetaCount(total)
  {
    if o.includeMeta {
      assert o.(includeMeta := true) == o;
    } else {
      MetaFilterLaw(o, lines);
      StandardPlusMeta(Parse(o.(includeMeta := true), lines));
    }
  }
}
