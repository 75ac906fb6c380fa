/** What the parser captures, read off the raw lines: no machine, no classification of lines. */
module ChangelogLines {
  import opened Wrappers
  import opened Text
  import opened ChangelogParse

  // ---------------------------------------------------------------- lines

  /** The text before the first `c`, or all of it. */
  function Before(s: string, c: char): (r: string)
    ensures c !in r && r <= s && (c in s ==> |r| < |s| && s[|r|] == c)
  {
    if s == [] || s[0] == c then [] else [s[0]] + Before(s[1..], c)
  }

  /** `## [name]`, with whatever follows the bracket. */
  predicate IsHeader(line: string) {
    "## [" <= line && ']' in line[4..]
  }

  function HeaderName(line: string): string
    requires IsHeader(line)
  {
    Before(line[4..], ']')
  }

  predicate SaysUnreleased(name: string) {
    |name| == 10 && forall i :: 0 <= i < 10 ==> name[i] == "unreleased"[i] || name[i] == "UNRELEASED"[i]
  }

  predicate IsSection(line: string) {
    "### " <= line
  }

  function SectionName(line: string): string
    requires IsSection(line)
  {
    Trim(line[4..])
  }

  /** A bullet, plain or indented by two, with something left of its title. */
  predicate IsBullet(line: string) {
    ("- " <= line || "  - " <= line) && TitleOf(line) != []
  }

  function TitleOf(line: string): string {
    StripAndTruncate(line)
  }

  // ---------------------------------------------------------------- positions

  /** The last header before line `n`, or -1. */
  function LastHeader(lines: seq<string>, n: nat): (h: int)
    requires n <= |lines|
    ensures -1 <= h < n && (h >= 0 ==> IsHeader(lines[h]))
    ensures forall j :: h < j < n ==> !IsHeader(lines[j])
  {
    if n == 0 then -1 else if IsHeader(lines[n - 1]) then n - 1 else LastHeader(lines, n - 1)
  }

  /** The last section line before line `n`, or -1. */
  function LastSection(lines: seq<string>, n: nat): (g: int)
    requires n <= |lines|
    ensures -1 <= g < n && (g >= 0 ==> IsSection(lines[g]))
    ensures forall j :: g < j < n ==> !IsSection(lines[j])
  {
    if n == 0 then -1 else if IsSection(lines[n - 1]) then n - 1 else LastSection(lines, n - 1)
  }

  /** How many bullets stand after line `g` and before line `n`. */
  function BulletsBetween(lines: seq<string>, g: int, n: nat): nat
    requires n <= |lines|
  {
    if n == 0 || n - 1 <= g then 0
    else BulletsBetween(lines, g, n - 1) + if IsBullet(lines[n - 1]) then 1 else 0
  }

  /** The version in force before line `n`: the last header names one that is released and in range. */
  predicate Released(o: Options, lines: seq<string>, n: nat)
    requires n <= |lines|
  {
    var h := LastHeader(lines, n);
    h >= 0 && !SaysUnreleased(HeaderName(lines[h])) && o.inRange(HeaderName(lines[h]))
  }

  /** A section stands between that header and line `n`, a standard one unless meta sections are asked for. */
  predicate Sectioned(o: Options, lines: seq<string>, n: nat)
    requires n <= |lines|
  {
    var g := LastSection(lines, n);
    && g > LastHeader(lines, n)
    && (o.includeMeta
        || SectionName(lines[g]) in
             {"Added", "Changed", "Fixed", "Security", "Removed", "Deprecated", "Performance", "Privacy"})
  }

  predicate Captured(o: Options, lines: seq<string>, n: nat)
    requires n < |lines|
  {
    IsBullet(lines[n]) && Released(o, lines, n) && Sectioned(o, lines, n)
  }

  /** The version, the section and the rank within it, for a captured line. */
  function EntryAt(o: Options, lines: seq<string>, n: nat): Entry
    requires n < |lines| && Captured(o, lines, n)
  {
    var version := HeaderName(lines[LastHeader(lines, n)]);
    var g := LastSection(lines, n);
    var rank := BulletsBetween(lines, g, n);
    var section := SectionName(lines[g]);
    Entry(version, section, SectionToKind(section), TitleOf(lines[n]), o.marker(version, section, rank), rank)
  }

  function EntriesAt(o: Options, lines: seq<string>, n: nat): seq<Entry> {
    if n < |lines| && Captured(o, lines, n) then [EntryAt(o, lines, n)] else []
  }

  function ByLine(o: Options, lines: seq<string>): nat -> seq<Entry> {
    (n: nat) => EntriesAt(o, lines, n)
  }

  /** What `f` gives for the lines from `n` up to `end`, in order. */
  function Gather(f: nat -> seq<Entry>, n: nat, end: nat): seq<Entry>
    decreases end - n
  {
    if n >= end then [] else f(n) + Gather(f, n + 1, end)
  }

  /** The entries of the captured lines, in order. */
  function Listing(o: Options, lines: seq<string>): seq<Entry> {
    Gather(ByLine(o, lines), 0, |lines|)
  }

  // ---------------------------------------------------------------- one line

  lemma {:induction false} FindIsBefore(s: string, c: char)
    ensures FindSub(s, [c]).Some? <==> c in s
    ensures c in s ==> FindSub(s, [c]).value == |Before(s, c)|
  {
    if s != [] {
      assert [c] <= s <==> s[0] == c;
      FindIsBefore(s[1..], c);
    }
  }

  lemma LowerIsEither(name: string)
    requires |name| == 10
    ensures (forall i :: 0 <= i < 10 ==> ToAsciiLower(name[i]) == "unreleased"[i]) <==> SaysUnreleased(name)
  {
    forall i | 0 <= i < 10
      ensures ToAsciiLower(name[i]) == "unreleased"[i]
              <==> name[i] == "unreleased"[i] || name[i] == "UNRELEASED"[i]
    {
      LowerOf(name[i], "unreleased"[i], "UNRELEASED"[i]);
    }
  }

  lemma LowerOf(c: char, low: char, up: char)
    requires 'a' <= low <= 'z' && up as int == low as int - 32
    ensures ToAsciiLower(c) == low <==> c == low || c == up
  {
  }

  lemma HeaderLine(line: string)
    requires "## [" <= line
    ensures !IsSection(line) && !IsBullet(line)
    ensures ClassifyLine(line) ==
            if !IsHeader(line) then Line.Text
            else if SaysUnreleased(HeaderName(line)) then Unreleased
            else Version(HeaderName(line))
  {
    assert line[0] == '#' && line[2] == ' ' && "### "[2] == '#';
    FindIsBefore(line[4..], ']');
    if IsHeader(line) {
      var name := HeaderName(line);
      assert line[4..][..FindSub(line[4..], "]").value] == name;
      if |name| == 10 { LowerIsEither(name); }
    }
  }

  lemma SectionLine(line: string)
    requires IsSection(line)
    ensures !IsHeader(line) && !IsBullet(line) && ClassifyLine(line) == Section(SectionName(line))
  {
    assert line[0] == '#' && line[2] == '#' && "## ["[2] == ' ';
  }

  /** Indentation does not change a title. */
  lemma IndentIsTrimmed(line: string)
    requires "  - " <= line
    ensures StripAndTruncate(line[2..]) == StripAndTruncate(line)
  {
    assert line[0] == ' ' && line[1] == ' ';
    assert line[1..][1..] == line[2..];
    assert TrimStart(line) == TrimStart(line[1..]) == TrimStart(line[2..]);
  }

  lemma OtherLine(line: string)
    requires !("## [" <= line) && !IsSection(line)
    ensures !IsHeader(line)
    ensures ClassifyLine(line) == if IsBullet(line) then Bullet(TitleOf(line)) else Line.Text
  {
    if "#### " <= line {
      assert line[0] == '#';
    } else if "  - " <= line {
      IndentIsTrimmed(line);
    }
  }

  // ---------------------------------------------------------------- the machine agrees

  ghost predicate Agrees(o: Options, lines: seq<string>, n: nat, s: ParseState)
    requires n <= |lines|
  {
    var h, g := LastHeader(lines, n), LastSection(lines, n);
    if h < 0 || SaysUnreleased(HeaderName(lines[h])) then s.version.None? && !s.inRange
    else
      && s.version == Some(HeaderName(lines[h])) && s.inRange == o.inRange(HeaderName(lines[h]))
      && s.section == (if g > h then Some(SectionName(lines[g])) else None)
      && (Captures(o, s) ==> s.idx == BulletsBetween(lines, g, n))
  }

  lemma CapturesIff(o: Options, lines: seq<string>, n: nat, s: ParseState)
    requires n <= |lines| && Agrees(o, lines, n, s)
    ensures Captures(o, s) <==> Released(o, lines, n) && Sectioned(o, lines, n)
  {
  }

  lemma EmitsCaptured(o: Options, lines: seq<string>, n: nat, s: ParseState)
    requires n < |lines| && Agrees(o, lines, n, s)
    ensures Emit(o, s, ClassifyLine(lines[n])) == EntriesAt(o, lines, n)
  {
    CapturesIff(o, lines, n, s);
    var line := lines[n];
    if "## [" <= line { HeaderLine(line); } else if IsSection(line) { SectionLine(line); } else { OtherLine(line); }
  }

  lemma HeaderAgrees(o: Options, lines: seq<string>, n: nat, s: ParseState)
    requires n < |lines| && Agrees(o, lines, n, s) && "## [" <= lines[n]
    ensures Agrees(o, lines, n + 1, Step(o, s, ClassifyLine(lines[n])))
  {
    HeaderLine(lines[n]);
    if !IsHeader(lines[n]) {
      SkippedAgrees(o, lines, n, s);
    }
  }

  /** A line that is neither header, section nor bullet. */
  lemma SkippedAgrees(o: Options, lines: seq<string>, n: nat, s: ParseState)
    requires n < |lines| && Agrees(o, lines, n, s)
    requires !IsHeader(lines[n]) && !IsSection(lines[n]) && !IsBullet(lines[n])
    ensures Agrees(o, lines, n + 1, s)
  {
  }

  lemma SectionAgrees(o: Options, lines: seq<string>, n: nat, s: ParseState)
    requires n < |lines| && Agrees(o, lines, n, s) && IsSection(lines[n])
    ensures Agrees(o, lines, n + 1, Step(o, s, ClassifyLine(lines[n])))
  {
    SectionLine(lines[n]);
    assert BulletsBetween(lines, n, n + 1) == 0;
  }

  lemma OtherAgrees(o: Options, lines: seq<string>, n: nat, s: ParseState)
    requires n < |lines| && Agrees(o, lines, n, s) && !("## [" <= lines[n]) && !IsSection(lines[n])
    ensures Agrees(o, lines, n + 1, Step(o, s, ClassifyLine(lines[n])))
  {
    OtherLine(lines[n]);
    if !IsBullet(lines[n]) {
      SkippedAgrees(o, lines, n, s);
    }
  }

  lemma LineAgrees(o: Options, lines: seq<string>, n: nat, s: ParseState)
    requires n < |lines| && Agrees(o, lines, n, s)
    ensures Agrees(o, lines, n + 1, Step(o, s, ClassifyLine(lines[n])))
  {
    if "## [" <= lines[n] {
      HeaderAgrees(o, lines, n, s);
    } else if IsSection(lines[n]) {
      SectionAgrees(o, lines, n, s);
    } else {
      OtherAgrees(o, lines, n, s);
    }
  }

  lemma {:induction false} MachineGathers(o: Options, lines: seq<string>, f: nat -> seq<Entry>, n: nat, s: ParseState)
    requires n <= |lines| && Agrees(o, lines, n, s) && forall i :: f(i) == EntriesAt(o, lines, i)
    ensures Entries(o, s, ClassifyLines(lines)[n..]) == Gather(f, n, |lines|)
    decreases |lines| - n
  {
    var ls := ClassifyLines(lines);
    if n < |lines| {
      assert ls[n..][0] == ClassifyLine(lines[n]) && ls[n..][1..] == ls[n + 1..];
      EmitsCaptured(o, lines, n, s);
      LineAgrees(o, lines, n, s);
      MachineGathers(o, lines, f, n + 1, Step(o, s, ClassifyLine(lines[n])));
    }
  }

  /** The parse of a file is its captured lines, in order. */
  lemma ParseIsListing(o: Options, lines: seq<string>)
    ensures Parse(o, lines) == Listing(o, lines)
  {
    MachineGathers(o, lines, ByLine(o, lines), 0, START);
    assert ClassifyLines(lines)[0..] == ClassifyLines(lines);
  }

  // ---------------------------------------------------------------- reading the listing

  lemma {:induction false} GatheredIff(f: nat -> seq<Entry>, n: nat, end: nat, e: Entry)
    ensures e in Gather(f, n, end) <==> exists i :: n <= i < end && e in f(i)
    decreases end - n
  {
    if n < end {
      GatheredIff(f, n + 1, end, e);
    }
  }

  /** An entry is parsed if and only if some captured line yields it. */
  lemma ParsedIff(o: Options, lines: seq<string>, e: Entry)
    ensures e in Parse(o, lines) <==> exists i :: 0 <= i < |lines| && e in EntriesAt(o, lines, i)
  {
    var f := ByLine(o, lines);
    ParseIsListing(o, lines);
    GatheredIff(f, 0, |lines|, e);
    assert forall i: nat :: f(i) == EntriesAt(o, lines, i);
    if i :| 0 <= i < |lines| && e in EntriesAt(o, lines, i) {
      assert e in f(i);
    }
  }

  /** The rank of an entry counts entries: every bullet between the section line and it is captured too. */
  lemma RankCountsEntries(o: Options, lines: seq<string>, n: nat, j: nat)
    requires n < |lines| && Captured(o, lines, n) && LastSection(lines, n) < j < n && IsBullet(lines[j])
    ensures Captured(o, lines, j)
    ensures EntryAt(o, lines, j).version == EntryAt(o, lines, n).version
    ensures EntryAt(o, lines, j).section == EntryAt(o, lines, n).section
    ensures EntryAt(o, lines, j).idx < EntryAt(o, lines, n).idx
  {
    assert LastHeader(lines, j) == LastHeader(lines, n) && LastSection(lines, j) == LastSection(lines, n);
    BulletsGrow(lines, LastSection(lines, n), j, n);
  }

  lemma {:induction false} BulletsGrow(lines: seq<string>, g: int, j: nat, n: nat)
    requires g < j < n <= |lines| && IsBullet(lines[j])
    ensures BulletsBetween(lines, g, j) < BulletsBetween(lines, g, n)
    decreases n
  {
    if j + 1 < n {
      BulletsGrow(lines, g, j, n - 1);
    }
  }

  /** The kind of every entry follows from its section. */
  lemma KindsOfEntries(o: Options, lines: seq<string>, e: Entry)
    requires e in Parse(o, lines)
    ensures e.kind == Feature <==> e.section == "Added"
    ensures e.kind == Enhancement <==> e.section == "Changed" || e.section == "Performance"
    ensures e.kind == Fix <==> e.section == "Fixed" || e.section == "Security" || e.section == "Privacy"
  {
    ParsedIff(o, lines, e);
  }
}
