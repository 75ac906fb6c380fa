/** Titles, section slugs and version numbers of the CHANGELOG parser, by the texts they come from. */
module ChangelogTitles {
  import opened Wrappers
  import opened Text
  import opened ChangelogParse
  import opened ChangelogLines

  // ---------------------------------------------------------------- bold markers

  /** A stretch of plain text and the bold one after it. */
  datatype Span = Span(plain: string, bold: string)

  function Marked(spans: seq<Span>): string {
    if spans == [] then [] else spans[0].plain + ("**" + (spans[0].bold + ("**" + Marked(spans[1..]))))
  }

  function Unmarked(spans: seq<Span>): string {
    if spans == [] then [] else spans[0].plain + (spans[0].bold + Unmarked(spans[1..]))
  }

  lemma PlainHead(s: string)
    requires s != [] && s[0] != '*'
    ensures RemoveBold(s) == [s[0]] + RemoveBold(s[1..])
  {
    assert "**"[0] == '*';
  }

  lemma HeadOf(a: string, rest: string)
    requires a != []
    ensures (a + rest)[0] == a[0] && (a + rest)[1..] == a[1..] + rest && [a[0]] + (a[1..] + rest) == a + rest
  {
  }

  lemma {:induction false} PlainStays(a: string, rest: string)
    requires '*' !in a
    ensures RemoveBold(a + rest) == a + RemoveBold(rest)
  {
    if a == [] {
      assert a + rest == rest && a + RemoveBold(rest) == RemoveBold(rest);
    } else {
      HeadOf(a, rest);
      PlainHead(a + rest);
      PlainStays(a[1..], rest);
      HeadOf(a, RemoveBold(rest));
    }
  }

  lemma {:induction false} ClosingFound(bold: string, rest: string)
    requires '*' !in bold
    ensures FindSub(bold + ("**" + rest), "**") == Some(|bold|)
  {
    var s := bold + ("**" + rest);
    if bold == [] {
      assert s == "**" + rest;
    } else {
      assert s[0] == bold[0] && s[1..] == bold[1..] + ("**" + rest);
      ClosingFound(bold[1..], rest);
    }
  }

  lemma MarksOff(bold: string, rest: string)
    requires '*' !in bold
    ensures RemoveBold("**" + (bold + ("**" + rest))) == bold + RemoveBold(rest)
  {
    var s := "**" + (bold + ("**" + rest));
    assert s[2..] == bold + ("**" + rest);
    ClosingFound(bold, rest);
    assert s[2..2 + |bold|] == bold && s[2 + |bold| + 2..] == rest;
  }

  /** Closed markers come off, wherever they stand, and the text between them stays. */
  lemma {:induction false} BoldMarksComeOff(spans: seq<Span>, tail: string)
    requires forall s :: s in spans ==> '*' !in s.plain && '*' !in s.bold
    ensures RemoveBold(Marked(spans) + tail) == Unmarked(spans) + RemoveBold(tail)
    decreases |spans|
  {
    if spans == [] {
      assert Marked(spans) + tail == tail && Unmarked(spans) + RemoveBold(tail) == RemoveBold(tail);
    } else {
      assert spans[0] in spans;
      var p, b, more := spans[0].plain, spans[0].bold, Marked(spans[1..]) + tail;
      BoldMarksComeOff(spans[1..], tail);
      SpanThen(p, b, Marked(spans[1..]), tail);
      PlainStays(p, "**" + (b + ("**" + more)));
      MarksOff(b, more);
      UnmarkedThen(p, b, Unmarked(spans[1..]), RemoveBold(tail));
    }
  }

  lemma SpanThen(p: string, b: string, m: string, tail: string)
    ensures p + ("**" + (b + ("**" + m))) + tail == p + ("**" + (b + ("**" + (m + tail))))
  {
  }

  lemma UnmarkedThen(p: string, b: string, u: string, tail: string)
    ensures p + (b + (u + tail)) == p + (b + u) + tail
  {
  }

  lemma {:induction false} NothingCloses(b: string)
    requires '*' !in b
    ensures FindSub(b, "**").None?
  {
    if b != [] {
      assert !("**" <= b) by { assert b[0] != '*' && "**"[0] == '*'; }
      NothingCloses(b[1..]);
    }
  }

  /** A marker that nothing closes is part of the text. */
  lemma OpenMarkStays(a: string, b: string)
    requires '*' !in a && '*' !in b
    ensures RemoveBold(a + "**" + b) == a + "**" + b
  {
    assert a + "**" + b == a + ("**" + b);
    PlainStays(a, "**" + b);
    TwoStarsStay(b);
  }

  lemma TwoStarsStay(b: string)
    requires '*' !in b
    ensures RemoveBold("**" + b) == "**" + b
  {
    var s := "**" + b;
    assert s[2..] == b && s[1..] == "*" + b;
    NothingCloses(b);
    OneStarStays(b);
    assert ['*'] + ("*" + b) == s;
  }

  lemma OneStarStays(b: string)
    requires '*' !in b
    ensures RemoveBold("*" + b) == "*" + b
  {
    var s := "*" + b;
    assert s[1..] == b && (|s| >= 2 ==> s[1] == b[0]);
    PlainStays(b, []);
    assert b + [] == b && RemoveBold([]) == [];
  }

  // ---------------------------------------------------------------- titles

  /** The title of a bullet, plain or indented, whatever surrounds its text: at most eighty characters of it. */
  lemma TitleOfBullet(indent: bool, before: string, t: string, after: string)
    requires t != [] && !IsWhitespace(t[0]) && !IsWhitespace(t[|t| - 1]) && '*' !in t
    requires (forall c :: c in before ==> IsWhitespace(c)) && forall c :: c in after ==> IsWhitespace(c)
    ensures TitleOf((if indent then "  - " else "- ") + (before + t + after))
         == if |t| <= 80 then t else t[..80]
  {
    var text := before + t + after;
    TitleAfterDash(before, t, after);
    if indent {
      assert ("  - " + text)[2..] == "- " + text;
      IndentIsTrimmed("  - " + text);
    }
  }

  lemma TitleAfterDash(before: string, t: string, after: string)
    requires t != [] && !IsWhitespace(t[0]) && !IsWhitespace(t[|t| - 1]) && '*' !in t
    requires (forall c :: c in before ==> IsWhitespace(c)) && forall c :: c in after ==> IsWhitespace(c)
    ensures StripAndTruncate("- " + (before + t + after)) == if |t| <= 80 then t else t[..80]
  {
    var inner := "- " + before + t;
    assert "- " + (before + t + after) == [] + inner + after;
    TrimSurrounded([], inner, after);
    assert inner[2..] == before + t + [];
    TrimSurrounded(before, t, []);
    assert "- " <= inner;
    PlainStays(t, []);
    assert t + [] == t && RemoveBold([]) == [];
  }

  // ---------------------------------------------------------------- section slugs

  /** A slug is built letter by letter: each in lower case, with `_` before a capital inside. */
  lemma {:induction false} SlugOfConcat(isUpper: IsUpper, a: string, b: string)
    requires a != [] && b != []
    ensures SectionToSnake(isUpper, a + b)
         == SectionToSnake(isUpper, a) + Bar(isUpper, b[0]) + SectionToSnake(isUpper, b)
  {
    assert (a + b)[1..] == a[1..] + b && (a + b)[0] == a[0];
    SlugOfRest(isUpper, a[1..], b);
    SlugHead(isUpper, a + b);
    SlugHead(isUpper, a);
    SlugHead(isUpper, b);
    RegroupLeft([ToAsciiLower(a[0])], SnakeFrom(isUpper, a[1..], false), Bar(isUpper, b[0]),
                SnakeFrom(isUpper, b, true));
  }

  function Bar(isUpper: IsUpper, c: char): string {
    if isUpper(c) then "_" else ""
  }

  lemma SlugHead(isUpper: IsUpper, s: string)
    requires s != []
    ensures SnakeFrom(isUpper, s, true) == [ToAsciiLower(s[0])] + SnakeFrom(isUpper, s[1..], false)
    ensures SnakeFrom(isUpper, s, false) == Bar(isUpper, s[0]) + SnakeFrom(isUpper, s, true)
  {
    var low, rest, bar := [ToAsciiLower(s[0])], SnakeFrom(isUpper, s[1..], false), Bar(isUpper, s[0]);
    assert SnakeFrom(isUpper, s, true) == "" + low + rest;
    assert SnakeFrom(isUpper, s, false) == bar + low + rest;
    Glue(bar, low, rest);
  }

  lemma Glue(x: string, y: string, z: string)
    ensures x + y + z == x + (y + z) && "" + y + z == y + z
  {
  }

  lemma {:induction false} SlugOfRest(isUpper: IsUpper, a: string, b: string)
    requires b != []
    ensures SnakeFrom(isUpper, a + b, false) == SnakeFrom(isUpper, a, false) + SnakeFrom(isUpper, b, false)
    decreases |a|
  {
    if a == [] {
      assert a + b == b;
    } else {
      assert (a + b)[1..] == a[1..] + b && (a + b)[0] == a[0];
      SlugOfRest(isUpper, a[1..], b);
      SlugHead(isUpper, a + b);
      SlugHead(isUpper, a);
      Regroup(Bar(isUpper, a[0]), [ToAsciiLower(a[0])], SnakeFrom(isUpper, a[1..], false),
              SnakeFrom(isUpper, b, false));
    }
  }

  lemma RegroupLeft(w: string, x: string, y: string, z: string)
    ensures w + (x + (y + z)) == w + x + y + z
  {
  }

  lemma Regroup(w: string, x: string, y: string, z: string)
    ensures w + (x + (y + z)) == (w + (x + y)) + z
  {
  }

  lemma SlugOfLetter(isUpper: IsUpper, c: char)
    ensures SectionToSnake(isUpper, [c])
         == (if 'A' <= c <= 'Z' then [(c as int - 'A' as int + 'a' as int) as char] else [c])
  {
    SlugHead(isUpper, [c]);
    assert [c][1..] == [] && SnakeFrom(isUpper, [], false) == [];
    assert [ToAsciiLower(c)] + [] == [ToAsciiLower(c)];
  }

  lemma SlugOfAdded(isUpper: IsUpper)
    requires isUpper('A') && !isUpper('d') && !isUpper('e')
    ensures SectionToSnake(isUpper, "Added") == "added"
  {
    SlugOfLetter(isUpper, 'A');
    SlugOfLetter(isUpper, 'd');
    SlugOfLetter(isUpper, 'e');
    assert SectionToSnake(isUpper, "Ad") == "ad" by {
      SlugOfConcat(isUpper, "A", "d");
      assert "A" + "d" == "Ad";
    }
    assert SectionToSnake(isUpper, "Add") == "add" by {
      SlugOfConcat(isUpper, "Ad", "d");
      assert "Ad" + "d" == "Add";
    }
    assert SectionToSnake(isUpper, "Adde") == "adde" by {
      SlugOfConcat(isUpper, "Add", "e");
      assert "Add" + "e" == "Adde";
    }
    assert SectionToSnake(isUpper, "Added") == "added" by {
      SlugOfConcat(isUpper, "Adde", "d");
      assert "Adde" + "d" == "Added";
    }
  }

  /** The marker of the first addition of a version, with any Unicode table that knows the three letters. */
  lemma MarkerOfFirstAddition(isUpper: IsUpper, version: string)
    requires isUpper('A') && !isUpper('d') && !isUpper('e')
    ensures MarkerFormat(isUpper)(version, "Added", 0) == "changelog/" + version + "/added/0"
  {
    SlugOfAdded(isUpper);
    assert Decimal(0) == "0";
    MarkerText("changelog/" + version);
  }

  lemma MarkerText(head: string)
    ensures head + "/" + "added" + "/" + "0" == head + "/added/0"
  {
  }

  // ---------------------------------------------------------------- versions

  function Dotted(a: nat, b: nat, c: nat): string {
    Decimal(a) + ['.'] + (Decimal(b) + ['.'] + Decimal(c))
  }

  lemma NumeralHasNo(n: nat, c: char)
    requires !IsDigit(c)
    ensures c !in Decimal(n)
  {
    DecimalRoundTrip(n);
  }

  /** A component reads back its number, with or without a suffix. */
  lemma ComponentOfNumeral(n: nat, suffix: string)
    requires n <= U64_MAX && (suffix == "" || suffix[0] == '-')
    ensures ParseUnsigned(Split(Decimal(n) + suffix, '-')[0], U64_MAX) == Some(n)
  {
    NumeralHasNo(n, '-');
    DecimalRoundTrip(n);
    if suffix == "" {
      assert Decimal(n) + suffix == Decimal(n);
      SplitFirst(Decimal(n), '-', "");
    } else {
      assert Decimal(n) + suffix == Decimal(n) + ['-'] + suffix[1..];
      SplitFirst(Decimal(n), '-', suffix[1..]);
    }
    var d := Decimal(n);
    assert d[0] != '+' by { assert IsDigit(d[0]); }
  }

  /** The numbers of a printed version, whose last component may carry a suffix such as `-rc.1`. */
  lemma TripleOfDotted(a: nat, b: nat, c: nat, suffix: string)
    requires a <= U64_MAX && b <= U64_MAX && c <= U64_MAX && (suffix == "" || suffix[0] == '-')
    ensures SemverTriple(Dotted(a, b, c) + suffix) == Triple(a, b, c)
  {
    NumeralHasNo(a, '.');
    NumeralHasNo(b, '.');
    NumeralHasNo(c, '.');
    ThreeParts(Decimal(a), Decimal(b), Decimal(c), suffix);
    ComponentPlain(a);
    ComponentPlain(b);
    LastComponent(c, suffix);
  }

  lemma ThreeParts(x: string, y: string, z: string, suffix: string)
    requires '.' !in x && '.' !in y
    ensures var parts := Split(x + ['.'] + (y + ['.'] + z) + suffix, '.');
            |parts| >= 3 && parts[0] == x && parts[1] == y && parts[2] == Split(z + suffix, '.')[0]
  {
    var tail := z + suffix;
    assert x + ['.'] + (y + ['.'] + z) + suffix == x + ['.'] + (y + ['.'] + tail);
    SplitFirst(x, '.', y + ['.'] + tail);
    SplitFirst(y, '.', tail);
  }

  lemma ComponentPlain(n: nat)
    requires n <= U64_MAX
    ensures ParseUnsigned(Split(Decimal(n), '-')[0], U64_MAX) == Some(n)
  {
    assert Decimal(n) + "" == Decimal(n);
    ComponentOfNumeral(n, "");
  }

  /** The last component ends at the first dot of its suffix. */
  lemma LastComponent(c: nat, suffix: string)
    requires c <= U64_MAX && (suffix == "" || suffix[0] == '-')
    ensures ParseUnsigned(Split(Split(Decimal(c) + suffix, '.')[0], '-')[0], U64_MAX) == Some(c)
  {
    NumeralHasNo(c, '.');
    FirstPart(Decimal(c), suffix, '.');
    ComponentOfNumeral(c, Before(suffix, '.'));
  }

  lemma FirstPart(d: string, suffix: string, sep: char)
    requires sep !in d
    ensures Split(d + suffix, sep)[0] == d + Before(suffix, sep)
  {
    var head := Before(suffix, sep);
    if sep in suffix {
      assert suffix == head + [sep] + suffix[|head| + 1..];
      assert d + suffix == (d + head) + [sep] + suffix[|head| + 1..];
      SplitFirst(d + head, sep, suffix[|head| + 1..]);
    } else {
      NoneBefore(suffix, sep);
      SplitFirst(d + suffix, sep, "");
    }
  }

  lemma {:induction false} NoneBefore(s: string, c: char)
    requires c !in s
    ensures Before(s, c) == s
  {
    if s != [] {
      NoneBefore(s[1..], c);
    }
  }

  /** A version lies in a range by its numbers, the first that differs deciding. */
  lemma RangeByNumbers(a: nat, b: nat, c: nat, a': nat, b': nat, c': nat, v: string)
    requires a <= U64_MAX && b <= U64_MAX && c <= U64_MAX && a' <= U64_MAX && b' <= U64_MAX && c' <= U64_MAX
    ensures AtMost(Triple(a, b, c), Triple(a', b', c')) <==>
              if a != a' then a < a' else if b != b' then b < b' else c <= c'
    ensures VersionTest(Dotted(a, b, c), Dotted(a', b', c'))(v) <==>
              AtMost(Triple(a, b, c), SemverTriple(v)) && AtMost(SemverTriple(v), Triple(a', b', c'))
  {
    assert Dotted(a, b, c) + "" == Dotted(a, b, c) && Dotted(a', b', c') + "" == Dotted(a', b', c');
    TripleOfDotted(a, b, c, "");
    TripleOfDotted(a', b', c', "");
  }

  // ---------------------------------------------------------------- a whole file

  lemma HeaderText(v: string, rest: string)
    requires ']' !in v
    ensures IsHeader("## [" + (v + "]" + rest)) && HeaderName("## [" + (v + "]" + rest)) == v
  {
    var line := "## [" + (v + "]" + rest);
    assert line[4..] == v + "]" + rest && line[4..][|v|] == ']';
    BeforeFirst(v, ']', rest);
  }

  lemma {:induction false} BeforeFirst(a: string, c: char, b: string)
    requires c !in a
    ensures Before(a + [c] + b, c) == a
  {
    if a != [] {
      assert (a + [c] + b)[1..] == a[1..] + [c] + b;
      BeforeFirst(a[1..], c, b);
    }
  }

  /** A version, a section and one bullet make one entry, with rank 0. */
  lemma OneBulletFile(o: Options, v: string, rest: string, section: string, t: string)
    requires ']' !in v && !SaysUnreleased(v) && o.inRange(v)
    requires Trim(section) == section && (o.includeMeta || IsStandardSection(section))
    requires t != [] && !IsWhitespace(t[0]) && !IsWhitespace(t[|t| - 1]) && '*' !in t && |t| <= 80
    ensures Parse(o, ["## [" + (v + "]" + rest), "### " + section, "- " + t])
         == [Entry(v, section, SectionToKind(section), t, o.marker(v, section, 0), 0)]
  {
    var head, mid, bullet := "## [" + (v + "]" + rest), "### " + section, "- " + t;
    HeaderText(v, rest);
    HeaderLine(head);
    assert mid[4..] == section;
    SectionLine(mid);
    assert [] + t + [] == t;
    TitleOfBullet(false, [], t, []);
    OneListed(o, head, mid, bullet);
  }

  lemma OneListed(o: Options, head: string, mid: string, bullet: string)
    requires IsHeader(head) && IsSection(mid) && IsBullet(bullet)
    requires !IsSection(head) && !IsBullet(head) && !IsHeader(mid) && !IsBullet(mid)
    requires !SaysUnreleased(HeaderName(head)) && o.inRange(HeaderName(head))
    requires o.includeMeta || IsStandardSection(SectionName(mid))
    ensures var v, section := HeaderName(head), SectionName(mid);
            Parse(o, [head, mid, bullet])
            == [Entry(v, section, SectionToKind(section), TitleOf(bullet), o.marker(v, section, 0), 0)]
  {
    var lines := [head, mid, bullet];
    ParseIsListing(o, lines);
    ThirdLine(o, lines);
    GatherThree(ByLine(o, lines));
    assert EntriesAt(o, lines, 0) == [] && EntriesAt(o, lines, 1) == [];
  }

  lemma ThirdLine(o: Options, lines: seq<string>)
    requires |lines| == 3 && IsHeader(lines[0]) && IsSection(lines[1]) && IsBullet(lines[2]) && !IsHeader(lines[1])
    requires !SaysUnreleased(HeaderName(lines[0])) && o.inRange(HeaderName(lines[0]))
    requires o.includeMeta || IsStandardSection(SectionName(lines[1]))
    ensures var v, section := HeaderName(lines[0]), SectionName(lines[1]);
            EntriesAt(o, lines, 2)
            == [Entry(v, section, SectionToKind(section), TitleOf(lines[2]), o.marker(v, section, 0), 0)]
  {
    assert LastHeader(lines, 2) == 0 && LastSection(lines, 2) == 1 && BulletsBetween(lines, 1, 2) == 0;
  }

  lemma GatherThree(f: nat -> seq<Entry>)
    ensures Gather(f, 0, 3) == f(0) + f(1) + f(2)
  {
    assert Gather(f, 2, 3) == f(2) + Gather(f, 3, 3);
    assert Gather(f, 1, 3) == f(1) + Gather(f, 2, 3);
  }
}
