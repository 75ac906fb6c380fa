/** Source markers as identities: when two entries share one, and what a rendered marker matches. */
module SourceMarkers {
  import opened Wrappers
  import opened Text
  import opened ChangelogParse
  import opened MarkerMatch

  // ---------------------------------------------------------------- snake case of the standard sections

  /** The Unicode table agrees with ASCII. */
  ghost predicate AsciiTable(isUpper: IsUpper) {
    forall c :: c < '\U{80}' ==> (isUpper(c) <==> 'A' <= c <= 'Z')
  }

  predicate AllLower(s: string) {
    forall i :: 0 <= i < |s| ==> 'a' <= s[i] <= 'z'
  }

  predicate Capitalised(s: string) {
    s != [] && 'A' <= s[0] <= 'Z' && AllLower(s[1..])
  }

  lemma {:induction false} SnakeOfLower(isUpper: IsUpper, s: string)
    requires AsciiTable(isUpper) && AllLower(s)
    ensures SnakeFrom(isUpper, s, false) == s
    decreases |s|
  {
    if s != [] {
      assert !isUpper(s[0]);
      SnakeOfLower(isUpper, s[1..]);
      assert s == [s[0]] + s[1..];
    }
  }

  lemma SnakeOfCapitalised(isUpper: IsUpper, s: string)
    requires AsciiTable(isUpper) && Capitalised(s)
    ensures SectionToSnake(isUpper, s) == [ToAsciiLower(s[0])] + s[1..]
    ensures AllLower(SectionToSnake(isUpper, s))
  {
    SnakeOfLower(isUpper, s[1..]);
  }

  lemma StandardSectionShape(s: string)
    requires IsStandardSection(s)
    ensures Capitalised(s) && |s| >= 5 && s[|s| - 1] != 'g'
  {
    assert s == "Added" || s == "Changed" || s == "Fixed" || s == "Security" || s == "Removed" || s == "Deprecated"
        || s == "Performance" || s == "Privacy";
  }

  // ---------------------------------------------------------------- reading a marker back

  lemma {:induction false} DecimalHasNoSlash(n: nat)
    ensures '/' !in Decimal(n)
  {
    DecimalRoundTrip(n);
  }

  lemma MarkerParts(v: string, snake: string, rank: string, v': string, snake': string, rank': string)
    requires '/' !in snake && '/' !in rank && '/' !in snake' && '/' !in rank'
    requires "changelog/" + v + "/" + snake + "/" + rank == "changelog/" + v' + "/" + snake' + "/" + rank'
    ensures v == v' && snake == snake' && rank == rank'
  {
    var a, a' := "changelog/" + v, "changelog/" + v';
    LastSeparator(a + "/" + snake, rank, a' + "/" + snake', rank', '/');
    LastSeparator(a, snake, a', snake', '/');
    assert a[10..] == v && a'[10..] == v';
  }

  lemma SameSnake(s: string, s': string)
    requires Capitalised(s) && Capitalised(s')
    requires [ToAsciiLower(s[0])] + s[1..] == [ToAsciiLower(s'[0])] + s'[1..]
    ensures s == s'
  {
    var snake, snake' := [ToAsciiLower(s[0])] + s[1..], [ToAsciiLower(s'[0])] + s'[1..];
    assert snake[0] == snake'[0] && snake[1..] == s[1..] && snake'[1..] == s'[1..];
    assert s == [s[0]] + s[1..] && s' == [s'[0]] + s'[1..];
  }

  /** A marker determines its version, its standard section and its rank, whatever the version looks like. */
  lemma MarkerInjective(isUpper: IsUpper, v: string, s: string, n: nat, v': string, s': string, n': nat)
    requires AsciiTable(isUpper) && IsStandardSection(s) && IsStandardSection(s')
    requires SourceMarker(isUpper, v, s, n) == SourceMarker(isUpper, v', s', n')
    ensures v == v' && s == s' && n == n'
  {
    StandardSectionShape(s);
    StandardSectionShape(s');
    SnakeOfCapitalised(isUpper, s);
    SnakeOfCapitalised(isUpper, s');
    DecimalHasNoSlash(n);
    DecimalHasNoSlash(n');
    MarkerParts(v, SectionToSnake(isUpper, s), Decimal(n), v', SectionToSnake(isUpper, s'), Decimal(n'));
    DecimalInjective(n, n');
    SameSnake(s, s');
  }

  // ---------------------------------------------------------------- which entries share a marker

  /** An entry with the number of header lines read before it. */
  datatype Tagged = Tagged(block: nat, entry: Entry)

  function NextBlock(line: Line, block: nat): nat {
    if line.Bullet? || line.Text? then block else block + 1
  }

  function TagAll(entries: seq<Entry>, block: nat): seq<Tagged> {
    seq(|entries|, i requires 0 <= i < |entries| => Tagged(block, entries[i]))
  }

  function Tag(o: Options, s: ParseState, lines: seq<Line>, block: nat): seq<Tagged>
    decreases |lines|
  {
    if lines == [] then []
    else TagAll(Emit(o, s, lines[0]), block) + Tag(o, Step(o, s, lines[0]), lines[1..], NextBlock(lines[0], block))
  }

  function Untag(tagged: seq<Tagged>): seq<Entry> {
    seq(|tagged|, i requires 0 <= i < |tagged| => tagged[i].entry)
  }

  lemma {:induction false} TagIsEntries(o: Options, s: ParseState, lines: seq<Line>, block: nat)
    ensures Untag(Tag(o, s, lines, block)) == Entries(o, s, lines)
    decreases |lines|
  {
    if lines != [] {
      TagIsEntries(o, Step(o, s, lines[0]), lines[1..], NextBlock(lines[0], block));
      var head := TagAll(Emit(o, s, lines[0]), block);
      var tail := Tag(o, Step(o, s, lines[0]), lines[1..], NextBlock(lines[0], block));
      assert Untag(head + tail) == Untag(head) + Untag(tail);
      assert Untag(head) == Emit(o, s, lines[0]);
    }
  }

  predicate Captured(o: Options, e: Entry) {
    && (o.includeMeta || IsStandardSection(e.section))
    && e.marker == o.marker(e.version, e.section, e.idx)
  }

  /** An entry of the current block continues the machine's version, section and rank. */
  predicate Continues(s: ParseState, t: Tagged) {
    s.version == Some(t.entry.version) && s.section == Some(t.entry.section) && t.entry.idx >= s.idx
  }

  lemma EmitShape(o: Options, s: ParseState, line: Line)
    ensures |Emit(o, s, line)| <= 1
    ensures |Emit(o, s, line)| == 1 ==>
              var e := Emit(o, s, line)[0];
              && line.Bullet? && Captured(o, e)
              && s.version == Some(e.version) && s.section == Some(e.section) && e.idx == s.idx
              && Step(o, s, line) == s.(idx := s.idx + 1)
    ensures Emit(o, s, line) == [] && (line.Bullet? || line.Text?) ==> Step(o, s, line) == s
    ensures !(line.Bullet? || line.Text?) ==> Step(o, s, line).section.None? || Step(o, s, line).idx == 0
  {}

  lemma {:induction false} TagShape(o: Options, s: ParseState, lines: seq<Line>, block: nat, i: nat)
    requires i < |Tag(o, s, lines, block)|
    ensures var t := Tag(o, s, lines, block)[i];
            t.block >= block && (t.block == block ==> Continues(s, t)) && Captured(o, t.entry)
    decreases |lines|
  {
    EmitShape(o, s, lines[0]);
    var n := |Emit(o, s, lines[0])|;
    var tail := Tag(o, Step(o, s, lines[0]), lines[1..], NextBlock(lines[0], block));
    if i >= n {
      TagShape(o, Step(o, s, lines[0]), lines[1..], NextBlock(lines[0], block), i - n);
      assert Tag(o, s, lines, block)[i] == tail[i - n];
    }
  }

  /** Inside one block the ranks increase and the version and section stay. */
  lemma {:induction false} BlockOrder(o: Options, s: ParseState, lines: seq<Line>, block: nat, i: nat, j: nat)
    requires i < j < |Tag(o, s, lines, block)|
    requires Tag(o, s, lines, block)[i].block == Tag(o, s, lines, block)[j].block
    ensures var x, y := Tag(o, s, lines, block)[i].entry, Tag(o, s, lines, block)[j].entry;
            x.version == y.version && x.section == y.section && x.idx < y.idx
    decreases |lines|
  {
    EmitShape(o, s, lines[0]);
    var n := |Emit(o, s, lines[0])|;
    var s', block' := Step(o, s, lines[0]), NextBlock(lines[0], block);
    var tail := Tag(o, s', lines[1..], block');
    assert Tag(o, s, lines, block)[j] == tail[j - n];
    if i >= n {
      assert Tag(o, s, lines, block)[i] == tail[i - n];
      BlockOrder(o, s', lines[1..], block', i - n, j - n);
    } else {
      TagShape(o, s', lines[1..], block', j - n);
    }
  }

  /** Every block that emits anything emits rank 0 first. */
  lemma {:induction false} BlockStart(o: Options, s: ParseState, lines: seq<Line>, block: nat, j: nat) returns (i: nat)
    requires j < |Tag(o, s, lines, block)|
    ensures i <= j && Tag(o, s, lines, block)[i].block == Tag(o, s, lines, block)[j].block
    ensures Tag(o, s, lines, block)[i].entry.idx == (if Tag(o, s, lines, block)[j].block == block then s.idx else 0)
    decreases |lines|
  {
    EmitShape(o, s, lines[0]);
    var n := |Emit(o, s, lines[0])|;
    var s', block' := Step(o, s, lines[0]), NextBlock(lines[0], block);
    var t, tail := Tag(o, s, lines, block), Tag(o, s', lines[1..], block');
    if n == 1 && t[j].block == block {
      i := 0;
    } else {
      assert t[j] == tail[j - n];
      var i' := BlockStart(o, s', lines[1..], block', j - n);
      i := i' + n;
      assert t[i] == tail[i'];
      TagShape(o, s', lines[1..], block', i');
    }
  }

  ghost predicate DistinctMarkers(entries: seq<Entry>) {
    forall i, j :: 0 <= i < j < |entries| ==> entries[i].marker != entries[j].marker
  }

  /** No version header and section header are repeated with entries under both. */
  ghost predicate NoSectionRepeated(tagged: seq<Tagged>) {
    forall i, j :: 0 <= i < j < |tagged| && tagged[i].block != tagged[j].block ==>
      tagged[i].entry.version != tagged[j].entry.version || tagged[i].entry.section != tagged[j].entry.section
  }

  /** All markers of a parse without meta sections are distinct if and only if no section of a version
      appears under two headers that both contribute entries. */
  lemma DistinctMarkersIff(o: Options, isUpper: IsUpper, lines: seq<string>)
    requires !o.includeMeta && AsciiTable(isUpper) && o.marker == MarkerFormat(isUpper)
    ensures DistinctMarkers(Parse(o, lines)) <==> NoSectionRepeated(Tag(o, START, ClassifyLines(lines), 0))
  {
    var ls := ClassifyLines(lines);
    var t := Tag(o, START, ls, 0);
    TagIsEntries(o, START, ls, 0);
    var entries := Parse(o, lines);
    assert forall i :: 0 <= i < |t| ==> entries[i] == t[i].entry;
    if NoSectionRepeated(t) {
      forall i, j | 0 <= i < j < |entries| ensures entries[i].marker != entries[j].marker {
        DifferentMarkers(o, isUpper, ls, i, j);
      }
    }
    if DistinctMarkers(entries) {
      forall i, j | 0 <= i < j < |t| && t[i].block != t[j].block
        ensures t[i].entry.version != t[j].entry.version || t[i].entry.section != t[j].entry.section
      {
        if t[i].entry.version == t[j].entry.version && t[i].entry.section == t[j].entry.section {
          var a, b := SharedMarker(o, ls, i, j);
        }
      }
    }
  }

  lemma DifferentMarkers(o: Options, isUpper: IsUpper, ls: seq<Line>, i: nat, j: nat)
    requires !o.includeMeta && AsciiTable(isUpper) && o.marker == MarkerFormat(isUpper)
    requires i < j < |Tag(o, START, ls, 0)| && NoSectionRepeated(Tag(o, START, ls, 0))
    ensures Tag(o, START, ls, 0)[i].entry.marker != Tag(o, START, ls, 0)[j].entry.marker
  {
    var t := Tag(o, START, ls, 0);
    TagShape(o, START, ls, 0, i);
    TagShape(o, START, ls, 0, j);
    if t[i].block == t[j].block { BlockOrder(o, START, ls, 0, i, j); }
    var x, y := t[i].entry, t[j].entry;
    if x.marker == y.marker {
      MarkerInjective(isUpper, x.version, x.section, x.idx, y.version, y.section, y.idx);
    }
  }

  /** Two blocks for one section of one version: their first entries carry the same marker. */
  lemma SharedMarker(o: Options, ls: seq<Line>, i: nat, j: nat) returns (a: nat, b: nat)
    requires i < j < |Tag(o, START, ls, 0)|
    requires Tag(o, START, ls, 0)[i].block != Tag(o, START, ls, 0)[j].block
    requires Tag(o, START, ls, 0)[i].entry.version == Tag(o, START, ls, 0)[j].entry.version
    requires Tag(o, START, ls, 0)[i].entry.section == Tag(o, START, ls, 0)[j].entry.section
    ensures a < |Tag(o, START, ls, 0)| && b < |Tag(o, START, ls, 0)| && a != b
    ensures Tag(o, START, ls, 0)[a].entry.marker == Tag(o, START, ls, 0)[b].entry.marker
  {
    var t := Tag(o, START, ls, 0);
    a := BlockStart(o, START, ls, 0, i);
    b := BlockStart(o, START, ls, 0, j);
    TagShape(o, START, ls, 0, a);
    TagShape(o, START, ls, 0, b);
    if a < i { BlockOrder(o, START, ls, 0, a, i); }
    if b < j { BlockOrder(o, START, ls, 0, b, j); }
  }

  // ---------------------------------------------------------------- rendered markers

  predicate DigitsAndDots(v: string) {
    forall i :: 0 <= i < |v| ==> IsDigit(v[i]) || v[i] == '.'
  }

  /** The three segments of a marker of a numeric version and a standard section. */
  datatype Parts = Parts(version: string, snake: string, rank: string)

  predicate WellFormedParts(p: Parts) {
    && DigitsAndDots(p.version)
    && AllLower(p.snake) && p.snake != [] && p.snake[|p.snake| - 1] != 'g'
    && AllDigits(p.rank) && p.rank != []
  }

  const HEAD := "changelog/"

  function Join(p: Parts): string {
    HEAD + p.version + "/" + p.snake + "/" + p.rank
  }

  function SecondSlash(p: Parts): nat { 10 + |p.version| }

  function ThirdSlash(p: Parts): nat { SecondSlash(p) + 1 + |p.snake| }

  lemma PartsOf(isUpper: IsUpper, v: string, s: string, n: nat) returns (p: Parts)
    requires AsciiTable(isUpper) && IsStandardSection(s) && DigitsAndDots(v)
    ensures WellFormedParts(p) && Join(p) == SourceMarker(isUpper, v, s, n)
  {
    StandardSectionShape(s);
    SnakeOfCapitalised(isUpper, s);
    DecimalRoundTrip(n);
    p := Parts(v, SectionToSnake(isUpper, s), Decimal(n));
    assert p.snake[|p.snake| - 1] == s[|s| - 1];
  }

  /** Every character of a marker, by position. */
  lemma Layout(p: Parts, q: nat)
    requires WellFormedParts(p) && q < |Join(p)|
    ensures |Join(p)| == ThirdSlash(p) + 1 + |p.rank|
    ensures Join(p)[q] ==
            if q < 10 then HEAD[q]
            else if q < SecondSlash(p) then p.version[q - 10]
            else if q == SecondSlash(p) then '/'
            else if q < ThirdSlash(p) then p.snake[q - SecondSlash(p) - 1]
            else if q == ThirdSlash(p) then '/'
            else p.rank[q - ThirdSlash(p) - 1]
  {}

  lemma SlashesOf(p: Parts, q: nat)
    requires WellFormedParts(p) && q < |Join(p)|
    ensures Join(p)[q] == '/' <==> q == 9 || q == SecondSlash(p) || q == ThirdSlash(p)
  {
    Layout(p, q);
  }

  lemma NoGBeforeLaterSlash(p: Parts)
    requires WellFormedParts(p)
    ensures ThirdSlash(p) < |Join(p)| && Join(p)[SecondSlash(p) - 1] != 'g' && Join(p)[ThirdSlash(p) - 1] != 'g'
  {
    Layout(p, 0);
    Layout(p, SecondSlash(p) - 1);
    Layout(p, ThirdSlash(p) - 1);
  }

  /** A rendered marker has no border at all, so the search is exact for it. */
  lemma RenderedMarkerHasNoBorder(p: Parts, k: nat)
    requires WellFormedParts(p)
    ensures !BorderAt(Join(p), k)
  {
    var m := Join(p);
    if BorderAt(m, k) {
      var pos := |m| - k;
      Layout(p, |m| - 1);
      assert m[..k][k - 1] == m[pos..][k - 1];
      assert m[k - 1] == m[|m| - 1];
      Layout(p, k - 1);
      assert k >= 11;
      assert m[..k][9] == m[pos..][9] && m[..k][8] == m[pos..][8];
      Layout(p, 9);
      Layout(p, 8);
      SlashesOf(p, pos + 9);
      NoGBeforeLaterSlash(p);
    }
  }

  const COMMENT_OPEN := "<!-- pm-source: "
  const COMMENT_CLOSE := " -->"

  function Comment(marker: string): string {
    COMMENT_OPEN + marker + COMMENT_CLOSE
  }

  lemma CommentSlashes(p: Parts, q: nat)
    requires WellFormedParts(p) && q < |Comment(Join(p))|
    ensures |COMMENT_OPEN| == 16
    ensures Comment(Join(p))[q] == '/' <==> q == 25 || q == 16 + SecondSlash(p) || q == 16 + ThirdSlash(p)
  {
    if 16 <= q < 16 + |Join(p)| {
      SlashesOf(p, q - 16);
      assert Comment(Join(p))[q] == Join(p)[q - 16];
    } else if q < 16 {
      assert Comment(Join(p))[q] == COMMENT_OPEN[q];
    } else {
      assert Comment(Join(p))[q] == COMMENT_CLOSE[q - 16 - |Join(p)|];
    }
  }

  lemma SlashInComment(a: Parts, b: Parts, i: nat, q: nat)
    requires WellFormedParts(a) && WellFormedParts(b) && OccursAt(Comment(Join(b)), Join(a), i)
    requires q < |Join(a)| && Join(a)[q] == '/'
    ensures i + q == 25 || i + q == 16 + SecondSlash(b) || i + q == 16 + ThirdSlash(b)
  {
    OccurrenceByPosition(Comment(Join(b)), Join(a), i);
    CommentSlashes(b, i + q);
  }

  /** An occurrence of one marker in the comment of another is aligned with it, slash by slash. */
  lemma OccurrenceIsAligned(a: Parts, b: Parts, i: nat)
    requires WellFormedParts(a) && WellFormedParts(b) && OccursAt(Comment(Join(b)), Join(a), i)
    ensures i == 16 && SecondSlash(a) == SecondSlash(b) && ThirdSlash(a) == ThirdSlash(b)
  {
    NoGBeforeLaterSlash(a);
    SlashesOf(a, 9);
    SlashesOf(a, SecondSlash(a));
    SlashesOf(a, ThirdSlash(a));
    SlashInComment(a, b, i, 9);
    SlashInComment(a, b, i, SecondSlash(a));
    SlashInComment(a, b, i, ThirdSlash(a));
  }

  lemma ShorterIsUnbounded(a: Parts, b: Parts)
    requires WellFormedParts(a) && WellFormedParts(b) && ThirdSlash(a) == ThirdSlash(b) && |Join(a)| < |Join(b)|
    ensures !Bounded(Comment(Join(b)), 16 + |Join(a)|)
  {
    var q := |Join(a)|;
    Layout(a, 0);
    Layout(b, q);
    assert Comment(Join(b))[16 + q] == Join(b)[q] == b.rank[q - ThirdSlash(b) - 1];
  }

  lemma LongerDoesNotOccur(a: Parts, b: Parts)
    requires WellFormedParts(a) && WellFormedParts(b) && ThirdSlash(a) == ThirdSlash(b) && |Join(b)| < |Join(a)|
    ensures !OccursAt(Comment(Join(b)), Join(a), 16)
  {
    var q := |Join(b)|;
    Layout(b, 0);
    Layout(a, q);
    assert Join(a)[q] == a.rank[q - ThirdSlash(a) - 1] && Comment(Join(b))[16 + q] == COMMENT_CLOSE[0];
    OccurrenceByPosition(Comment(Join(b)), Join(a), 16);
  }

  lemma AlignedRanksAreEqual(a: Parts, b: Parts)
    requires WellFormedParts(a) && WellFormedParts(b) && ThirdSlash(a) == ThirdSlash(b)
    requires OccursAt(Comment(Join(b)), Join(a), 16) && Bounded(Comment(Join(b)), 16 + |Join(a)|)
    ensures Join(a) == Join(b)
  {
    if |Join(a)| < |Join(b)| {
      ShorterIsUnbounded(a, b);
    } else if |Join(b)| < |Join(a)| {
      LongerDoesNotOccur(a, b);
    } else {
      CommentHoldsMarker(Join(b));
    }
  }

  lemma CommentHoldsMarker(marker: string)
    ensures OccursAt(Comment(marker), marker, 16) && Bounded(Comment(marker), 16 + |marker|)
  {
    var c := Comment(marker);
    assert c[16..16 + |marker|] == marker;
    assert c[16 + |marker|] == COMMENT_CLOSE[0];
  }

  lemma CommentMatchesOwnMarker(a: Parts)
    requires WellFormedParts(a)
    ensures Matches(Comment(Join(a)), Join(a))
  {
    CommentHoldsMarker(Join(a));
    forall k: nat ensures !BorderAt(Join(a), k) { RenderedMarkerHasNoBorder(a, k); }
    MatchesIsComplete(Comment(Join(a)), Join(a), 16);
  }

  lemma MatchPosition(text: string, marker: string) returns (i: nat)
    requires Matches(text, marker)
    ensures OccursAt(text, marker, i) && Bounded(text, i + |marker|)
  {
    MatchesIsSound(text, marker);
    i :| OccursAt(text, marker, i) && Bounded(text, i + |marker|);
  }

  /** The comment of one rendered marker matches another marker if and only if they are the same. */
  lemma CommentMatchesOnlyItself(a: Parts, b: Parts)
    requires WellFormedParts(a) && WellFormedParts(b)
    ensures Matches(Comment(Join(b)), Join(a)) <==> Join(a) == Join(b)
  {
    if Matches(Comment(Join(b)), Join(a)) {
      var i := MatchPosition(Comment(Join(b)), Join(a));
      OccurrenceIsAligned(a, b, i);
      AlignedRanksAreEqual(a, b);
    } else if Join(a) == Join(b) {
      CommentMatchesOwnMarker(a);
    }
  }
}
