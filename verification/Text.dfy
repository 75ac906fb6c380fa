/** Strings: suffix tests, trimming, and the decimal numerals the programs print and read back. */
module Text {
  import opened Wrappers

  predicate EndsWith(s: string, suffix: string) {
    |suffix| <= |s| && s[|s| - |suffix|..] == suffix
  }

  /** Unicode White_Space, as `char::is_whitespace` decides it. */
  predicate IsWhitespace(c: char) {
    || '\t' <= c <= '\r' || c == ' ' || c == '\U{85}' || c == '\U{A0}' || c == '\U{1680}'
    || '\U{2000}' <= c <= '\U{200A}' || c == '\U{2028}' || c == '\U{2029}' || c == '\U{202F}'
    || c == '\U{205F}' || c == '\U{3000}'
  }

  function TrimStart(s: string): string {
    if s != [] && IsWhitespace(s[0]) then TrimStart(s[1..]) else s
  }

  function TrimEnd(s: string): string {
    if s != [] && IsWhitespace(s[|s| - 1]) then TrimEnd(s[..|s| - 1]) else s
  }

  function Trim(s: string): string {
    TrimEnd(TrimStart(s))
  }

  /** Trimming takes the whitespace around a text and nothing of the text. */
  lemma {:induction false} TrimSurrounded(a: string, t: string, b: string)
    requires (forall c :: c in a ==> IsWhitespace(c)) && forall c :: c in b ==> IsWhitespace(c)
    requires t != [] && !IsWhitespace(t[0]) && !IsWhitespace(t[|t| - 1])
    ensures Trim(a + t + b) == t
    decreases |a| + |b|
  {
    var s := a + t + b;
    if a != [] {
      assert s[0] == a[0] && s[1..] == a[1..] + t + b;
      TrimSurrounded(a[1..], t, b);
    } else {
      assert s == t + b && s[0] == t[0];
      if b != [] {
        assert s[|s| - 1] == b[|b| - 1] && s[..|s| - 1] == a + t + b[..|b| - 1];
        TrimSurrounded(a, t, b[..|b| - 1]);
      }
    }
  }

  /** Nothing is left of a text if and only if it is blank. */
  lemma {:induction false} TrimBlankIff(s: string)
    ensures Trim(s) == [] <==> forall c :: c in s ==> IsWhitespace(c)
  {
    if s != [] {
      if IsWhitespace(s[0]) {
        TrimBlankIff(s[1..]);
        assert s == [s[0]] + s[1..];
      } else {
        TrimKeepsFirst(s);
      }
    }
  }

  lemma {:induction false} TrimKeepsFirst(s: string)
    requires s != [] && !IsWhitespace(s[0])
    ensures TrimEnd(s) != []
  {
    if |s| > 1 && IsWhitespace(s[|s| - 1]) {
      TrimKeepsFirst(s[..|s| - 1]);
    }
  }

  /** Of the ASCII characters, tab to carriage return and the space are blank. */
  lemma AsciiWhitespace(c: char)
    requires c < '\U{80}'
    ensures IsWhitespace(c) <==> c in "\t\n\U{0B}\U{0C}\r "
  {
    var blanks := "\t\n\U{0B}\U{0C}\r ";
    assert blanks[0] == '\t' && blanks[1] == '\n' && blanks[2] == '\U{0B}' && blanks[3] == '\U{0C}'
        && blanks[4] == '\r' && blanks[5] == ' ';
  }

  predicate IsDigit(c: char) {
    '0' <= c <= '9'
  }

  predicate AllDigits(s: string) {
    forall i :: 0 <= i < |s| ==> IsDigit(s[i])
  }

  function DigitValue(c: char): nat
    requires IsDigit(c)
  {
    c as int - '0' as int
  }

  function DigitChar(d: nat): char
    requires d < 10
  {
    ('0' as int + d) as char
  }

  /** Decimal rendering of a counter (`to_string`). */
  function Decimal(n: nat): string {
    if n < 10 then [DigitChar(n)] else Decimal(n / 10) + [DigitChar(n % 10)]
  }

  function Numeral(s: string): nat
    requires AllDigits(s)
  {
    if s == [] then 0 else Numeral(s[..|s| - 1]) * 10 + DigitValue(s[|s| - 1])
  }

  /** `str::parse` to an unsigned integer of at most `max`: an optional `+`, then digits only. */
  function ParseUnsigned(s: string, max: nat): Option<nat> {
    var digits := if s != [] && s[0] == '+' then s[1..] else s;
    if digits == [] || !AllDigits(digits) || Numeral(digits) > max then None
    else Some(Numeral(digits))
  }

  /** Reading back a printed numeral recovers the number. */
  lemma {:induction false} DecimalRoundTrip(n: nat)
    ensures Decimal(n) != [] && AllDigits(Decimal(n)) && Numeral(Decimal(n)) == n
  {
    if n >= 10 {
      DecimalRoundTrip(n / 10);
      var s := Decimal(n);
      assert s[..|s| - 1] == Decimal(n / 10);
    } else {
      var s := Decimal(n);
      assert s[..|s| - 1] == [];
    }
  }

  lemma DecimalInjective(m: nat, n: nat)
    requires Decimal(m) == Decimal(n)
    ensures m == n
  {
    DecimalRoundTrip(m);
    DecimalRoundTrip(n);
  }

  /** Trimming then parsing what `Decimal` printed recovers every in-range counter. */
  lemma ParseDecimal(n: nat, max: nat)
    requires n <= max
    ensures ParseUnsigned(Trim(Decimal(n)), max) == Some(n)
  {
    DecimalRoundTrip(n);
    var s := Decimal(n);
    assert IsDigit(s[0]) && IsDigit(s[|s| - 1]);
    assert Trim(s) == s;
  }

  /** A counter reads back with blanks around it, and with a plus sign before it. */
  lemma ParseSpelled(n: nat, max: nat, plus: bool, before: string, after: string)
    requires n <= max
    requires (forall c :: c in before ==> IsWhitespace(c)) && forall c :: c in after ==> IsWhitespace(c)
    ensures ParseUnsigned(Trim(before + ((if plus then "+" else "") + Decimal(n)) + after), max) == Some(n)
  {
    DecimalRoundTrip(n);
    var d := Decimal(n);
    var t := (if plus then "+" else "") + d;
    assert IsDigit(d[0]) && IsDigit(d[|d| - 1]) && t[|t| - 1] == d[|d| - 1];
    TrimSurrounded(before, t, after);
    if plus {
      assert t[1..] == d;
    } else {
      assert t == d;
    }
  }

  // ---------------------------------------------------------------- searching

  predicate OccursAt(s: string, pat: string, i: nat) {
    i + |pat| <= |s| && s[i..i + |pat|] == pat
  }

  lemma OccurrenceByPosition(s: string, pat: string, i: nat)
    ensures OccursAt(s, pat, i) <==> i + |pat| <= |s| && forall q :: 0 <= q < |pat| ==> s[i + q] == pat[q]
  {
    if i + |pat| <= |s| {
      var slice := s[i..i + |pat|];
      assert forall q :: 0 <= q < |pat| ==> slice[q] == s[i + q];
    }
  }

  /** `str::find`: the first occurrence. */
  function FindSub(s: string, pat: string): (r: Option<nat>)
    ensures r.Some? ==> r.value + |pat| <= |s|
  {
    if pat <= s then Some(0)
    else if s == [] then None
    else match FindSub(s[1..], pat)
      case None => None
      case Some(i) => Some(i + 1)
  }

  /** What `FindSub` finds is an occurrence, and the first one. */
  lemma {:induction false} FoundIsFirst(s: string, pat: string)
    ensures FindSub(s, pat).Some? ==> OccursAt(s, pat, FindSub(s, pat).value)
    ensures FindSub(s, pat).Some? ==> forall j :: 0 <= j < FindSub(s, pat).value ==> !OccursAt(s, pat, j)
    ensures FindSub(s, pat).None? ==> forall j :: 0 <= j ==> !OccursAt(s, pat, j)
    decreases |s|
  {
    if !(pat <= s) && s != [] {
      OccursInTail(s, pat);
      FoundIsFirst(s[1..], pat);
      forall j | 0 < j ensures OccursAt(s, pat, j) <==> OccursAt(s[1..], pat, j - 1) {
      }
    }
  }

  lemma SliceOfTail(s: string, start: nat, j: nat, n: nat)
    requires start + j + n <= |s|
    ensures s[start..][j..j + n] == s[start + j..start + j + n]
  {
    var a, b := s[start..][j..j + n], s[start + j..start + j + n];
    assert |a| == |b| && forall k :: 0 <= k < n ==> a[k] == s[start + j + k] && b[k] == s[start + j + k];
  }

  lemma OccursInTail(s: string, pat: string)
    requires s != []
    ensures forall j :: 0 < j ==> (OccursAt(s, pat, j) <==> OccursAt(s[1..], pat, j - 1))
    ensures OccursAt(s, pat, 0) <==> pat <= s
  {
    forall j | 0 < j ensures OccursAt(s, pat, j) <==> OccursAt(s[1..], pat, j - 1) {
      if j + |pat| <= |s| {
        SliceOfTail(s, 1, j - 1, |pat|);
      }
    }
  }

  /** `str::split` on one character. */
  function Split(s: string, sep: char): (parts: seq<string>)
    ensures parts != []
  {
    if s == [] then [[]]
    else
      var rest := Split(s[1..], sep);
      if s[0] == sep then [[]] + rest else [[s[0]] + rest[0]] + rest[1..]
  }

  lemma {:induction false} SplitFirst(a: string, sep: char, b: string)
    requires sep !in a
    ensures Split(a, sep) == [a] && Split(a + [sep] + b, sep) == [a] + Split(b, sep)
  {
    var s := a + [sep] + b;
    if a == [] {
      assert s[1..] == b;
    } else {
      assert s[1..] == a[1..] + [sep] + b;
      SplitFirst(a[1..], sep, b);
      assert [a[0]] + a[1..] == a;
      assert ([a[1..]] + Split(b, sep))[1..] == Split(b, sep);
    }
  }

  /** The text before a separator that does not occur after it is recovered from the joined string. */
  lemma LastSeparator(a: string, x: string, b: string, y: string, sep: char)
    requires a + [sep] + x == b + [sep] + y && sep !in x && sep !in y
    ensures a == b && x == y
  {
    var s, t := a + [sep] + x, b + [sep] + y;
    assert s[|a|] == sep && t[|b|] == sep;
    assert forall i :: |a| < i < |s| ==> s[i] == x[i - |a| - 1] && s[i] in x;
    assert forall i :: |b| < i < |t| ==> t[i] == y[i - |b| - 1] && t[i] in y;
    assert |a| == |b|;
    assert a == s[..|a|] && b == t[..|b|];
    assert x == s[|a| + 1..] && y == t[|b| + 1..];
  }
}
