/** The normal form under which two card titles count as the same. */
module CardTitles {
  import opened Text

  /** `str::to_lowercase`, a Unicode table. */
  type Lowercase = string -> string

  predicate IsWord(w: string) {
    w != [] && forall i :: 0 <= i < |w| ==> !IsWhitespace(w[i])
  }

  /** `split_whitespace`. */
  function Words(s: string): (words: seq<string>)
    ensures forall i :: 0 <= i < |words| ==> IsWord(words[i])
    ensures s != [] && !IsWhitespace(s[0]) ==> words != []
  {
    if s == [] then []
    else
      var rest := Words(s[1..]);
      if IsWhitespace(s[0]) then rest
      else if |s| == 1 || IsWhitespace(s[1]) then [[s[0]]] + rest
      else [[s[0]] + rest[0]] + rest[1..]
  }

  function Join(words: seq<string>): string {
    if words == [] then [] else if |words| == 1 then words[0] else words[0] + " " + Join(words[1..])
  }

  function LowerAll(lower: Lowercase, words: seq<string>): seq<string> {
    seq(|words|, i requires 0 <= i < |words| => lower(words[i]))
  }

  function NormalizeTitle(lower: Lowercase, title: string): string {
    Join(LowerAll(lower, Words(title)))
  }

  /** Lowercasing a word yields a word. */
  ghost predicate KeepsWords(lower: Lowercase) {
    forall w :: IsWord(w) ==> IsWord(lower(w))
  }

  lemma {:induction false} WordsOfWord(w: string, tail: string)
    requires IsWord(w) && (tail != [] ==> IsWhitespace(tail[0]))
    ensures Words(w + tail) == [w] + Words(tail)
    decreases |w|
  {
    var s := w + tail;
    if |w| == 1 {
      assert s[1..] == tail;
      assert w == [s[0]];
    } else {
      assert s[1..] == w[1..] + tail;
      WordsOfWord(w[1..], tail);
      assert [s[0]] + w[1..] == w;
    }
  }

  lemma WordsOfTwo(w: string, rest: string)
    requires IsWord(w)
    ensures Words(w + " " + rest) == [w] + Words(rest)
  {
    WordsOfWord(w, " " + rest);
    assert w + " " + rest == w + (" " + rest);
    assert (" " + rest)[1..] == rest;
  }

  /** Splitting what was joined gives the words back. */
  lemma {:induction false} WordsOfJoin(words: seq<string>)
    requires forall i :: 0 <= i < |words| ==> IsWord(words[i])
    ensures Words(Join(words)) == words
    decreases |words|
  {
    if |words| == 1 {
      WordsOfWord(words[0], []);
      assert words[0] + [] == words[0];
    } else if words != [] {
      WordsOfJoin(words[1..]);
      WordsOfTwo(words[0], Join(words[1..]));
    }
  }

  /** Two titles share a normal form if and only if their words agree but for case. */
  lemma SameNormalFormIff(lower: Lowercase, a: string, b: string)
    requires KeepsWords(lower)
    ensures NormalizeTitle(lower, a) == NormalizeTitle(lower, b)
            <==> LowerAll(lower, Words(a)) == LowerAll(lower, Words(b))
  {
    WordsOfJoin(LowerAll(lower, Words(a)));
    WordsOfJoin(LowerAll(lower, Words(b)));
  }

  /** A normal form is its own normal form, when lowercasing twice is lowercasing once. */
  lemma NormalFormIsStable(lower: Lowercase, title: string)
    requires KeepsWords(lower) && forall w :: IsWord(w) ==> lower(lower(w)) == lower(w)
    ensures NormalizeTitle(lower, NormalizeTitle(lower, title)) == NormalizeTitle(lower, title)
  {
    var words := LowerAll(lower, Words(title));
    WordsOfJoin(words);
    assert LowerAll(lower, words) == words;
  }
}
