/** The printer of project-map cards and the wikilink scanner that reads them back. */
module ProjectCard {
  import opened Wrappers

  datatype Link = Link(key: string, value: string)

  // ---------------------------------------------------------------- scanner

  /** The doubled character `cc` stands at index `i`: an opening `[[` or a closing `]]`. */
  predicate Doubled(s: string, c: char, i: int) {
    0 <= i && i + 1 < |s| && s[i] == c && s[i + 1] == c
  }

  function FindDoubled(s: string, c: char, start: nat): (r: Option<nat>)
    ensures r.Some? ==> start <= r.value && r.value + 2 <= |s|
    decreases |s| - start
  {
    if start + 1 >= |s| then None
    else if Doubled(s, c, start) then Some(start)
    else FindDoubled(s, c, start + 1)
  }

  lemma {:induction false} DoubledIsFirst(s: string, c: char, start: nat)
    ensures FindDoubled(s, c, start).Some? ==> Doubled(s, c, FindDoubled(s, c, start).value)
    ensures forall j :: start <= j && (FindDoubled(s, c, start).Some? ==> j < FindDoubled(s, c, start).value) ==>
                          !Doubled(s, c, j)
    decreases |s| - start
  {
    if start + 1 < |s| && !Doubled(s, c, start) {
      DoubledIsFirst(s, c, start + 1);
    }
  }

  /** `split_once`. */
  function SplitOnce(s: string, sep: char): (r: Option<Link>)
    ensures r.Some? <==> sep in s
  {
    if s == [] then None
    else if s[0] == sep then Some(Link([], s[1..]))
    else match SplitOnce(s[1..], sep)
      case None => None
      case Some(l) => Some(Link([s[0]] + l.key, l.value))
  }

  function LinkOf(target: string): (r: seq<Link>)
    ensures r == [] <==> ':' !in target
  {
    match SplitOnce(target, ':')
    case None => []
    case Some(l) => [l]
  }

  /** One turn of the scan from a position: the next bracketed target and where the scan goes on. */
  datatype Turn = Stop | Turn(target: string, next: nat)

  type Scanner = nat -> Turn

  /** An `[[` is closed by the next `]]`; without both the scan stops. */
  function TurnAt(s: string, start: nat): (t: Turn)
    ensures t.Turn? ==> start < t.next <= |s|
  {
    var open := FindDoubled(s, '[', start);
    if open.None? then Stop
    else
      var close := FindDoubled(s, ']', open.value + 2);
      if close.None? then Stop else Turn(s[open.value + 2..close.value], close.value + 2)
  }

  function TurnsOf(s: string): (turns: Scanner)
    ensures Advances(turns, |s|)
  {
    (p: nat) => TurnAt(s, p)
  }

  ghost predicate Advances(turns: Scanner, limit: nat) {
    forall p: nat :: turns(p).Turn? ==> p < turns(p).next <= limit
  }

  /** The bracketed targets of a text, in order. */
  datatype Brackets = End | Bracket(target: string, rest: Brackets)

  function Chain(turns: Scanner, limit: nat, start: nat): Brackets
    requires Advances(turns, limit)
    decreases limit - start
  {
    match turns(start)
    case Stop => End
    case Turn(target, next) => Bracket(target, Chain(turns, limit, next))
  }

  function Targets(s: string): Brackets {
    Chain(TurnsOf(s), |s|, 0)
  }

  /** The targets with a `:`, split there. */
  function Typed(targets: Brackets): (r: seq<Link>)
    ensures r != [] <==> SomeTyped(targets)
  {
    match targets
    case End => []
    case Bracket(t, rest) => LinkOf(t) + Typed(rest)
  }

  predicate SomeTyped(targets: Brackets) {
    targets.Bracket? && (':' in targets.target || SomeTyped(targets.rest))
  }

  function Links(body: string): seq<Link> {
    Typed(Targets(body))
  }

  /** `found` and what is still to come make up `all`. */
  ghost predicate Continues(turns: Scanner, limit: nat, start: nat, found: seq<Link>, all: seq<Link>)
    requires Advances(turns, limit)
  {
    found + Typed(Chain(turns, limit, start)) == all
  }

  lemma ContinuesStep(turns: Scanner, limit: nat, start: nat, found: seq<Link>, all: seq<Link>)
    requires Advances(turns, limit) && Continues(turns, limit, start, found, all)
    ensures match turns(start)
            case Stop => found == all
            case Turn(t, next) => Continues(turns, limit, next, found + LinkOf(t), all)
  {
    if turns(start).Turn? {
      var here, later := LinkOf(turns(start).target), Typed(Chain(turns, limit, turns(start).next));
      assert found + (here + later) == (found + here) + later;
    }
  }

  method FindNext(body: string, rest: nat) returns (turn: Turn)
    ensures turn == TurnAt(body, rest)
  {
    var open := FindDoubled(body, '[', rest);
    if open.None? {
      return Stop;
    }
    var close := FindDoubled(body, ']', open.value + 2);
    if close.None? {
      return Stop;
    }
    return Turn(body[open.value + 2..close.value], close.value + 2);
  }

  method ExtractTypedLinks(body: string) returns (pairs: seq<Link>)
    ensures pairs == Links(body)
  {
    pairs := [];
    var turn := FindNext(body, 0);
    var rest: nat := 0;
    ghost var turns, all := TurnsOf(body), Links(body);
    assert Continues(turns, |body|, 0, pairs, all);
    while turn.Turn?
      invariant turn == turns(rest) && Continues(turns, |body|, rest, pairs, all)
      decreases |body| - rest
    {
      ContinuesStep(turns, |body|, rest, pairs, all);
      pairs, rest := pairs + LinkOf(turn.target), turn.next;
      turn := FindNext(body, rest);
    }
    ContinuesStep(turns, |body|, rest, pairs, all);
  }

  /** An opening `[[` at `i` whose next `]]` is at `k`, with a `:` in between. */
  predicate TypedSpan(s: string, i: int, k: int) {
    && Doubled(s, '[', i) && i + 2 <= k && Doubled(s, ']', k)
    && (forall j :: i + 2 <= j < k ==> !Doubled(s, ']', j))
    && ':' in s[i + 2..k]
  }

  ghost predicate HasTypedSpan(s: string, start: int) {
    exists i, k :: start <= i && TypedSpan(s, i, k)
  }

  lemma {:induction false} TargetHasSpan(s: string, start: nat)
    requires SomeTyped(Chain(TurnsOf(s), |s|, start))
    ensures HasTypedSpan(s, start)
    decreases |s| - start
  {
    DoubledIsFirst(s, '[', start);
    var i := FindDoubled(s, '[', start).value;
    DoubledIsFirst(s, ']', i + 2);
    var k := FindDoubled(s, ']', i + 2).value;
    if ':' in s[i + 2..k] {
      assert TypedSpan(s, i, k);
    } else {
      TargetHasSpan(s, k + 2);
      var a, b :| k + 2 <= a && TypedSpan(s, a, b);
      assert start <= a;
    }
  }

  lemma {:induction false} SpanHasTarget(s: string, start: nat, i: int, k: int)
    requires start <= i && TypedSpan(s, i, k)
    ensures SomeTyped(Chain(TurnsOf(s), |s|, start))
    decreases |s| - start
  {
    DoubledIsFirst(s, '[', start);
    var a := FindDoubled(s, '[', start).value;
    DoubledIsFirst(s, ']', a + 2);
    var close := FindDoubled(s, ']', a + 2).value;
    assert TurnsOf(s)(start) == Turn(s[a + 2..close], close + 2);
    if close < i + 2 {
      SpanHasTarget(s, close + 2, i, k);
    } else {
      assert s[a + 2..k] == s[a + 2..i + 2] + s[i + 2..k];
    }
  }

  /** The scanner finds nothing if and only if the text has no typed span. */
  lemma LinksEmptyIff(s: string)
    ensures Links(s) == [] <==> !HasTypedSpan(s, 0)
  {
    if Links(s) != [] {
      TargetHasSpan(s, 0);
    }
    if HasTypedSpan(s, 0) {
      var i, k :| 0 <= i && TypedSpan(s, i, k);
      SpanHasTarget(s, 0, i, k);
    }
  }

  // ------------------------------------------------- reading a printed text

  lemma {:induction false} FindDoubledAfter(a: string, s: string, c: char, start: nat)
    ensures FindDoubled(a + s, c, |a| + start) ==
            (var r := FindDoubled(s, c, start); if r.None? then None else Some(|a| + r.value))
    decreases |s| - start
  {
    if start + 1 < |s| && !Doubled(s, c, start) {
      FindDoubledAfter(a, s, c, start + 1);
    }
  }

  function Shifted(t: Turn, offset: nat): Turn {
    if t.Stop? then Stop else t.(next := offset + t.next)
  }

  lemma TurnAfter(a: string, s: string, start: nat)
    ensures TurnAt(a + s, |a| + start) == Shifted(TurnAt(s, start), |a|)
  {
    FindDoubledAfter(a, s, '[', start);
    var open := FindDoubled(s, '[', start);
    if open.Some? {
      FindDoubledAfter(a, s, ']', open.value + 2);
      var close := FindDoubled(s, ']', open.value + 2);
      if close.Some? {
        assert (a + s)[|a| + open.value + 2..|a| + close.value] == s[open.value + 2..close.value];
      }
    }
  }

  lemma ChainMatches(whole: Scanner, part: Scanner, offset: nat, limit: nat, start: nat)
    requires Advances(whole, offset + limit) && Advances(part, limit)
    requires whole(offset + start) == Shifted(part(start), offset)
    requires part(start).Turn? ==>
               Chain(whole, offset + limit, offset + part(start).next) == Chain(part, limit, part(start).next)
    ensures Chain(whole, offset + limit, offset + start) == Chain(part, limit, start)
  {
  }

  lemma ScannersAgree(a: string, s: string, start: nat)
    ensures TurnsOf(a + s)(|a| + start) == Shifted(TurnsOf(s)(start), |a|)
  {
    TurnAfter(a, s, start);
  }

  /** What stands before the start of a scan does not matter. */
  lemma {:induction false} TargetsAfter(a: string, s: string, start: nat)
    ensures Chain(TurnsOf(a + s), |a| + |s|, |a| + start) == Chain(TurnsOf(s), |s|, start)
    decreases |s| - start
  {
    ChainsAgree(a, TurnsOf(a + s), s, TurnsOf(s), start);
  }

  /** The same, for any scanners that read these texts. */
  lemma {:induction false} ChainsAgree(a: string, whole: Scanner, s: string, part: Scanner, start: nat)
    requires whole == TurnsOf(a + s) && part == TurnsOf(s) && Advances(whole, |a| + |s|) && Advances(part, |s|)
    ensures Chain(whole, |a| + |s|, |a| + start) == Chain(part, |s|, start)
    decreases |s| - start
  {
    ScannersAgree(a, s, start);
    if part(start).Turn? {
      ChainsAgree(a, whole, s, part, part(start).next);
    }
    ChainMatches(whole, part, |a|, |s|, start);
  }

  lemma FirstDoubled(s: string, c: char, start: nat, i: nat)
    requires start <= i && Doubled(s, c, i) && forall j :: start <= j < i ==> !Doubled(s, c, j)
    ensures FindDoubled(s, c, start) == Some(i)
  {
    DoubledIsFirst(s, c, start);
  }

  /** Text that opens no link by itself, and none with a bracket put behind it. */
  predicate Quiet(lead: string) {
    forall j :: 0 <= j < |lead| && lead[j] == '[' ==> j + 1 < |lead| && lead[j + 1] != '['
  }

  lemma MiddleOf(a: string, b: string, c: string)
    ensures (a + b + c)[|a|..|a| + |b|] == b
  {
  }

  lemma FirstTurn(lead: string, target: string, tail: string)
    requires Quiet(lead) && ']' !in target
    ensures TurnAt(lead + "[[" + target + "]]" + tail, 0) == Turn(target, |lead| + |target| + 4)
  {
    var s := lead + "[[" + target + "]]" + tail;
    var i, k := |lead|, |lead| + 2 + |target|;
    assert s[i] == '[' && s[i + 1] == '[';
    assert forall j :: 0 <= j < i ==> s[j] == lead[j];
    FirstDoubled(s, '[', 0, i);
    MiddleOf(lead + "[[", target, "]]" + tail);
    assert s == lead + "[[" + target + ("]]" + tail);
    assert s[k] == ']' && s[k + 1] == ']';
    assert forall j :: i + 2 <= j < k ==> s[j] in s[i + 2..k];
    FirstDoubled(s, ']', i + 2, k);
  }

  /** A link printed behind quiet text is read back, and the scan goes on behind it. */
  lemma ReadPrinted(lead: string, target: string, tail: string)
    requires Quiet(lead) && ']' !in target
    ensures Targets(lead + "[[" + target + "]]" + tail) == Bracket(target, Targets(tail))
  {
    FirstTurn(lead, target, tail);
    TargetsAfter(lead + "[[" + target + "]]", tail, 0);
  }

  lemma {:induction false} SplitAt(key: string, sep: char, value: string)
    requires sep !in key
    ensures SplitOnce(key + [sep] + value, sep) == Some(Link(key, value))
  {
    var s := key + [sep] + value;
    if key == [] {
      assert s[1..] == value;
    } else {
      assert s[1..] == key[1..] + [sep] + value;
      SplitAt(key[1..], sep, value);
      assert [s[0]] + key[1..] == key;
    }
  }
}
