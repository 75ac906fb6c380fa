/** `marker_matches`: a substring search that rejects an occurrence followed by a digit. */
module MarkerMatch {
  import opened Wrappers
  import opened Text

  /** No digit at `end`: the end of the text, or any other character. */
  predicate Bounded(s: string, end: nat) {
    end >= |s| || !IsDigit(s[end])
  }

  /** The promise: some occurrence of the marker is not followed by an ASCII digit. */
  ghost predicate HasBoundedOccurrence(haystack: string, marker: string) {
    exists i: nat :: OccursAt(haystack, marker, i) && Bounded(haystack, i + |marker|)
  }

  /** The search as written: it resumes after the whole of a rejected occurrence. */
  function Matches(haystack: string, marker: string): bool
    decreases |haystack|
  {
    if marker == [] then false
    else match FindSub(haystack, marker)
      case None => false
      case Some(i) =>
        Bounded(haystack, i + |marker|) || Matches(haystack[i + |marker|..], marker)
  }

  lemma MatchesStep(haystack: string, marker: string, i: nat)
    requires marker != [] && FindSub(haystack, marker) == Some(i)
    ensures Matches(haystack, marker) == (Bounded(haystack, i + |marker|) || Matches(haystack[i + |marker|..], marker))
  {
  }

  lemma MatchesStop(haystack: string, marker: string)
    requires FindSub(haystack, marker).None?
    ensures !Matches(haystack, marker)
  {
  }

  method MarkerMatches(haystack: string, marker: string) returns (found: bool)
    ensures found == Matches(haystack, marker)
  {
    if marker == [] {
      return false;
    }
    var rest := haystack;
    ghost var goal := Matches(haystack, marker);
    while true
      invariant Matches(rest, marker) == goal
      decreases |rest|
    {
      var pos := FindSub(rest, marker);
      if pos.None? {
        MatchesStop(rest, marker);
        return false;
      }
      var end := pos.value + |marker|;
      MatchesStep(rest, marker, pos.value);
      if !(end < |rest| && IsDigit(rest[end])) {
        return true;
      }
      rest := rest[end..];
    }
  }

  /** A proper border of length `k`: the marker starts and ends with the same `k` characters. */
  predicate BorderAt(marker: string, k: nat) {
    0 < k < |marker| && marker[..k] == marker[|marker| - k..]
  }

  /** A border whose continuation in the marker is a digit. */
  ghost predicate HasDigitBorder(marker: string) {
    exists k: nat {:trigger BorderAt(marker, k)} :: BorderAt(marker, k) && IsDigit(marker[k])
  }

  /** What the search accepts is always a bounded occurrence. */
  lemma {:induction false} MatchesIsSound(haystack: string, marker: string)
    requires Matches(haystack, marker)
    ensures HasBoundedOccurrence(haystack, marker)
    decreases |haystack|
  {
    FoundIsFirst(haystack, marker);
    var i := FindSub(haystack, marker).value;
    var end := i + |marker|;
    if !Bounded(haystack, end) {
      MatchesIsSound(haystack[end..], marker);
      var j: nat :| OccursAt(haystack[end..], marker, j) && Bounded(haystack[end..], j + |marker|);
      ShiftOccurrence(haystack, marker, end, j);
    }
  }

  lemma ShiftOccurrence(s: string, marker: string, start: nat, j: nat)
    requires start <= |s|
    ensures OccursAt(s[start..], marker, j) <==> OccursAt(s, marker, start + j)
    ensures Bounded(s[start..], j + |marker|) <==> Bounded(s, start + j + |marker|)
  {
    if start + j + |marker| <= |s| {
      SliceOfTail(s, start, j, |marker|);
    }
  }

  /** Two overlapping occurrences make a border, and the character after the first lies in the second. */
  lemma OverlapIsBorder(s: string, marker: string, i: nat, j: nat)
    requires OccursAt(s, marker, i) && OccursAt(s, marker, j) && i < j < i + |marker|
    ensures BorderAt(marker, i + |marker| - j) && s[i + |marker|] == marker[i + |marker| - j]
  {
    var k := i + |marker| - j;
    OccurrenceByPosition(s, marker, i);
    OccurrenceByPosition(s, marker, j);
    forall q: nat | q < k ensures marker[q] == marker[|marker| - k + q] {
      assert s[j + q] == marker[q] && s[i + (|marker| - k + q)] == marker[|marker| - k + q];
    }
    BorderByPosition(marker, k);
    assert s[j + k] == marker[k];
  }

  lemma BorderByPosition(marker: string, k: nat)
    requires 0 < k < |marker| && forall q: nat :: q < k ==> marker[q] == marker[|marker| - k + q]
    ensures BorderAt(marker, k)
  {
    var head, tail := marker[..k], marker[|marker| - k..];
    assert forall q: nat :: q < k ==> head[q] == marker[q] && tail[q] == marker[|marker| - k + q];
  }

  /** Without such a border, a bounded occurrence does not overlap an earlier unbounded one. */
  lemma NoOverlap(s: string, marker: string, i: nat, j: nat)
    requires !HasDigitBorder(marker) && i <= j && OccursAt(s, marker, i) && OccursAt(s, marker, j)
    requires !Bounded(s, i + |marker|) && Bounded(s, j + |marker|)
    ensures i + |marker| <= j
  {
    if j < i + |marker| && i != j {
      OverlapIsBorder(s, marker, i, j);
    }
  }

  lemma {:induction false} MatchesIsComplete(haystack: string, marker: string, j: nat)
    requires marker != [] && !HasDigitBorder(marker)
    requires OccursAt(haystack, marker, j) && Bounded(haystack, j + |marker|)
    ensures Matches(haystack, marker)
    decreases |haystack|
  {
    var i := MatchesUnfolded(haystack, marker, j);
    if !Bounded(haystack, i + |marker|) {
      NoOverlap(haystack, marker, i, j);
      var rest, at := haystack[i + |marker|..], j - i - |marker|;
      ShiftOccurrence(haystack, marker, i + |marker|, at);
      MatchesIsComplete(rest, marker, at);
    }
  }

  /** One turn of the search on a text that holds the marker. */
  lemma MatchesUnfolded(haystack: string, marker: string, j: nat) returns (i: nat)
    requires marker != [] && OccursAt(haystack, marker, j)
    ensures i <= j && OccursAt(haystack, marker, i)
    ensures Matches(haystack, marker) ==
            (Bounded(haystack, i + |marker|) || Matches(haystack[i + |marker|..], marker))
  {
    FoundIsFirst(haystack, marker);
    i := FindSub(haystack, marker).value;
    MatchesStep(haystack, marker, i);
  }

  /** The search meets its promise on every text if and only if the marker has no border that
      continues with a digit. */
  lemma MatchesExactIff(marker: string)
    requires marker != []
    ensures (forall h :: Matches(h, marker) <==> HasBoundedOccurrence(h, marker)) <==> !HasDigitBorder(marker)
  {
    if HasDigitBorder(marker) {
      var k: nat :| BorderAt(marker, k) && IsDigit(marker[k]);
      OverlapIsMissed(marker, k);
      assert HasBoundedOccurrence(marker + marker[k..], marker);
      assert !Matches(marker + marker[k..], marker);
    } else {
      forall h ensures Matches(h, marker) <==> HasBoundedOccurrence(h, marker) {
        if Matches(h, marker) { MatchesIsSound(h, marker); }
        if HasBoundedOccurrence(h, marker) {
          var j: nat :| OccursAt(h, marker, j) && Bounded(h, j + |marker|);
          MatchesIsComplete(h, marker, j);
        }
      }
    }
  }

  /** A marker followed by what continues its border holds the marker a second time, at the end. */
  lemma SecondOccurrence(marker: string, k: nat)
    requires BorderAt(marker, k)
    ensures OccursAt(marker + marker[k..], marker, |marker| - k)
  {
    var n, h := |marker|, marker + marker[k..];
    forall q | 0 <= q < n ensures h[n - k + q] == marker[q] {
      if q < k {
        assert marker[..k][q] == marker[n - k..][q];
      }
    }
    assert h[n - k..n - k + n] == marker;
  }

  /** For such a border the text `marker` followed by its continuation is missed. */
  lemma OverlapIsMissed(marker: string, k: nat)
    requires BorderAt(marker, k) && IsDigit(marker[k])
    ensures var h := marker + marker[k..]; HasBoundedOccurrence(h, marker) && !Matches(h, marker)
  {
    var n, h := |marker|, marker + marker[k..];
    SecondOccurrence(marker, k);
    assert Bounded(h, n - k + n);
    assert marker <= h;
    assert FindSub(h, marker) == Some(0);
    assert h[n] == marker[k] && h[n..] == marker[k..];
    MatchesStep(h, marker, 0);
    assert FindSub(marker[k..], marker).None?;
    MatchesStop(marker[k..], marker);
  }

  /** The smallest case: `11` is in `111` at its end, and the search does not see it. */
  lemma ElevenIsMissed()
    ensures HasBoundedOccurrence("111", "11") && !Matches("111", "11")
  {
    assert BorderAt("11", 1);
    OverlapIsMissed("11", 1);
    assert "11" + "11"[1..] == "111";
  }
}
