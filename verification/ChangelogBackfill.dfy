/** The CHANGELOG back-fill: idempotent, duplicate-free creation of project-map cards. */
module ChangelogBackfill {
  import opened Wrappers
  import opened Text
  import opened ChangelogParse
  import opened CardRender
  import opened CardTitles

  type Cards = seq<Card>

  /** The server's answer to a marker query over the cards it holds, the normal form of a title, and
      the card of an entry. */
  datatype Env = Env(seen: (Cards, string) -> bool, norm: string -> string, render: Entry -> Card)

  ghost predicate CardOf(env: Env, entries: seq<Entry>, c: Card) {
    exists e :: e in entries && c == env.render(e)
  }

  /** `w` is `v` with cards of `entries` added. */
  ghost predicate Grown(env: Env, v: Cards, entries: seq<Entry>, w: Cards) {
    v <= w && forall i :: |v| <= i < |w| ==> CardOf(env, entries, w[i])
  }

  /** While a run over `entries` adds cards to `v`, a marker once found is still found. */
  ghost predicate Persistent(env: Env, v: Cards, entries: seq<Entry>) {
    forall w: Cards, e: Entry, added: Entry ::
      Grown(env, v, entries, w) && e in entries && added in entries && env.seen(w, e.marker) ==>
        env.seen(w + [env.render(added)], e.marker)
  }

  predicate Taken(norm: string -> string, v: Cards, title: string) {
    exists i :: 0 <= i < |v| && norm(v[i].title) == title
  }

  /** The vault already holds this entry: by its marker, or by the normal form of its title. */
  predicate Represented(env: Env, v: Cards, e: Entry) {
    env.seen(v, e.marker) || Taken(env.norm, v, env.norm(env.render(e).title))
  }

  function AfterEntry(env: Env, v: Cards, e: Entry): Cards {
    if Represented(env, v, e) then v else v + [env.render(e)]
  }

  /** The cards after the entries are processed in order. */
  function Final(env: Env, v: Cards, entries: seq<Entry>): Cards
    decreases |entries|
  {
    if entries == [] then v else Final(env, AfterEntry(env, v, entries[0]), entries[1..])
  }

  // ---------------------------------------------------------------- laws of whole runs

  lemma {:induction false} FinalConcat(env: Env, v: Cards, a: seq<Entry>, b: seq<Entry>)
    ensures Final(env, v, a + b) == Final(env, Final(env, v, a), b)
    decreases |a|
  {
    if a == [] {
      assert a + b == b;
    } else {
      assert (a + b)[1..] == a[1..] + b;
      FinalConcat(env, AfterEntry(env, v, a[0]), a[1..], b);
    }
  }

  lemma StillTaken(norm: string -> string, v: Cards, c: Card, title: string)
    requires Taken(norm, v, title)
    ensures Taken(norm, v + [c], title)
  {
    var i :| 0 <= i < |v| && norm(v[i].title) == title;
    assert (v + [c])[i] == v[i];
  }

  lemma GrownByOne(env: Env, v: Cards, entries: seq<Entry>, w: Cards, e: Entry)
    requires Grown(env, v, entries, w) && e in entries
    ensures Grown(env, v, entries, AfterEntry(env, w, e))
  {
    var next := AfterEntry(env, w, e);
    assert forall i :: 0 <= i < |w| ==> next[i] == w[i];
  }

  lemma {:induction false} GrownByRun(env: Env, v: Cards, entries: seq<Entry>, w: Cards, part: seq<Entry>)
    requires Grown(env, v, entries, w) && forall e <- part :: e in entries
    ensures Grown(env, v, entries, Final(env, w, part))
    decreases |part|
  {
    if part != [] {
      GrownByOne(env, v, entries, w, part[0]);
      GrownByRun(env, v, entries, AfterEntry(env, w, part[0]), part[1..]);
    }
  }

  lemma PersistentLater(env: Env, v: Cards, entries: seq<Entry>, w: Cards)
    requires Persistent(env, v, entries) && Grown(env, v, entries, w)
    ensures Persistent(env, w, entries)
  {
    forall x: Cards | Grown(env, w, entries, x) ensures Grown(env, v, entries, x) {
      GrownTwice(env, v, entries, w, x);
    }
  }

  lemma GrownTwice(env: Env, v: Cards, entries: seq<Entry>, w: Cards, x: Cards)
    requires Grown(env, v, entries, w) && Grown(env, w, entries, x)
    ensures Grown(env, v, entries, x)
  {
    assert forall i :: 0 <= i < |w| ==> x[i] == w[i];
  }

  lemma AfterKeeps(env: Env, v: Cards, entries: seq<Entry>, e: Entry, other: Entry)
    requires Persistent(env, v, entries) && e in entries && other in entries && Represented(env, v, e)
    ensures Represented(env, AfterEntry(env, v, other), e)
  {
    if !Represented(env, v, other) {
      if env.seen(v, e.marker) {
        assert Grown(env, v, entries, v);
      } else {
        StillTaken(env.norm, v, env.render(other), env.norm(env.render(e).title));
      }
    }
  }

  lemma AfterRepresents(env: Env, v: Cards, e: Entry)
    ensures Represented(env, AfterEntry(env, v, e), e)
  {
    if !Represented(env, v, e) {
      assert AfterEntry(env, v, e)[|v|] == env.render(e);
    }
  }

  lemma {:induction false} FinalKeeps(env: Env, v: Cards, entries: seq<Entry>, part: seq<Entry>, e: Entry)
    requires Persistent(env, v, entries) && e in entries && (forall x <- part :: x in entries) && Represented(env, v, e)
    ensures Represented(env, Final(env, v, part), e)
    decreases |part|
  {
    if part != [] {
      var next := AfterEntry(env, v, part[0]);
      AfterKeeps(env, v, entries, e, part[0]);
      GrownByOne(env, v, entries, v, part[0]);
      PersistentLater(env, v, entries, next);
      FinalKeeps(env, next, entries, part[1..], e);
    }
  }

  /** A run over some of the entries leaves each of them represented. */
  lemma {:induction false} FinalRepresents(env: Env, v: Cards, entries: seq<Entry>, part: seq<Entry>, e: Entry)
    requires Persistent(env, v, entries) && (forall x <- part :: x in entries) && e in part
    ensures Represented(env, Final(env, v, part), e)
    decreases |part|
  {
    var next := AfterEntry(env, v, part[0]);
    GrownByOne(env, v, entries, v, part[0]);
    PersistentLater(env, v, entries, next);
    if e == part[0] {
      AfterRepresents(env, v, e);
      FinalKeeps(env, next, entries, part[1..], e);
    } else {
      FinalRepresents(env, next, entries, part[1..], e);
    }
  }

  /** Whatever the marker query answers, a run writes nothing if and only if every entry is represented. */
  lemma {:induction false} WritesNothingIff(env: Env, v: Cards, entries: seq<Entry>)
    ensures Final(env, v, entries) == v <==> forall e <- entries :: Represented(env, v, e)
    decreases |entries|
  {
    if entries != [] {
      var next := AfterEntry(env, v, entries[0]);
      if Represented(env, v, entries[0]) {
        WritesNothingIff(env, v, entries[1..]);
      } else {
        assert entries[0] in entries;
        OnlyAppends(env, next, entries[1..]);
      }
    }
  }

  lemma {:induction false} OnlyAppends(env: Env, v: Cards, entries: seq<Entry>)
    ensures v <= Final(env, v, entries)
    decreases |entries|
  {
    if entries != [] {
      OnlyAppends(env, AfterEntry(env, v, entries[0]), entries[1..]);
    }
  }

  /** A run that stopped after `k` entries, then run again to the end, leaves what one uninterrupted
      run leaves; with `k == |entries|`: a second run creates nothing. */
  lemma CutThenRerun(env: Env, v: Cards, entries: seq<Entry>, k: nat)
    requires Persistent(env, v, entries) && k <= |entries|
    ensures Final(env, Final(env, v, entries[..k]), entries) == Final(env, v, entries)
  {
    var cut := Final(env, v, entries[..k]);
    forall e <- entries[..k] ensures Represented(env, cut, e) {
      FinalRepresents(env, v, entries, entries[..k], e);
    }
    WritesNothingIff(env, cut, entries[..k]);
    assert entries[..k] + entries[k..] == entries;
    FinalConcat(env, cut, entries[..k], entries[k..]);
    FinalConcat(env, v, entries[..k], entries[k..]);
  }

  function Prefix(entries: seq<Entry>, k: nat): seq<Entry> {
    if k <= |entries| then entries[..k] else entries
  }

  /** The cards after runs that stopped after `cuts[0]`, `cuts[1]`, … entries. */
  ghost function AfterCuts(env: Env, v: Cards, entries: seq<Entry>, cuts: seq<nat>): Cards
    decreases |cuts|
  {
    if cuts == [] then v else AfterCuts(env, Final(env, v, Prefix(entries, cuts[0])), entries, cuts[1..])
  }

  /** Any number of interrupted runs before a complete one make no difference. */
  lemma {:induction false} InterruptedRunsConverge(env: Env, v: Cards, entries: seq<Entry>, cuts: seq<nat>)
    requires Persistent(env, v, entries)
    ensures Final(env, AfterCuts(env, v, entries, cuts), entries) == Final(env, v, entries)
    decreases |cuts|
  {
    if cuts != [] {
      var cut := Final(env, v, Prefix(entries, cuts[0]));
      GrownByRun(env, v, entries, v, Prefix(entries, cuts[0]));
      PersistentLater(env, v, entries, cut);
      InterruptedRunsConverge(env, cut, entries, cuts[1..]);
      CutThenRerun(env, v, entries, if cuts[0] <= |entries| then cuts[0] else |entries|);
      assert entries[..|entries|] == entries;
    }
  }

  /** Every card from index `start` on has a title unlike that of every card before it. */
  ghost predicate NewTitles(norm: string -> string, v: Cards, start: nat) {
    forall i, j :: start <= i < |v| && 0 <= j < i ==> norm(v[i].title) != norm(v[j].title)
  }

  /** Whatever the marker query answers, a run only appends, and never a title already present. */
  lemma {:induction false} NoDuplicateTitle(env: Env, v: Cards, entries: seq<Entry>, start: nat)
    requires start <= |v| && NewTitles(env.norm, v, start)
    ensures v <= Final(env, v, entries) && NewTitles(env.norm, Final(env, v, entries), start)
    decreases |entries|
  {
    if entries != [] {
      var next := AfterEntry(env, v, entries[0]);
      assert NewTitles(env.norm, next, start) by {
        assert forall j :: 0 <= j < |v| ==> next[j] == v[j];
        if !Represented(env, v, entries[0]) {
          assert next[|v|] == env.render(entries[0]);
        }
      }
      NoDuplicateTitle(env, next, entries[1..], start);
    }
  }

  // ---------------------------------------------------------------- the index of titles

  /** `build_title_index`: keyed by the normal form, the first card of a form wins. */
  method BuildTitleIndex(norm: string -> string, entries: seq<(string, string)>) returns (index: map<string, string>)
    ensures forall t :: t in index <==> Carries(norm, entries, t)
    ensures forall i :: 0 <= i < |entries| && IsFirst(norm, entries, i) ==>
                          Carries(norm, entries, norm(entries[i].1)) && index[norm(entries[i].1)] == entries[i].0
  {
    index := map[];
    for n := 0 to |entries|
      invariant forall t :: t in index <==> Carries(norm, entries[..n], t)
      invariant forall i :: 0 <= i < n && IsFirst(norm, entries, i) ==>
                              norm(entries[i].1) in index && index[norm(entries[i].1)] == entries[i].0
    {
      var key := norm(entries[n].1);
      assert entries[..n + 1] == entries[..n] + [entries[n]];
      CarriesMore(norm, entries[..n], entries[n]);
      if key !in index {
        index := index[key := entries[n].0];
      }
    }
    assert entries[..|entries|] == entries;
  }

  /** Some entry has the normal form `t`. */
  predicate Carries(norm: string -> string, entries: seq<(string, string)>, t: string) {
    exists i :: 0 <= i < |entries| && norm(entries[i].1) == t
  }

  lemma CarriesMore(norm: string -> string, entries: seq<(string, string)>, e: (string, string))
    ensures forall t :: Carries(norm, entries + [e], t) <==> Carries(norm, entries, t) || t == norm(e.1)
  {
    var more := entries + [e];
    assert more[|entries|] == e && forall i :: 0 <= i < |entries| ==> more[i] == entries[i];
  }

  predicate IsFirst(norm: string -> string, entries: seq<(string, string)>, i: nat)
    requires i < |entries|
  {
    forall j :: 0 <= j < i ==> norm(entries[j].1) != norm(entries[i].1)
  }

  // ---------------------------------------------------------------- the command

  datatype Report = Report(
    parsed: nat, skippedMeta: nat, wouldCreate: nat, created: nat, skipped: nat, skippedTitle: nat)

  datatype Error = MissingApiKey | UnreadableChangelog | CallFailed

  /** What the command runs with: the title normal form and the card printer of the source. */
  function CommandEnv(seen: (Cards, string) -> bool, lower: Lowercase): Env {
    Env(seen, title => NormalizeTitle(lower, title), RenderCard)
  }

  lemma FinalSnoc(env: Env, v: Cards, entries: seq<Entry>, n: nat)
    requires n < |entries|
    ensures Final(env, v, entries[..n + 1]) == AfterEntry(env, Final(env, v, entries[..n]), entries[n])
  {
    assert entries[..n + 1] == entries[..n] + [entries[n]];
    FinalConcat(env, v, entries[..n], [entries[n]]);
    var cut := Final(env, v, entries[..n]);
    assert Final(env, cut, [entries[n]]) == Final(env, AfterEntry(env, cut, entries[n]), [entries[n]][1..]);
  }

  /** The cards the server holds. A call fails once `calls` is used up; the write that fails may
      still have reached the server (`landed`). */
  class Server {
    var cards: Cards
    var calls: nat
    const landed: bool
    const locusOf: Card -> string

    constructor (cards: Cards, calls: nat, landed: bool, locusOf: Card -> string)
      ensures this.cards == cards && this.calls == calls && this.landed == landed && this.locusOf == locusOf
    {
      this.cards, this.calls, this.landed, this.locusOf := cards, calls, landed, locusOf;
    }

    method MarkerExists(env: Env, marker: string) returns (r: Result<bool, Error>)
      modifies this`calls
      ensures r.Success? <==> old(calls) > 0
      ensures if r.Success? then r.value == env.seen(cards, marker) && calls == old(calls) - 1
              else r.error == CallFailed
    {
      if calls == 0 {
        return Failure(CallFailed);
      }
      calls := calls - 1;
      r := Success(env.seen(cards, marker));
    }

    method ExistingTitles() returns (r: Result<seq<(string, string)>, Error>)
      modifies this`calls
      ensures r.Success? <==> old(calls) > 0
      ensures if r.Success? then |r.value| == |cards| && calls == old(calls) - 1 else r.error == CallFailed
      ensures r.Success? ==> forall i :: 0 <= i < |cards| ==> r.value[i] == (locusOf(cards[i]), cards[i].title)
    {
      if calls == 0 {
        return Failure(CallFailed);
      }
      calls := calls - 1;
      r := Success(seq(|cards|, i requires 0 <= i < |cards| reads this => (locusOf(cards[i]), cards[i].title)));
    }

    method VaultWrite(card: Card) returns (r: Result<string, Error>)
      modifies this
      ensures r.Success? <==> old(calls) > 0
      ensures r.Success? ==> cards == old(cards) + [card] && calls == old(calls) - 1
      ensures r.Failure? ==> r.error == CallFailed && (cards == old(cards) || cards == old(cards) + [card])
    {
      if calls == 0 {
        if landed {
          cards := cards + [card];
        }
        return Failure(CallFailed);
      }
      calls := calls - 1;
      cards := cards + [card];
      r := Success(locusOf(card));
    }

    ghost predicate Indexes(norm: string -> string, index: map<string, string>)
      reads this
    {
      forall t :: t in index <==> Taken(norm, cards, t)
    }

    /** One entry of an applying run. */
    method ApplyOne(env: Env, e: Entry, index: map<string, string>, report: Report)
      returns (r: Result<Report, Error>, index': map<string, string>)
      requires Indexes(env.norm, index)
      modifies this
      ensures r.Success? ==> cards == AfterEntry(env, old(cards), e) && Indexes(env.norm, index')
      ensures r.Failure? ==> cards == old(cards) || cards == AfterEntry(env, old(cards), e)
      ensures r.Success? ==> OneMore(report, r.value) && r.value.created - report.created == |cards| - |old(cards)|
      ensures if r.Success? then calls + 2 >= old(calls) else r.error == CallFailed && old(calls) < 2
    {
      var card := env.render(e);
      index' := index;
      var present := MarkerExists(env, e.marker);
      if present.Failure? {
        return Failure(present.error), index';
      }
      var normalized := env.norm(card.title);
      if present.value {
        r := Success(report.(skipped := report.skipped + 1));
      } else if normalized in index {
        r := Success(report.(skippedTitle := report.skippedTitle + 1));
      } else {
        var locus := VaultWrite(card);
        if locus.Failure? {
          return Failure(locus.error), index';
        }
        index' := index[normalized := locus.value];
        TakenAfterWrite(env.norm, old(cards), card);
        r := Success(report.(created := report.created + 1));
      }
    }

    /** `run_backfill`. A dry run touches nothing; an applying run that ends well leaves the cards of
        the whole run and counts every entry once; one that fails leaves those of a shorter run. */
    method RunBackfill(seen: (Cards, string) -> bool, lower: Lowercase, apply: bool, apiKey: string,
                       content: Option<seq<string>>, o: Options)
      returns (r: Result<Report, Error>)
      modifies this
      ensures apply && Trim(apiKey) == [] ==> r == Failure(MissingApiKey) && cards == old(cards) && calls == old(calls)
      ensures r.Success? ==> content.Some? && r.value.parsed == |Parse(o, content.value)|
      ensures r.Success? ==>
                r.value.skippedMeta == |Parse(o.(includeMeta := true), content.value)| - |Parse(o, content.value)|
      ensures r.Success? && !apply ==>
                && cards == old(cards) && calls == old(calls)
                && r.value.wouldCreate == r.value.parsed && r.value.created == 0
      ensures r.Success? && apply ==>
                && cards == Final(CommandEnv(seen, lower), old(cards), Parse(o, content.value))
                && r.value.created + r.value.skipped + r.value.skippedTitle == r.value.parsed
                && r.value.created == |cards| - |old(cards)| && r.value.wouldCreate == 0
      ensures content.Some? ==>
                exists k :: 0 <= k <= |Parse(o, content.value)| &&
                  cards == Final(CommandEnv(seen, lower), old(cards), Parse(o, content.value)[..k])
      ensures content.None? ==> r.Failure? && cards == old(cards)
      ensures r == Failure(MissingApiKey) <==> apply && Trim(apiKey) == []
      ensures r == Failure(CallFailed) ==> apply && content.Some? && old(calls) < 1 + 2 * |Parse(o, content.value)|
      ensures r == Failure(UnreadableChangelog) <==> content.None? && !(apply && Trim(apiKey) == [])
    {
      ghost var before := cards;
      var env := CommandEnv(seen, lower);
      if apply && Trim(apiKey) == [] {
        assert content.Some? ==> before == Final(env, before, Parse(o, content.value)[..0]);
        return Failure(MissingApiKey);
      }
      if content.None? {
        return Failure(UnreadableChangelog);
      }
      var total := ParseChangelog(o.(includeMeta := true), content.value);
      var entries := ParseChangelog(o, content.value);
      SkippedMetaIsExact(o, content.value);
      assert before == Final(env, before, entries[..0]);
      var report := Report(|entries|, |total| - |entries|, 0, 0, 0, 0);
      if !apply {
        for n := 0 to |entries|
          invariant report == Report(|entries|, |total| - |entries|, n, 0, 0, 0)
          invariant cards == before && calls == old(calls)
        {
          report := report.(wouldCreate := report.wouldCreate + 1);
        }
        return Success(report);
      }
      r := ApplyAll(env, entries, report);
    }

    method ApplyAll(env: Env, entries: seq<Entry>, start: Report) returns (r: Result<Report, Error>)
      requires start.created == start.skipped == start.skippedTitle == 0
      modifies this
      ensures exists k :: 0 <= k <= |entries| && cards == Final(env, old(cards), entries[..k])
      ensures r.Failure? ==> r.error == CallFailed && old(calls) < 1 + 2 * |entries|
      ensures r.Success? ==> cards == Final(env, old(cards), entries)
      ensures r.Success? ==>
                && r.value.(created := 0, skipped := 0, skippedTitle := 0) == start
                && r.value.created + r.value.skipped + r.value.skippedTitle == |entries|
                && r.value.created == |cards| - |old(cards)|
    {
      ghost var before := cards;
      assert before == Final(env, before, entries[..0]);
      var titles := ExistingTitles();
      if titles.Failure? {
        return Failure(titles.error);
      }
      var index := BuildTitleIndex(env.norm, titles.value);
      assert Indexes(env.norm, index) by {
        forall t ensures Carries(env.norm, titles.value, t) <==> Taken(env.norm, cards, t) {
          if Taken(env.norm, cards, t) {
            var i :| 0 <= i < |cards| && env.norm(cards[i].title) == t;
            assert titles.value[i].1 == cards[i].title;
          }
        }
      }
      var report := start;
      for n := 0 to |entries|
        invariant cards == Final(env, before, entries[..n]) && Indexes(env.norm, index)
        invariant report.(created := 0, skipped := 0, skippedTitle := 0) == start
        invariant report.created + report.skipped + report.skippedTitle == n
        invariant report.created == |cards| - |before| && calls + 1 + 2 * n >= old(calls)
      {
        FinalSnoc(env, before, entries, n);
        r, index := ApplyOne(env, entries[n], index, report);
        if r.Failure? {
          return;
        }
        report := r.value;
      }
      assert entries[..|entries|] == entries;
      r := Success(report);
    }
  }

  /** Exactly one of the three counters went up. */
  predicate OneMore(a: Report, b: Report) {
    || b == a.(created := a.created + 1)
    || b == a.(skipped := a.skipped + 1)
    || b == a.(skippedTitle := a.skippedTitle + 1)
  }

  lemma TakenAfterWrite(norm: string -> string, v: Cards, card: Card)
    ensures forall t :: Taken(norm, v + [card], t) <==> Taken(norm, v, t) || t == norm(card.title)
  {
    var w := v + [card];
    assert w[|v|] == card;
    assert forall i :: 0 <= i < |v| ==> w[i] == v[i];
  }
}
