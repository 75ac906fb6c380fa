/** `marker_exists`: the staged query behind the marker guard, over a full-text search that ranks, truncates
    and excerpts as it likes. */
module MarkerQuery {
  import opened Wrappers
  import opened Text
  import opened ChangelogParse
  import opened MarkerMatch
  import opened SourceMarkers
  import opened CardRender
  import CardTitles
  import opened ParsedCards
  import opened CardMarkers
  import opened ChangelogBackfill

  type Path = string

  /** The page length the command asks for. */
  const PAGE: nat := 50

  datatype Hit = Hit(path: Option<Path>, snippet: string, title: string)

  /** What the server answers during one query: the page of hits, the count of matching notes (0 when it sends
      none), the paths of the section, and the body behind a path. A `None` is a call that fails. */
  datatype Answers = Answers(
    items: seq<Hit>, corpusCount: nat, listing: Option<seq<Path>>, read: Path -> Option<string>)

  datatype QueryError = HitWithoutPath | ReadFailed | ListFailed

  // ---------------------------------------------------------------- the stages

  predicate Shows(hit: Hit, marker: string) {
    Matches(hit.snippet, marker) || Matches(hit.title, marker)
  }

  function ReadHits(read: Path -> Option<string>, items: seq<Hit>, marker: string): Result<bool, QueryError> {
    if items == [] then Success(false)
    else if items[0].path.None? then Failure(HitWithoutPath)
    else match read(items[0].path.value)
      case None => Failure(ReadFailed)
      case Some(body) => if Matches(body, marker) then Success(true) else ReadHits(read, items[1..], marker)
  }

  function ReadOthers(read: Path -> Option<string>, paths: seq<Path>, done: set<Path>, marker: string)
    : Result<bool, QueryError>
  {
    if paths == [] then Success(false)
    else if paths[0] in done then ReadOthers(read, paths[1..], done, marker)
    else match read(paths[0])
      case None => Failure(ReadFailed)
      case Some(body) => if Matches(body, marker) then Success(true) else ReadOthers(read, paths[1..], done, marker)
  }

  function HitPaths(items: seq<Hit>): set<Path> {
    set hit | hit in items && hit.path.Some? :: hit.path.value
  }

  predicate NeedsFullScan(a: Answers) {
    (a.corpusCount > 0 && a.corpusCount > |a.items|) || |a.items| >= PAGE
  }

  /** Snippets and titles of the page, then the bodies of the page, then every other body of the section. */
  function Staged(a: Answers, marker: string): Result<bool, QueryError> {
    if exists i :: 0 <= i < |a.items| && Shows(a.items[i], marker) then Success(true)
    else
      var onPage := ReadHits(a.read, a.items, marker);
      if onPage != Success(false) || !NeedsFullScan(a) then onPage
      else if a.listing.None? then Failure(ListFailed)
      else ReadOthers(a.read, a.listing.value, HitPaths(a.items), marker)
  }

  method AnyShows(items: seq<Hit>, marker: string) returns (shown: bool)
    ensures shown <==> exists i :: 0 <= i < |items| && Shows(items[i], marker)
  {
    for n := 0 to |items|
      invariant forall i :: 0 <= i < n ==> !Shows(items[i], marker)
    {
      var inSnippet := MarkerMatches(items[n].snippet, marker);
      var inTitle := MarkerMatches(items[n].title, marker);
      if inSnippet || inTitle {
        assert Shows(items[n], marker);
        return true;
      }
    }
    return false;
  }

  method ReadPage(read: Path -> Option<string>, items: seq<Hit>, marker: string)
    returns (r: Result<bool, QueryError>, done: set<Path>)
    ensures r == ReadHits(read, items, marker)
    ensures r == Success(false) ==> done == HitPaths(items)
  {
    done := {};
    for n := 0 to |items|
      invariant ReadHits(read, items[n..], marker) == ReadHits(read, items, marker)
      invariant done == HitPaths(items[..n])
    {
      assert items[n..][1..] == items[n + 1..] && items[..n + 1] == items[..n] + [items[n]];
      if items[n].path.None? {
        return Failure(HitWithoutPath), done;
      }
      done := done + {items[n].path.value};
      var body := read(items[n].path.value);
      if body.None? {
        return Failure(ReadFailed), done;
      }
      var found := MarkerMatches(body.value, marker);
      if found {
        return Success(true), done;
      }
    }
    assert items[..|items|] == items;
    r := Success(false);
  }

  method ReadSection(read: Path -> Option<string>, paths: seq<Path>, done: set<Path>, marker: string)
    returns (r: Result<bool, QueryError>)
    ensures r == ReadOthers(read, paths, done, marker)
  {
    for n := 0 to |paths|
      invariant ReadOthers(read, paths[n..], done, marker) == ReadOthers(read, paths, done, marker)
    {
      assert paths[n..][1..] == paths[n + 1..];
      if paths[n] in done {
        continue;
      }
      var body := read(paths[n]);
      if body.None? {
        return Failure(ReadFailed);
      }
      var found := MarkerMatches(body.value, marker);
      if found {
        return Success(true);
      }
    }
    r := Success(false);
  }

  method MarkerExists(a: Answers, marker: string) returns (r: Result<bool, QueryError>)
    ensures r == Staged(a, marker)
  {
    var shown := AnyShows(a.items, marker);
    if shown {
      return Success(true);
    }
    var done;
    r, done := ReadPage(a.read, a.items, marker);
    if r != Success(false) || !NeedsFullScan(a) {
      return;
    }
    if a.listing.None? {
      return Failure(ListFailed);
    }
    r := ReadSection(a.read, a.listing.value, done, marker);
  }

  // ---------------------------------------------------------------- over a vault

  /** How a search over `v` goes: a path for each card, the cards the full-text index matches in the order of
      its ranking, an excerpt of each, how many of them the server returns, and whether it counts them. */
  datatype Search = Search(paths: seq<Path>, ranked: seq<nat>, snippet: nat -> string, shown: nat, counts: bool)

  predicate Fits(v: Cards, s: Search) {
    && |s.paths| == |v| && (forall i, j :: 0 <= i < j < |v| ==> s.paths[i] != s.paths[j])
    && (forall k :: 0 <= k < |s.ranked| ==> s.ranked[k] < |v|)
    && s.shown <= |s.ranked| && s.shown <= PAGE
  }

  /** The search finds every card whose body holds the marker, somewhere in its ranking, and an excerpt shows
      the marker only where the body has it.  A server that returns neither all matches nor a full page counts
      them. */
  ghost predicate Healthy(v: Cards, s: Search, marker: string) {
    && Fits(v, s)
    && (forall i :: 0 <= i < |v| && Matches(v[i].body, marker) ==> i in s.ranked)
    && (forall i :: 0 <= i < |v| && Matches(s.snippet(i), marker) ==> Matches(v[i].body, marker))
    && (s.shown == |s.ranked| || s.shown == PAGE || s.counts)
  }

  function Page(s: Search): seq<nat>
    requires s.shown <= |s.ranked|
  {
    s.ranked[..s.shown]
  }

  function BodyAt(v: Cards, paths: seq<Path>, p: Path): Option<string>
    requires |paths| == |v|
  {
    if paths == [] then None
    else if paths[0] == p then Some(v[0].body)
    else BodyAt(v[1..], paths[1..], p)
  }

  lemma {:induction false} BodyOfPath(v: Cards, paths: seq<Path>, i: nat)
    requires |paths| == |v| && i < |v| && forall j, k :: 0 <= j < k < |v| ==> paths[j] != paths[k]
    ensures BodyAt(v, paths, paths[i]) == Some(v[i].body)
    decreases |v|
  {
    if i > 0 {
      BodyOfPath(v[1..], paths[1..], i - 1);
    }
  }

  function HitFor(v: Cards, s: Search, i: nat): Hit
    requires Fits(v, s) && i < |v|
  {
    Hit(Some(s.paths[i]), s.snippet(i), v[i].title)
  }

  function AnswersOf(v: Cards, s: Search): Answers
    requires Fits(v, s)
  {
    Answers(seq(|Page(s)|, k requires 0 <= k < |Page(s)| => HitFor(v, s, Page(s)[k])),
            if s.counts then |s.ranked| else 0, Some(s.paths), p => BodyAt(v, s.paths, p))
  }

  /** Every card is read from a page of fifty on, and from a counted match on that the page does not show. */
  lemma FullScanIff(v: Cards, s: Search)
    requires Fits(v, s)
    ensures NeedsFullScan(AnswersOf(v, s)) <==> s.shown == 50 || (s.counts && s.shown < |s.ranked|)
  {
    assert |AnswersOf(v, s).items| == |Page(s)|;
  }

  ghost predicate BodyHolds(v: Cards, marker: string) {
    exists i :: 0 <= i < |v| && Matches(v[i].body, marker)
  }

  /** A title on the page shows the marker. */
  ghost predicate TitleShows(v: Cards, s: Search, marker: string)
    requires Fits(v, s)
  {
    exists k :: 0 <= k < |Page(s)| && Matches(v[Page(s)[k]].title, marker)
  }

  lemma {:induction false} ReadHitsIff(v: Cards, s: Search, items: seq<Hit>, page: seq<nat>, marker: string)
    requires Fits(v, s) && |items| == |page|
    requires forall k :: 0 <= k < |page| ==> page[k] < |v| && items[k] == HitFor(v, s, page[k])
    ensures ReadHits(AnswersOf(v, s).read, items, marker)
            == Success(exists k :: 0 <= k < |page| && Matches(v[page[k]].body, marker))
    decreases |page|
  {
    if page != [] {
      var rest := page[1..];
      BodyOfPath(v, s.paths, page[0]);
      ReadHitsIff(v, s, items[1..], rest, marker);
      if k :| 0 <= k < |page| && Matches(v[page[k]].body, marker) {
        assert k == 0 || Matches(v[rest[k - 1]].body, marker);
      }
      assert forall k :: 0 <= k < |rest| ==> rest[k] == page[k + 1];
    }
  }

  lemma {:induction false} ReadOthersIff(v: Cards, s: Search, start: nat, done: set<Path>, marker: string)
    requires Fits(v, s) && start <= |v|
    ensures ReadOthers(AnswersOf(v, s).read, s.paths[start..], done, marker)
            == Success(exists i :: start <= i < |v| && s.paths[i] !in done && Matches(v[i].body, marker))
    decreases |v| - start
  {
    if start < |v| {
      BodyOfPath(v, s.paths, start);
      assert s.paths[start..][1..] == s.paths[start + 1..];
      ReadOthersIff(v, s, start + 1, done, marker);
    }
  }

  lemma PageIsRead(v: Cards, s: Search, i: nat)
    requires Fits(v, s) && i < |v| && i !in Page(s)
    ensures s.paths[i] !in HitPaths(AnswersOf(v, s).items)
  {
    var items := AnswersOf(v, s).items;
    forall hit | hit in items ensures hit.path != Some(s.paths[i]) {
      var k :| 0 <= k < |items| && items[k] == hit;
      assert hit == HitFor(v, s, Page(s)[k]) && Page(s)[k] in Page(s);
    }
  }

  /** The two reading stages together miss no body. */
  lemma BodiesAreRead(v: Cards, s: Search, marker: string)
    requires Healthy(v, s, marker)
    ensures var a := AnswersOf(v, s);
            var onPage := ReadHits(a.read, a.items, marker);
            (if onPage != Success(false) || !NeedsFullScan(a) then onPage
             else ReadOthers(a.read, s.paths, HitPaths(a.items), marker)) == Success(BodyHolds(v, marker))
  {
    var a, page := AnswersOf(v, s), Page(s);
    ReadHitsIff(v, s, a.items, page, marker);
    ReadOthersIff(v, s, 0, HitPaths(a.items), marker);
    assert s.paths[0..] == s.paths;
    if i :| 0 <= i < |v| && Matches(v[i].body, marker) && i !in page {
      assert i in s.ranked && NeedsFullScan(a);
      PageIsRead(v, s, i);
    }
  }

  /** No false negative: the staged query says yes exactly when some body in the section holds the marker, or
      a title on the page shows it, wherever the ranking put the card. */
  lemma StagedIff(v: Cards, s: Search, marker: string)
    requires Healthy(v, s, marker)
    ensures Staged(AnswersOf(v, s), marker) == Success(BodyHolds(v, marker) || TitleShows(v, s, marker))
  {
    var a, page := AnswersOf(v, s), Page(s);
    assert forall k :: 0 <= k < |page| ==> a.items[k] == HitFor(v, s, page[k]);
    BodiesAreRead(v, s, marker);
    if k :| 0 <= k < |a.items| && Shows(a.items[k], marker) {
      assert a.items[k] == HitFor(v, s, page[k]);
    } else {
      assert !TitleShows(v, s, marker) by {
        assert forall k :: 0 <= k < |page| ==> a.items[k].title == v[page[k]].title;
      }
    }
  }

  // A hand-written card that cites an entry in its title, among the cards of the other entries of that section.

  function Rank(i: nat): Parts {
    Parts("0.5.2", "added", Decimal(i))
  }

  function FirstMarker(): string {
    Join(Rank(0))
  }

  function Citing(): Card {
    Card("Follow-up of " + FirstMarker(), "", ["project-map"], "project-map")
  }

  function CardOfRank(i: nat): Card {
    Card("Entry", Comment(Join(Rank(i))), ["project-map"], "project-map")
  }

  function ToyCards(n: nat): (v: Cards)
    ensures |v| == n + 1 && v[0] == Citing() && forall i :: 1 <= i <= n ==> v[i] == CardOfRank(i)
  {
    [Citing()] + seq(n, i requires 0 <= i < n => CardOfRank(i + 1))
  }

  function ToyName(i: nat): (p: Path)
    ensures |p| == i
  {
    seq(i, _ => 'p')
  }

  /** Every card shares words with the marker and is matched; the citing one comes first or last. */
  function ToySearch(n: nat, first: bool): Search {
    Search(seq(n + 1, i requires 0 <= i <= n => ToyName(i)),
           seq(n + 1, k requires 0 <= k <= n => if first then k else if k < n then k + 1 else 0), _ => "",
           if n < PAGE then n + 1 else PAGE, true)
  }

  lemma RankIsWellFormed(i: nat)
    ensures WellFormedParts(Rank(i))
  {
    DecimalRoundTrip(i);
  }

  lemma OtherRanksDiffer(i: nat)
    requires i > 0
    ensures Join(Rank(i)) != FirstMarker()
  {
    var front := HEAD + "0.5.2" + "/" + "added" + "/";
    assert Join(Rank(i))[|front|..] == Decimal(i) && FirstMarker()[|front|..] == Decimal(0);
    if Decimal(i) == Decimal(0) {
      DecimalInjective(i, 0);
    }
  }

  lemma ToyTitles()
    ensures Matches(Citing().title, FirstMarker()) && !Matches("Entry", FirstMarker()) && !Matches("", FirstMarker())
  {
    var lead, m := "Follow-up of ", FirstMarker();
    RankIsWellFormed(0);
    Layout(Rank(0), 0);
    OccurrenceByPosition(lead + m, m, |lead|);
    assert OccursAt(lead + m, m, |lead|) && Bounded(lead + m, |lead| + |m|);
    SearchIsExact(Rank(0), lead + m);
    TooShort("Entry", m);
    TooShort("", m);
  }

  lemma TooShort(s: string, m: string)
    requires |s| < |m|
    ensures !Matches(s, m)
  {
    if Matches(s, m) {
      MatchesIsSound(s, m);
    }
  }

  lemma ToyBodies(n: nat)
    ensures !BodyHolds(ToyCards(n), FirstMarker())
  {
    var v := ToyCards(n);
    ToyTitles();
    forall i | 0 <= i < |v| ensures !Matches(v[i].body, FirstMarker()) {
      if i > 0 {
        RankIsWellFormed(i);
        RankIsWellFormed(0);
        CommentMatchesOnlyItself(Rank(0), Rank(i));
        OtherRanksDiffer(i);
      }
    }
  }

  lemma ToyIsHealthy(n: nat, first: bool)
    ensures Healthy(ToyCards(n), ToySearch(n, first), FirstMarker())
  {
    ToyTitles();
    ToyBodies(n);
    var v, s := ToyCards(n), ToySearch(n, first);
    forall i, j | 0 <= i < j < |v| ensures s.paths[i] != s.paths[j] {
      assert |s.paths[i]| == i && |s.paths[j]| == j;
    }
  }

  lemma FirstIsShown()
    ensures Fits(ToyCards(49), ToySearch(49, true)) && TitleShows(ToyCards(49), ToySearch(49, true), FirstMarker())
  {
    ToyIsHealthy(49, true);
    ToyTitles();
    assert Page(ToySearch(49, true))[0] == 0;
  }

  lemma LastRanksBehindThePage(s: Search)
    requires s == ToySearch(50, false)
    ensures |Page(s)| == 50 && forall k :: 0 <= k < 50 ==> Page(s)[k] == k + 1
  {
    assert forall k :: 0 <= k < 50 ==> s.ranked[k] == k + 1;
  }

  lemma LastIsNotShown()
    ensures Fits(ToyCards(50), ToySearch(50, false))
    ensures !TitleShows(ToyCards(50), ToySearch(50, false), FirstMarker())
  {
    ToyIsHealthy(50, false);
    ToyTitles();
    LastRanksBehindThePage(ToySearch(50, false));
  }

  /** Full scans read bodies only: a card that the page showed by its title is forgotten once the ranking puts
      it behind the page. */
  lemma TitleOnlyMatchIsForgotten()
    ensures var v, w, m := ToyCards(49), ToyCards(50), FirstMarker();
            && w == v + [CardOfRank(50)]
            && Healthy(v, ToySearch(49, true), m) && Healthy(w, ToySearch(50, false), m)
            && Staged(AnswersOf(v, ToySearch(49, true)), m) == Success(true)
            && Staged(AnswersOf(w, ToySearch(50, false)), m) == Success(false)
  {
    ToyIsHealthy(49, true);
    ToyIsHealthy(50, false);
    ToyBodies(50);
    FirstIsShown();
    LastIsNotShown();
    StagedIff(ToyCards(49), ToySearch(49, true), FirstMarker());
    StagedIff(ToyCards(50), ToySearch(50, false), FirstMarker());
    OneMoreCard(49);
  }

  lemma OneMoreCard(n: nat)
    ensures ToyCards(n + 1) == ToyCards(n) + [CardOfRank(n + 1)]
  {
  }

  // ---------------------------------------------------------------- answers that persist

  /** A card whose title shows the marker holds it in its body. */
  predicate Spelled(c: Card, marker: string) {
    Matches(c.title, marker) ==> Matches(c.body, marker)
  }

  /** Over spelled cards the query is exact, whatever the page shows. */
  lemma SpelledIsExact(v: Cards, s: Search, marker: string)
    requires Healthy(v, s, marker) && forall c <- v :: Spelled(c, marker)
    ensures Staged(AnswersOf(v, s), marker) == Success(BodyHolds(v, marker))
  {
    StagedIff(v, s, marker);
    if TitleShows(v, s, marker) {
      var k :| 0 <= k < |Page(s)| && Matches(v[Page(s)[k]].title, marker);
      assert Spelled(v[Page(s)[k]], marker);
    }
  }

  const TITLE_HEAD := "[PROJECT-MAP][gradatum] "

  function CardTitle(title: string, version: string): string {
    TITLE_HEAD + title + TitleTail(version)
  }

  function TitleTail(version: string): string {
    " — v" + version
  }

  /** A marker in the title of a card lies inside the title of its entry: it starts as no other part does, and
      its last slash and its rank fit nowhere else. */
  lemma MarkerInsideTitle(mid: string, rank: string, title: string, version: string, i: nat)
    requires AllDigits(rank) && '/' !in version && OccursAt(CardTitle(title, version), HEAD + mid + "/" + rank, i)
    ensures |TITLE_HEAD| <= i && i + |HEAD + mid + "/" + rank| <= |TITLE_HEAD| + |title|
  {
    var s, m := CardTitle(title, version), HEAD + mid + "/" + rank;
    var from, to := |TITLE_HEAD|, |TITLE_HEAD| + |title|;
    var slash := i + |HEAD + mid|;
    OccurrenceByPosition(s, m, i);
    assert m[0] == 'c' && m[|HEAD + mid|] == '/';
    assert s[i] == 'c' && s[slash] == '/' && s[to] == ' ';
    forall q: nat | q < from ensures s[q] != 'c' {
      assert s[q] == TITLE_HEAD[q];
    }
    forall q: nat | to <= q < |s| ensures s[q] != '/' {
      TailHasNoSlash(version, q - to);
      assert s[q] == TitleTail(version)[q - to];
    }
    forall q: nat | slash < q < i + |m| ensures IsDigit(s[q]) {
      assert s[i + (q - i)] == m[q - i] == rank[q - slash - 1];
    }
  }

  lemma TailHasNoSlash(version: string, q: nat)
    requires '/' !in version && q < |TitleTail(version)|
    ensures TitleTail(version)[q] != '/'
  {
    if q >= 4 {
      assert TitleTail(version)[q] == version[q - 4];
    }
  }

  /** The search is exact for the marker of the entry, and its version is one segment. */
  ghost predicate Searchable(e: Entry) {
    !HasDigitBorder(e.marker) && '[' !in e.marker && '/' !in e.version
  }

  /** Pre-release versions and meta sections included, an entry is searchable unless a bracket or a slash stands
      in its names or its marker starts over inside itself. */
  lemma OneHeadIsSearchable(isUpper: IsUpper, o: Options, lines: seq<string>, e: Entry)
    requires o.marker == MarkerFormat(isUpper) && e in Parse(o, lines) && '[' !in e.marker && '/' !in e.version
    requires forall i: nat :: i > 0 ==> !OccursAt(e.marker, HEAD, i)
    ensures Searchable(e)
  {
    var mid, rank := MarkerShape(isUpper, o, lines, e);
    if HasDigitBorder(e.marker) {
      var k: nat :| BorderAt(e.marker, k) && IsDigit(e.marker[k]);
      BorderRepeatsHead(mid, rank, e.marker, k);
    }
  }

  /** A border of a marker ends with its rank, so it is long enough to start with a whole head. */
  lemma BorderRepeatsHead(mid: string, rank: string, m: string, k: nat)
    requires m == HEAD + mid + "/" + rank && AllDigits(rank) && rank != [] && BorderAt(m, k)
    ensures OccursAt(m, HEAD, |m| - k)
  {
    var pos := |m| - k;
    assert m[..k][k - 1] == m[pos..][k - 1] == rank[|rank| - 1];
    assert forall q :: 0 <= q < 10 ==> m[q] == HEAD[q] && !IsDigit(HEAD[q]);
    assert k > 10;
    forall q | 0 <= q < 10 ensures m[pos + q] == HEAD[q] {
      assert m[..k][q] == m[pos..][q];
    }
    OccurrenceByPosition(m, HEAD, pos);
  }

  lemma MarkerShape(isUpper: IsUpper, o: Options, lines: seq<string>, e: Entry) returns (mid: string, rank: string)
    requires o.marker == MarkerFormat(isUpper) && e in Parse(o, lines)
    ensures e.marker == HEAD + mid + "/" + rank && AllDigits(rank) && rank != []
  {
    forall i | 0 <= i < |lines| ensures NamesClean(ClassifyLines(lines)[i]) {
      HeadingVersionIsClean(lines[i]);
    }
    EntriesAreClean(o, START, ClassifyLines(lines), e);
    DecimalRoundTrip(e.idx);
    mid, rank := e.version + "/" + SectionToSnake(isUpper, e.section), Decimal(e.idx);
    MiddleOfMarker(HEAD, e.version, "/", SectionToSnake(isUpper, e.section));
  }

  lemma MiddleOfMarker(a: string, b: string, c: string, d: string)
    ensures a + (b + c + d) == a + b + c + d
  {
  }

  /** The cards of one parse are spelled for the markers of that parse. */
  lemma ParsedCardIsSpelled(isUpper: IsUpper, o: Options, lines: seq<string>, x: Entry, y: Entry)
    requires o.marker == MarkerFormat(isUpper)
    requires x in Parse(o, lines) && y in Parse(o, lines) && Searchable(x) && Searchable(y)
    ensures Spelled(RenderCard(y), x.marker)
  {
    if Matches(RenderCard(y).title, x.marker) {
      var mid, rank := MarkerShape(isUpper, o, lines, x);
      MatchesIsSound(RenderCard(y).title, x.marker);
      RenderedTitle(y);
      OnlyInsideTitle(mid, rank, y.title, y.version);
      TitleIsInBody(KindWire(y.kind), y.version, y.title, y.marker, x.marker);
      MatchesExactIff(x.marker);
    }
  }

  lemma RenderedTitle(e: Entry)
    ensures RenderCard(e).title == CardTitle(e.title, e.version)
  {
    var front, dash := TITLE_HEAD + e.title, " — v";
    assert front + dash + e.version == front + (dash + e.version);
  }

  lemma OnlyInsideTitle(mid: string, rank: string, title: string, version: string)
    requires AllDigits(rank) && '/' !in version
    requires HasBoundedOccurrence(CardTitle(title, version), HEAD + mid + "/" + rank)
    ensures HasBoundedOccurrence(title, HEAD + mid + "/" + rank)
  {
    var s, m := CardTitle(title, version), HEAD + mid + "/" + rank;
    var i: nat :| OccursAt(s, m, i) && Bounded(s, i + |m|);
    MarkerInsideTitle(mid, rank, title, version, i);
    OccurrenceInPart(TITLE_HEAD, title, TitleTail(version), m, i);
  }

  lemma OccurrenceInPart(a: string, b: string, c: string, m: string, i: nat)
    requires |a| <= i && i + |m| <= |a| + |b| && OccursAt(a + b + c, m, i) && Bounded(a + b + c, i + |m|)
    ensures HasBoundedOccurrence(b, m)
  {
    var s := a + b + c;
    assert forall q :: 0 <= q < |b| ==> s[|a| + q] == b[q];
    OccurrenceByPosition(s, m, i);
    OccurrenceByPosition(b, m, i - |a|);
    forall q | 0 <= q < |m| ensures b[i - |a| + q] == m[q] {
      assert s[i + q] == m[q];
    }
    assert OccursAt(b, m, i - |a|) && Bounded(b, i - |a| + |m|);
  }

  /** The marker query of the command, over a search that may rank differently for every vault and marker. */
  function Seen(search: (Cards, string) -> Search): (Cards, string) -> bool {
    (v: Cards, marker: string) =>
      Fits(v, search(v, marker)) && Staged(AnswersOf(v, search(v, marker)), marker) == Success(true)
  }

  ghost predicate AlwaysHealthy(search: (Cards, string) -> Search, entries: seq<Entry>) {
    forall v: Cards, e: Entry :: e in entries ==> Healthy(v, search(v, e.marker), e.marker)
  }

  lemma SeenIff(search: (Cards, string) -> Search, v: Cards, marker: string)
    requires Healthy(v, search(v, marker), marker) && forall c <- v :: Spelled(c, marker)
    ensures Seen(search)(v, marker) <==> BodyHolds(v, marker)
  {
    SpelledIsExact(v, search(v, marker), marker);
  }

  lemma HoldsLater(v: Cards, c: Card, marker: string)
    requires BodyHolds(v, marker)
    ensures BodyHolds(v + [c], marker)
  {
    var i :| 0 <= i < |v| && Matches(v[i].body, marker);
    assert (v + [c])[i] == v[i];
  }

  /** Over a healthy search, the answers of the staged query persist while a run adds the cards of a parse to
      cards that spell their markers. */
  lemma StagedQueryPersists(search: (Cards, string) -> Search, lower: CardTitles.Lowercase, isUpper: IsUpper,
                            o: Options, lines: seq<string>, v: Cards)
    requires o.marker == MarkerFormat(isUpper) && forall e <- Parse(o, lines) :: Searchable(e)
    requires AlwaysHealthy(search, Parse(o, lines))
    requires forall c, e :: c in v && e in Parse(o, lines) ==> Spelled(c, e.marker)
    ensures Persistent(CommandEnv(Seen(search), lower), v, Parse(o, lines))
  {
    var env, entries := CommandEnv(Seen(search), lower), Parse(o, lines);
    forall w: Cards, e: Entry, added: Entry |
        Grown(env, v, entries, w) && e in entries && added in entries && env.seen(w, e.marker)
      ensures env.seen(w + [env.render(added)], e.marker)
    {
      GrownIsSpelled(isUpper, o, lines, env, v, w, e);
      ParsedCardIsSpelled(isUpper, o, lines, e, added);
      SeenIff(search, w, e.marker);
      HoldsLater(w, env.render(added), e.marker);
      SeenIff(search, w + [env.render(added)], e.marker);
    }
  }

  lemma GrownIsSpelled(isUpper: IsUpper, o: Options, lines: seq<string>, env: Env, v: Cards, w: Cards, e: Entry)
    requires o.marker == MarkerFormat(isUpper) && forall x <- Parse(o, lines) :: Searchable(x)
    requires env.render == RenderCard && Grown(env, v, Parse(o, lines), w) && e in Parse(o, lines)
    requires forall c <- v :: Spelled(c, e.marker)
    ensures forall c <- w :: Spelled(c, e.marker)
  {
    forall i | 0 <= i < |w| ensures Spelled(w[i], e.marker) {
      if i < |v| {
        assert w[i] == v[i] && v[i] in v;
      } else {
        assert CardOf(env, Parse(o, lines), w[i]);
        var y :| y in Parse(o, lines) && w[i] == env.render(y);
        ParsedCardIsSpelled(isUpper, o, lines, e, y);
      }
    }
  }

  /** The back-fill over the real query: interrupted any number of times and then completed, it leaves what one
      run leaves. */
  lemma BackfillConverges(search: (Cards, string) -> Search, lower: CardTitles.Lowercase, isUpper: IsUpper, o: Options,
                          lines: seq<string>, v: Cards, cuts: seq<nat>)
    requires o.marker == MarkerFormat(isUpper) && forall e <- Parse(o, lines) :: Searchable(e)
    requires AlwaysHealthy(search, Parse(o, lines))
    requires forall c, e :: c in v && e in Parse(o, lines) ==> Spelled(c, e.marker)
    ensures var env, entries := CommandEnv(Seen(search), lower), Parse(o, lines);
            Final(env, AfterCuts(env, v, entries, cuts), entries) == Final(env, v, entries)
  {
    StagedQueryPersists(search, lower, isUpper, o, lines, v);
    InterruptedRunsConverge(CommandEnv(Seen(search), lower), v, Parse(o, lines), cuts);
  }

}
