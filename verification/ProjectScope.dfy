/** `project-map scope`: the per-status counters over the typed links of the cards. */
module ProjectScope {
  import opened Wrappers
  import opened ChangelogParse
  import opened ProjectCard

  datatype StatusKind = Brainstorming | Open | InProgress | Blocked | Done | Obsolete

  function FromWire(value: string): Option<StatusKind> {
    if value == "BRAINSTORMING" then Some(Brainstorming)
    else if value == "OPEN" then Some(Open)
    else if value == "IN_PROGRESS" then Some(InProgress)
    else if value == "BLOCKED" then Some(Blocked)
    else if value == "DONE" then Some(Done)
    else if value == "OBSOLETE" then Some(Obsolete)
    else None
  }

  function AsWire(k: StatusKind): string {
    match k
    case Brainstorming => "BRAINSTORMING"
    case Open => "OPEN"
    case InProgress => "IN_PROGRESS"
    case Blocked => "BLOCKED"
    case Done => "DONE"
    case Obsolete => "OBSOLETE"
  }

  /** The two directions of the status vocabulary are inverse to each other. */
  lemma WireRoundTrip(value: string, k: StatusKind)
    ensures FromWire(value) == Some(k) <==> value == AsWire(k)
  {
    assert "BRAINSTORMING"[1] == 'R' && "OPEN"[1] == 'P' && "IN_PROGRESS"[0] == 'I' && "BLOCKED"[1] == 'L'
        && "DONE"[0] == 'D' && "OBSOLETE"[1] == 'B';
    match k
    case Brainstorming =>
    case Open =>
    case InProgress =>
    case Blocked =>
    case Done =>
    case Obsolete =>
  }

  /** What one card contributes: its last status link and its last version link with a `/`. */
  datatype CardFacts = CardFacts(status: Option<string>, version: Option<string>)

  /** What one link sets. */
  function Sets(f: CardFacts, l: Link): CardFacts {
    if l.key == "status" then f.(status := Some(l.value))
    else if l.key == "version" then
      var split := SplitOnce(l.value, '/');
      if split.Some? then f.(version := Some(split.value.value)) else f
    else f
  }

  function Facts(links: seq<Link>): CardFacts {
    if links == [] then CardFacts(None, None)
    else Sets(Facts(links[..|links| - 1]), links[|links| - 1])
  }

  /** The status is that of the last status link. */
  lemma {:induction false} StatusIsLast(links: seq<Link>, i: nat)
    requires i < |links| && links[i].key == "status" && forall j :: i < j < |links| ==> links[j].key != "status"
    ensures Facts(links).status == Some(links[i].value)
  {
    var init := links[..|links| - 1];
    if i < |links| - 1 {
      StatusIsLast(init, i);
    }
  }

  /** A card has no status if and only if it has no status link. */
  lemma {:induction false} StatusNoneIff(links: seq<Link>)
    ensures Facts(links).status.None? <==> forall j :: 0 <= j < |links| ==> links[j].key != "status"
  {
    if links != [] {
      var init := links[..|links| - 1];
      StatusNoneIff(init);
      assert forall j :: 0 <= j < |init| ==> init[j] == links[j];
    }
  }

  /** The version is what follows the first `/` of the last version link that has one. */
  lemma {:induction false} VersionIsLast(links: seq<Link>, i: nat, project: string, version: string)
    requires i < |links| && links[i].key == "version" && links[i].value == project + "/" + version
    requires '/' !in project && forall j :: i < j < |links| && links[j].key == "version" ==> '/' !in links[j].value
    ensures Facts(links).version == Some(version)
  {
    var init := links[..|links| - 1];
    if i < |links| - 1 {
      VersionIsLast(init, i, project, version);
    } else {
      SplitAt(project, '/', version);
    }
  }

  method ReadFacts(links: seq<Link>) returns (f: CardFacts)
    ensures f == Facts(links)
  {
    var status, version := None, None;
    for i := 0 to |links|
      invariant CardFacts(status, version) == Facts(links[..i])
    {
      assert links[..i + 1][..i] == links[..i];
      var l := links[i];
      if l.key == "status" {
        status := Some(l.value);
      } else if l.key == "version" {
        var split := SplitOnce(l.value, '/');
        if split.Some? {
          version := Some(split.value.value);
        }
      }
    }
    assert links[..|links|] == links;
    f := CardFacts(status, version);
  }

  /** The counter a card falls into; `None` is `unaccounted`. */
  function Bucket(f: CardFacts): Option<StatusKind> {
    if f.status.None? then None else FromWire(f.status.value)
  }

  datatype Counters = Counters(open: nat, inProgress: nat, blocked: nat, done: nat, obsolete: nat,
                               brainstorming: nat, unaccounted: nat)

  function StatusSum(c: Counters): nat {
    c.open + c.inProgress + c.blocked + c.done + c.obsolete + c.brainstorming + c.unaccounted
  }

  /** How many cards fall into bucket `b`. */
  function Tally(buckets: seq<Option<StatusKind>>, b: Option<StatusKind>): nat {
    if buckets == [] then 0
    else Tally(buckets[..|buckets| - 1], b) + if buckets[|buckets| - 1] == b then 1 else 0
  }

  ghost predicate Counts(c: Counters, buckets: seq<Option<StatusKind>>) {
    && c.open == Tally(buckets, Some(Open)) && c.inProgress == Tally(buckets, Some(InProgress))
    && c.blocked == Tally(buckets, Some(Blocked)) && c.done == Tally(buckets, Some(Done))
    && c.obsolete == Tally(buckets, Some(Obsolete)) && c.brainstorming == Tally(buckets, Some(Brainstorming))
    && c.unaccounted == Tally(buckets, None)
  }

  lemma {:induction false} TalliesCover(buckets: seq<Option<StatusKind>>)
    ensures Tally(buckets, Some(Open)) + Tally(buckets, Some(InProgress)) + Tally(buckets, Some(Blocked))
            + Tally(buckets, Some(Done)) + Tally(buckets, Some(Obsolete)) + Tally(buckets, Some(Brainstorming))
            + Tally(buckets, None) == |buckets|
  {
    if buckets != [] {
      TalliesCover(buckets[..|buckets| - 1]);
      match buckets[|buckets| - 1] {
        case None =>
        case Some(k) =>
          match k {
            case Open => case InProgress => case Blocked => case Done => case Obsolete => case Brainstorming =>
          }
      }
    }
  }

  /** Every card is counted once: the reconciliation gap is zero, whatever the bodies hold. */
  lemma GapIsZero(c: Counters, buckets: seq<Option<StatusKind>>)
    requires Counts(c, buckets)
    ensures StatusSum(c) == |buckets|
  {
    TalliesCover(buckets);
  }

  method CountOne(c: Counters, b: Option<StatusKind>, ghost buckets: seq<Option<StatusKind>>) returns (c': Counters)
    requires Counts(c, buckets)
    ensures Counts(c', buckets + [b])
  {
    assert (buckets + [b])[..|buckets|] == buckets;
    match b {
      case Some(Open) => c' := c.(open := c.open + 1);
      case Some(InProgress) => c' := c.(inProgress := c.inProgress + 1);
      case Some(Blocked) => c' := c.(blocked := c.blocked + 1);
      case Some(Done) => c' := c.(done := c.done + 1);
      case Some(Obsolete) => c' := c.(obsolete := c.obsolete + 1);
      case Some(Brainstorming) => c' := c.(brainstorming := c.brainstorming + 1);
      case None => c' := c.(unaccounted := c.unaccounted + 1);
    }
  }

  // ---------------------------------------------------------------- counters by status text

  /** The last status link of the body says `text`. */
  ghost predicate Says(body: string, text: string) {
    exists i :: 0 <= i < |Links(body)| && LastStatusAt(Links(body), i) && Links(body)[i].value == text
  }

  ghost predicate LastStatusAt(links: seq<Link>, i: int)
    requires 0 <= i < |links|
  {
    links[i].key == "status" && forall j :: i < j < |links| ==> links[j].key != "status"
  }

  ghost function Saying(bodies: seq<string>, text: string): nat {
    if bodies == [] then 0
    else Saying(bodies[..|bodies| - 1], text) + if Says(bodies[|bodies| - 1], text) then 1 else 0
  }

  lemma {:induction false} LastStatusExists(links: seq<Link>) returns (i: nat)
    requires exists j :: 0 <= j < |links| && links[j].key == "status"
    ensures i < |links| && LastStatusAt(links, i)
  {
    i := |links| - 1;
    if links[i].key != "status" {
      i := LastStatusExists(links[..i]);
    }
  }

  lemma SaysIff(body: string, text: string)
    ensures Facts(Links(body)).status == Some(text) <==> Says(body, text)
  {
    var links := Links(body);
    StatusNoneIff(links);
    forall i | 0 <= i < |links| && LastStatusAt(links, i) ensures Facts(links).status == Some(links[i].value) {
      StatusIsLast(links, i);
    }
    if Facts(links).status.Some? {
      var i := LastStatusExists(links);
    }
  }

  lemma {:induction false} TallyIsSaying(bodies: seq<string>, k: StatusKind, text: string)
    requires forall value :: FromWire(value) == Some(k) <==> value == text
    ensures Tally(Buckets(FactsOf(bodies)), Some(k)) == Saying(bodies, text)
    decreases |bodies|
  {
    if bodies != [] {
      var n := |bodies| - 1;
      TallyIsSaying(bodies[..n], k, text);
      assert Buckets(FactsOf(bodies))[..n] == Buckets(FactsOf(bodies[..n]));
      assert Buckets(FactsOf(bodies))[n] == Bucket(Facts(Links(bodies[n])));
      SaysIff(bodies[n], text);
    }
  }

  /** Each counter is the number of cards whose last status link has its text. */
  lemma CountersByText(c: Counters, bodies: seq<string>)
    requires Counts(c, Buckets(FactsOf(bodies)))
    ensures c.open == Saying(bodies, "OPEN") && c.inProgress == Saying(bodies, "IN_PROGRESS")
    ensures c.blocked == Saying(bodies, "BLOCKED") && c.done == Saying(bodies, "DONE")
    ensures c.obsolete == Saying(bodies, "OBSOLETE") && c.brainstorming == Saying(bodies, "BRAINSTORMING")
  {
    WireTexts();
    TallyIsSaying(bodies, Open, "OPEN");
    TallyIsSaying(bodies, InProgress, "IN_PROGRESS");
    TallyIsSaying(bodies, Blocked, "BLOCKED");
    TallyIsSaying(bodies, Done, "DONE");
    TallyIsSaying(bodies, Obsolete, "OBSOLETE");
    TallyIsSaying(bodies, Brainstorming, "BRAINSTORMING");
  }

  lemma WireTexts()
    ensures forall value :: FromWire(value) == Some(Open) <==> value == "OPEN"
    ensures forall value :: FromWire(value) == Some(InProgress) <==> value == "IN_PROGRESS"
    ensures forall value :: FromWire(value) == Some(Blocked) <==> value == "BLOCKED"
    ensures forall value :: FromWire(value) == Some(Done) <==> value == "DONE"
    ensures forall value :: FromWire(value) == Some(Obsolete) <==> value == "OBSOLETE"
    ensures forall value :: FromWire(value) == Some(Brainstorming) <==> value == "BRAINSTORMING"
  {
    forall value: string, k: StatusKind ensures FromWire(value) == Some(k) <==> value == AsWire(k) {
      WireRoundTrip(value, k);
    }
  }

  predicate DoneAt(f: CardFacts, v: string) {
    f.status == Some("DONE") && f.version == Some(v)
  }

  lemma {:induction false} DoneVersionsMembers(facts: seq<CardFacts>, v: string)
    ensures v in DoneVersions(facts) <==> exists f :: f in facts && DoneAt(f, v)
  {
    if facts != [] {
      var init, last := facts[..|facts| - 1], facts[|facts| - 1];
      DoneVersionsMembers(init, v);
      assert facts == init + [last];
      assert last in facts;
    }
  }

  /** The versions that compete for the current one are those of the cards that say `DONE`. */
  lemma DoneVersionsIff(bodies: seq<string>, v: string)
    ensures v in DoneVersions(FactsOf(bodies))
            <==> exists body :: body in bodies && Says(body, "DONE") && Facts(Links(body)).version == Some(v)
  {
    var facts := FactsOf(bodies);
    DoneVersionsMembers(facts, v);
    forall body ensures Facts(Links(body)).status == Some("DONE") <==> Says(body, "DONE") {
      SaysIff(body, "DONE");
    }
    if f :| f in facts && DoneAt(f, v) {
      var i :| 0 <= i < |facts| && facts[i] == f;
      assert bodies[i] in bodies;
    }
    if body :| body in bodies && Says(body, "DONE") && Facts(Links(body)).version == Some(v) {
      var i :| 0 <= i < |bodies| && bodies[i] == body;
      assert facts[i] in facts && DoneAt(facts[i], v);
    }
  }

  // ---------------------------------------------------------------- the whole command

  ghost function FactsOf(bodies: seq<string>): seq<CardFacts> {
    seq(|bodies|, i requires 0 <= i < |bodies| => Facts(Links(bodies[i])))
  }

  ghost function Buckets(facts: seq<CardFacts>): seq<Option<StatusKind>> {
    seq(|facts|, i requires 0 <= i < |facts| => Bucket(facts[i]))
  }

  /** The versions of the cards whose status link says `DONE`, in card order. */
  function DoneVersions(facts: seq<CardFacts>): seq<string> {
    if facts == [] then []
    else
      var f := facts[|facts| - 1];
      DoneVersions(facts[..|facts| - 1]) + if f.status == Some("DONE") && f.version.Some? then [f.version.value] else []
  }

  ghost function AllVersions(facts: seq<CardFacts>): set<string> {
    set i | 0 <= i < |facts| && facts[i].version.Some? :: facts[i].version.value
  }

  /** `max_by_key`: an element of greatest key, the last of equals; none when there is none. */
  ghost predicate IsLastGreatest(key: string -> Triple, done: seq<string>, r: Option<string>) {
    match r
    case None => done == []
    case Some(m) => exists i :: 0 <= i < |done| && done[i] == m && IsLastGreatestAt(key, done, i)
  }

  ghost predicate IsLastGreatestAt(key: string -> Triple, done: seq<string>, i: int)
    requires 0 <= i < |done|
  {
    && (forall j :: 0 <= j < |done| ==> AtMost(key(done[j]), key(done[i])))
    && (forall j :: i < j < |done| ==> key(done[j]) != key(done[i]))
  }

  method MaxByKey(key: string -> Triple, done: seq<string>) returns (r: Option<string>)
    ensures IsLastGreatest(key, done, r)
  {
    if done == [] {
      return None;
    }
    var best := 0;
    for n := 1 to |done|
      invariant 0 <= best < n
      invariant forall j :: 0 <= j < n ==> AtMost(key(done[j]), key(done[best]))
      invariant forall j :: best < j < n ==> key(done[j]) != key(done[best])
    {
      if AtMost(key(done[best]), key(done[n])) {
        best := n;
      }
    }
    assert IsLastGreatestAt(key, done, best);
    r := Some(done[best]);
  }

  datatype Scope = Scope(counters: Counters, total: nat, current: Option<string>, versions: set<string>)

  method ReadCard(body: string) returns (f: CardFacts)
    ensures f == Facts(Links(body))
  {
    var links := ExtractTypedLinks(body);
    f := ReadFacts(links);
  }

  ghost predicate Accounts(c: Counters, done: seq<string>, all: set<string>, facts: seq<CardFacts>) {
    Counts(c, Buckets(facts)) && done == DoneVersions(facts) && all == AllVersions(facts)
  }

  /** The scope of the selected cards: exact counters, a zero gap, the versions and the current one. */
  method ComputeScope(bodies: seq<string>) returns (scope: Scope)
    ensures scope.total == |bodies| == StatusSum(scope.counters)
    ensures Counts(scope.counters, Buckets(FactsOf(bodies)))
    ensures scope.counters.open == Saying(bodies, "OPEN") && scope.counters.inProgress == Saying(bodies, "IN_PROGRESS")
    ensures scope.counters.blocked == Saying(bodies, "BLOCKED") && scope.counters.done == Saying(bodies, "DONE")
    ensures scope.counters.obsolete == Saying(bodies, "OBSOLETE")
            && scope.counters.brainstorming == Saying(bodies, "BRAINSTORMING")
    ensures scope.versions == AllVersions(FactsOf(bodies))
    ensures IsLastGreatest(SemverTriple, DoneVersions(FactsOf(bodies)), scope.current)
  {
    var c, done, all := Counters(0, 0, 0, 0, 0, 0, 0), [], {};
    ghost var facts := FactsOf(bodies);
    for n := 0 to |bodies|
      invariant Accounts(c, done, all, facts[..n])
    {
      var f := ReadCard(bodies[n]);
      assert f == facts[n];
      assert facts[..n + 1] == facts[..n] + [f];
      c, done, all := Account(c, done, all, f, facts[..n]);
    }
    assert facts[..|bodies|] == facts;
    GapIsZero(c, Buckets(facts));
    CountersByText(c, bodies);
    var current := MaxByKey(SemverTriple, done);
    scope := Scope(c, |bodies|, current, all);
  }

  /** One turn of the loop over the cards. */
  method Account(c: Counters, done: seq<string>, all: set<string>, f: CardFacts, ghost facts: seq<CardFacts>)
    returns (c': Counters, done': seq<string>, all': set<string>)
    requires Accounts(c, done, all, facts)
    ensures Accounts(c', done', all', facts + [f])
  {
    ghost var more := facts + [f];
    assert more[..|more| - 1] == facts;
    assert Buckets(more) == Buckets(facts) + [Bucket(f)];
    c' := CountOne(c, Bucket(f), Buckets(facts));
    done', all' := done, all;
    if f.version.Some? {
      all' := all + {f.version.value};
      VersionsGrow(facts, f);
      if f.status == Some("DONE") {
        done' := done + [f.version.value];
      }
    } else {
      VersionsGrow(facts, f);
    }
  }

  lemma VersionsGrow(facts: seq<CardFacts>, f: CardFacts)
    ensures AllVersions(facts + [f]) == AllVersions(facts) + if f.version.Some? then {f.version.value} else {}
  {
    var more := facts + [f];
    forall v | v in AllVersions(facts) ensures v in AllVersions(more) {
      var i :| 0 <= i < |facts| && facts[i].version == Some(v);
      assert more[i].version == Some(v);
    }
    if f.version.Some? {
      assert more[|facts|].version == f.version;
    }
  }
}
