/** Laws of `reindex-orphans` over whole and repeated runs, and where the preview misleads. */
module OrphanRuns {
  import opened Wrappers
  import opened ReindexOrphans
  import opened OrphanVault

  // ---------------------------------------------------------------- preview and real run

  /** None of the first `n` orphans is unreadable. */
  ghost predicate NoneUnreadable(st: State, orphans: seq<Orphan>, n: nat)
    requires Present(st, orphans) && n <= |orphans|
  {
    forall i :: 0 <= i < n ==> !st.files[orphans[i].path].Unreadable?
  }

  /** When its turn comes an orphan is judged as it was at the start. */
  lemma JudgedAsAtStart(env: Env, st: State, orphans: seq<Orphan>, n: nat)
    requires Sound(env) && Scan(env, st, orphans) && n < |orphans|
    ensures var done := Run(env, st, orphans[..n]);
            orphans[n].path in done.files && Judge(env, done, orphans[n]) == Judge(env, st, orphans[n])
  {
    assert Scan(env, st, orphans[..n]);
    RunSpares(env, st, orphans[..n], orphans[n]);
  }

  lemma RealStep(env: Env, st: State, orphans: seq<Orphan>, n: nat)
    requires Sound(env) && Scan(env, st, orphans) && n < |orphans|
    ensures RealCounts(env, st, orphans, n + 1) ==
            RealNext(RealCounts(env, st, orphans, n), Judge(env, st, orphans[n]), orphans[n].id)
  {
    JudgedAsAtStart(env, st, orphans, n);
  }

  function RealNext(before: Option<Counts>, v: Verdict, id: Id): Option<Counts> {
    if before.None? || v == Abort then None else Some(Count(before.value, v, id))
  }

  /** The real run counts as the preview does, up to the first unreadable file. */
  lemma {:induction false} RealIsPreview(env: Env, st: State, orphans: seq<Orphan>, n: nat)
    requires Sound(env) && Scan(env, st, orphans) && n <= |orphans|
    ensures RealCounts(env, st, orphans, n)
            == if NoneUnreadable(st, orphans, n) then Some(PreviewCounts(env, st, orphans, n)) else None
  {
    if n > 0 {
      RealIsPreview(env, st, orphans, n - 1);
      RealStep(env, st, orphans, n - 1);
      var v := Judge(env, st, orphans[n - 1]);
      assert PreviewCounts(env, st, orphans, n) == Count(PreviewCounts(env, st, orphans, n - 1), v, orphans[n - 1].id);
      assert v == Abort <==> st.files[orphans[n - 1].path].Unreadable?;
    }
  }

  /** The preview reports what the real run finds if and only if no selected orphan is unreadable. */
  lemma PreviewAgreesIff(env: Env, st: State, orphans: seq<Orphan>)
    requires Sound(env) && Scan(env, st, orphans)
    ensures RealCounts(env, st, orphans, |orphans|) == Some(PreviewCounts(env, st, orphans, |orphans|))
            <==> NoneUnreadable(st, orphans, |orphans|)
    ensures Stop(env, st, orphans) == |orphans| <==> NoneUnreadable(st, orphans, |orphans|)
  {
    RealIsPreview(env, st, orphans, |orphans|);
    StopsAtFirstUnreadable(env, st, orphans);
  }

  // ---------------------------------------------------------------- the counter read back

  /** How many of the first `n` orphans are written into the tenant's own index. */
  ghost function Settled(env: Env, st: State, orphans: seq<Orphan>, n: nat): nat
    requires n <= |orphans|
  {
    if n == 0 then 0 else Settled(env, st, orphans, n - 1) + if Converges(env, st, orphans[n - 1]) then 1 else 0
  }

  /** A written orphan is in the tenant's index if and only if it converges. */
  predicate KnownAsSettled(env: Env, st: State, end: State, o: Orphan) {
    o.path in st.files && Judge(env, st, o).Write? ==> (Key(env.tenant, o.id) in end.rows <==> Converges(env, st, o))
  }

  lemma KnownMore(env: Env, end: State, ids: seq<Id>, id: Id)
    ensures Known(env, end, ids + [id]) == Known(env, end, ids) + if Key(env.tenant, id) in end.rows then 1 else 0
  {
    assert (ids + [id])[..|ids|] == ids;
  }

  lemma {:induction false} KnownIsSettled(env: Env, st: State, end: State, orphans: seq<Orphan>, n: nat)
    requires Present(st, orphans) && n <= |orphans|
    requires forall i :: 0 <= i < n ==> KnownAsSettled(env, st, end, orphans[i])
    ensures Known(env, end, PreviewCounts(env, st, orphans, n).written) == Settled(env, st, orphans, n)
  {
    if n > 0 {
      KnownIsSettled(env, st, end, orphans, n - 1);
      var ids, o := PreviewCounts(env, st, orphans, n - 1).written, orphans[n - 1];
      assert KnownAsSettled(env, st, end, o);
      if Judge(env, st, o).Write? {
        assert PreviewCounts(env, st, orphans, n).written == ids + [o.id];
        KnownMore(env, end, ids, o.id);
      }
    }
  }

  /** The counter read back from the index after a complete run misses exactly the foreign notes it wrote. */
  lemma ReadBackMissesTheForeign(env: Env, st: State, orphans: seq<Orphan>)
    requires Sound(env) && Scan(env, st, orphans) && NoneUnreadable(st, orphans, |orphans|)
    ensures var c := RealCounts(env, st, orphans, |orphans|);
            c.Some? && Known(env, Live(env, st, orphans), c.value.written) == Settled(env, st, orphans, |orphans|)
  {
    PreviewAgreesIff(env, st, orphans);
    var end := Live(env, st, orphans);
    forall i | 0 <= i < |orphans| ensures KnownAsSettled(env, st, end, orphans[i]) {
      RemainsIff(env, st, orphans, i);
      if Judge(env, st, orphans[i]).Write? {
        DestStem(env, st, orphans[i], Judge(env, st, orphans[i]).dest);
      }
    }
    KnownIsSettled(env, st, end, orphans, |orphans|);
  }

  // ---------------------------------------------------------------- a second run

  /** Identifiers are numbers: no two have the same rank. */
  ghost predicate Injective(rank: Rank) {
    forall a: Id, b: Id :: rank(a) == rank(b) ==> a == b
  }

  /** A note left to write stood behind the unreadable file that ended the run. */
  lemma LeftToWriteIsUnreached(env: Env, st: State, orphans: seq<Orphan>, o: Orphan) returns (i: nat)
    requires Sound(env) && UniqueIds(env, st) && ScansAll(env, st, orphans)
    requires NoneForeign(env, st, Reach(env, st, orphans)) && IsOrphan(env, Live(env, st, orphans), o)
    requires Judge(env, Live(env, st, orphans), o).Write?
    ensures Stop(env, st, orphans) < i < |orphans| && orphans[i] == o
    ensures var u := orphans[Stop(env, st, orphans)];
            IsOrphan(env, Live(env, st, orphans), u) && Judge(env, Live(env, st, orphans), u) == Abort
  {
    var n := Stop(env, st, orphans);
    i := LeftOver(env, st, orphans, o);
    StopsAtFirstUnreadable(env, st, orphans);
    assert Judge(env, Live(env, st, orphans), o) == Judge(env, st, o);
    assert i >= n;
    RemainsIff(env, st, orphans, n);
  }

  /** Two scans in identifier order agree on what comes first. */
  lemma StandsBefore(rank: Rank, orphans: seq<Orphan>, again: seq<Orphan>, n: nat, i: nat, j: nat) returns (m: nat)
    requires Injective(rank) && Ordered(rank, orphans) && Ordered(rank, again)
    requires n < i < |orphans| && j < |again| && orphans[i] == again[j] && orphans[n].id != orphans[i].id
    requires exists k :: 0 <= k < |again| && again[k] == orphans[n]
    ensures m < j && again[m] == orphans[n]
  {
    m :| 0 <= m < |again| && again[m] == orphans[n];
    assert rank(orphans[n].id) < rank(again[j].id);
  }

  /** It stands behind that file in every later scan. */
  lemma LeftBehind(env: Env, rank: Rank, st: State, orphans: seq<Orphan>, again: seq<Orphan>, j: nat) returns (m: nat)
    requires Sound(env) && Injective(rank) && UniqueIds(env, st) && ScansAll(env, st, orphans) && Ordered(rank, orphans)
    requires NoneForeign(env, st, Reach(env, st, orphans))
    requires ScansAll(env, Live(env, st, orphans), again) && Ordered(rank, again) && j < |again|
    requires Judge(env, Live(env, st, orphans), again[j]).Write?
    ensures m < j && again[m].path in Live(env, st, orphans).files &&
              Judge(env, Live(env, st, orphans), again[m]) == Abort
  {
    var i := LeftToWriteIsUnreached(env, st, orphans, again[j]);
    m := StandsBefore(rank, orphans, again, Stop(env, st, orphans), i, j);
  }

  /** Without foreign notes, a second run after an unlimited one changes nothing, whatever its limit: what is
      left was skipped, or stands behind an unreadable file that ends the second run too. */
  lemma SecondRunChangesNothing(env: Env, rank: Rank, st: State, orphans: seq<Orphan>, again: seq<Orphan>,
                                limit: Option<nat>)
    requires Sound(env) && Injective(rank) && UniqueIds(env, st) && ScansAll(env, st, orphans) && Ordered(rank, orphans)
    requires NoneForeign(env, st, Reach(env, st, orphans))
    requires ScansAll(env, Live(env, st, orphans), again) && Ordered(rank, again)
    ensures Live(env, Live(env, st, orphans), Bounded(again, limit)) == Live(env, st, orphans)
  {
    var end, picked := Live(env, st, orphans), Bounded(again, limit);
    forall j | 0 <= j < |picked| && picked[j].path in end.files && Judge(env, end, picked[j]).Write?
      ensures exists m :: 0 <= m < j && picked[m].path in end.files && Judge(env, end, picked[m]) == Abort
    {
      assert picked[j] == again[j];
      var m := LeftBehind(env, rank, st, orphans, again, j);
      assert picked[m] == again[m];
    }
    BlockedChangesNothing(env, end, picked);
  }

  /** The orphans such a run leaves are exactly those it skipped and those it did not reach. */
  lemma LeftAreSkippedOrUnreached(env: Env, st: State, orphans: seq<Orphan>, o: Orphan)
    requires Sound(env) && UniqueIds(env, st) && ScansAll(env, st, orphans)
    requires NoneForeign(env, st, Reach(env, st, orphans))
    ensures IsOrphan(env, Live(env, st, orphans), o) <==>
            exists i :: 0 <= i < |orphans| && orphans[i] == o &&
              (i >= Stop(env, st, orphans) || !Judge(env, st, o).Write?)
  {
    if IsOrphan(env, Live(env, st, orphans), o) {
      var i := LeftOver(env, st, orphans, o);
    }
    if exists i :: 0 <= i < |orphans| && orphans[i] == o && (i >= Stop(env, st, orphans) || !Judge(env, st, o).Write?) {
      var i :| 0 <= i < |orphans| && orphans[i] == o && (i >= Stop(env, st, orphans) || !Judge(env, st, o).Write?);
      RemainsIff(env, st, orphans, i);
    }
  }

  // ---------------------------------------------------------------- two vaults where it goes wrong

  function ToyParse(stem: string): Option<Id> {
    if stem == "A" then Some("A") else if stem == "B" then Some("B") else None
  }

  /** The tenant `main`, two identifiers, and a funnel that writes notes as they are. */
  function ToyEnv(): Env {
    Env("main", "main", CanonicalPath, Stem, p => true, ToyParse, f => f)
  }

  lemma ToyPaths()
    ensures Sound(ToyEnv())
    ensures CanonicalPath("main", None, "A") == "main/A.md" && Stem("main/A.md") == "A"
    ensures CanonicalPath("main", None, "B") == "main/B.md" && Stem("main/B.md") == "B"
    ensures CanonicalPath("other", None, "A") == "other/A.md"
  {
    SourcePathsAreSound(ToyEnv());
    StemOfCanonical("main", None, "A");
    StemOfCanonical("main", None, "B");
  }

  function ToyState(): State {
    State(map["main/A.md" := Unreadable, "main/B.md" := Note("main", None, "")], map[])
  }

  function ToyOrphans(): seq<Orphan> {
    [Orphan("A", "main/A.md"), Orphan("B", "main/B.md")]
  }

  lemma ToyVerdicts()
    ensures Sound(ToyEnv()) && Scan(ToyEnv(), ToyState(), ToyOrphans())
    ensures Judge(ToyEnv(), ToyState(), ToyOrphans()[0]) == Abort
    ensures Judge(ToyEnv(), ToyState(), ToyOrphans()[1]) == Write("main/B.md")
  {
    ToyPaths();
  }

  /** An unreadable `main/A.md` before a good `main/B.md`: the preview promises one note, the real run fails at the
      first file and leaves the second an orphan. */
  lemma UnreadableFileHidesTheRest()
    ensures var env, st, orphans := ToyEnv(), ToyState(), ToyOrphans();
            && Sound(env) && Scan(env, st, orphans)
            && PreviewCounts(env, st, orphans, 2) == Counts(1, 0, ["B"]) && RealCounts(env, st, orphans, 2) == None
            && Live(env, st, orphans) == st && IsOrphan(env, Live(env, st, orphans), orphans[1])
  {
    var env, st, orphans := ToyEnv(), ToyState(), ToyOrphans();
    ToyVerdicts();
    assert PreviewCounts(env, st, orphans, 1) == Count(Counts(0, 0, []), Abort, "A");
    assert PreviewCounts(env, st, orphans, 2) == Count(Counts(1, 0, []), Write("main/B.md"), "B");
    RealIsPreview(env, st, orphans, 2);
    assert st.files[orphans[0].path].Unreadable?;
    assert Stop(env, st, orphans) == 0;
  }

  /** A file `main/A.md` whose frontmatter names the vault `other`: the run for `main` writes a copy under
      `other`, and the note stays an orphan. */
  lemma ForeignNoteIsCopied() returns (env: Env, st: State, o: Orphan)
    ensures Sound(env) && UniqueIds(env, st) && Scan(env, st, [o]) && Foreign(env, st, o)
    ensures "other/A.md" !in st.files && "other/A.md" in Live(env, st, [o]).files
    ensures IsOrphan(env, Live(env, st, [o]), o)
  {
    ToyPaths();
    env := ToyEnv();
    st := State(map["main/A.md" := Note("other", None, "")], map[]);
    o := Orphan("A", "main/A.md");
    assert Judge(env, st, o) == Write("other/A.md");
    var next := After(env, st, o);
    assert Stop(env, next, [o][1..]) == 0 && Stop(env, st, [o]) == 1;
    assert Reach(env, st, [o]) == [o] && Live(env, st, [o]) == Run(env, next, [o][1..]) == next;
    ForeignOrphanNeverConverges(env, st, [o], 0);
  }
}
