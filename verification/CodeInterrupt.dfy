/** What an interrupted `code update` leaves, and exactly when the next update repairs it. */
module CodeInterrupt {
  import opened Wrappers
  import opened CodeIndex
  import opened CodeIngest
  import opened CodeUpdate
  import opened CodeHistory
  import opened GitDiff

  predicate Touched(ops: seq<Op>, p: Path) {
    exists op :: op in ops && Touches(op, p)
  }

  /** The interruption fell between the two steps of a deletion: the empty batch is in, the row is not yet gone. */
  predicate Torn(ops: seq<Op>, p: Path) {
    ops != [] && ops[|ops| - 1] == Batch(p, "", "", [])
  }

  /** The row of `p` after an interrupted replay of the diff. */
  function CutRow(tc: Toolchain, repo: Repo, vis: Visibility, ops: seq<Op>, p: Path, before: Option<Row>): Option<Row> {
    if !Touched(ops, p) then before
    else if Torn(ops, p) then Some(Row("", "", []))
    else FreshRow(tc, repo, vis, p)
  }

  lemma TouchedConcat(a: seq<Op>, b: seq<Op>, p: Path)
    ensures Touched(a + b, p) <==> Touched(a, p) || Touched(b, p)
  {
    assert forall op :: op in a + b <==> op in a || op in b;
  }

  /** The two steps of a deletion, cut after `k` of them. */
  lemma DeletionCut(tc: Toolchain, repo: Repo, vis: Visibility, s: VaultState, q: Path, k: nat, p: Path)
    requires q !in repo.tree && k <= 2
    ensures var ops := [Batch(q, "", "", []), DropRow(q)][..k];
            Lookup(ApplyAll(s, ops).rows, p) == CutRow(tc, repo, vis, ops, p, Lookup(s.rows, p))
  {
    var a, b := Batch(q, "", "", []), DropRow(q);
    if k == 1 {
      assert [a, b][..1] == [a];
      assert ApplyAll(s, [a]) == ApplyAll(Apply(s, a), [a][1..]);
      assert Touches(a, q);
    } else if k == 2 {
      assert [a, b][..2] == [a, b];
      ApplyTwo(s, a, b);
      assert Touches(a, q) && FreshRow(tc, repo, vis, q) == None;
    } else {
      assert [a, b][..0] == [];
    }
  }

  /** The one step of an addition or a modification, made or not. */
  lemma WriteCut(tc: Toolchain, repo: Repo, vis: Visibility, s: VaultState, op: Op, k: nat, p: Path)
    requires op.Batch? && op.sha != "" && k <= 1
    requires FreshRow(tc, repo, vis, op.path) == Some(Row(op.hash, op.sha, op.notes))
    ensures var ops := [op][..k];
            Lookup(ApplyAll(s, ops).rows, p) == CutRow(tc, repo, vis, ops, p, Lookup(s.rows, p)) && !Torn(ops, p)
  {
    if k == 1 {
      assert [op][..1] == [op];
      assert ApplyAll(s, [op]) == ApplyAll(Apply(s, op), [op][1..]);
      assert Touches(op, op.path);
    } else {
      assert [op][..0] == [];
    }
  }

  /** One change of the diff, cut after `k` of its steps. */
  lemma ChangeCut(tc: Toolchain, repo: Repo, vis: Visibility, c: Change, s: VaultState, k: nat, p: Path)
    requires repo.head != "" && (c.status == Deleted ==> c.path !in repo.tree)
    requires k <= |ChangeOps(tc, repo, vis, c)|
    ensures var ops := ChangeOps(tc, repo, vis, c)[..k];
            Lookup(ApplyAll(s, ops).rows, p) == CutRow(tc, repo, vis, ops, p, Lookup(s.rows, p))
    ensures !Torn(ChangeOps(tc, repo, vis, c), p)
  {
    if Rewrites(tc, repo, vis, c) {
      if c.status == Deleted {
        DeletionCut(tc, repo, vis, s, c.path, k, p);
      } else {
        var op := Batch(c.path, tc.hash(repo.tree[c.path]), repo.head,
                        Derive(tc, c.path, repo.tree[c.path], vis).value);
        assert ChangeOps(tc, repo, vis, c) == [op];
        WriteCut(tc, repo, vis, s, op, k, p);
      }
    }
  }

  lemma {:induction false} DiffCut(tc: Toolchain, repo: Repo, vis: Visibility, changes: seq<Change>, s: VaultState,
                                   k: nat, p: Path)
    requires repo.head != ""
    requires forall c :: c in changes && c.status == Deleted ==> c.path !in repo.tree
    requires k <= |DiffOps(tc, repo, vis, changes)|
    ensures var ops := DiffOps(tc, repo, vis, changes)[..k];
            Lookup(ApplyAll(s, ops).rows, p) == CutRow(tc, repo, vis, ops, p, Lookup(s.rows, p))
    decreases |changes|
  {
    if changes != [] {
      var head, tail := ChangeOps(tc, repo, vis, changes[0]), DiffOps(tc, repo, vis, changes[1..]);
      assert changes[0] in changes;
      if k <= |head| {
        assert (head + tail)[..k] == head[..k];
        ChangeCut(tc, repo, vis, changes[0], s, k, p);
      } else {
        var later := tail[..k - |head|];
        assert (head + tail)[..k] == head + later;
        ApplyAllConcat(s, head, later);
        assert forall c :: c in changes[1..] ==> c in changes;
        DiffCut(tc, repo, vis, changes[1..], ApplyAll(s, head), k - |head|, p);
        ChangeCut(tc, repo, vis, changes[0], s, |head|, p);
        assert head[..|head|] == head;
        AfterLater(tc, repo, vis, head, later, p, Lookup(s.rows, p));
      }
    }
  }

  /** Two parts of a replay, the first of which is complete. */
  lemma AfterLater(tc: Toolchain, repo: Repo, vis: Visibility, head: seq<Op>, later: seq<Op>, p: Path,
                   before: Option<Row>)
    requires later != [] && !Torn(head, p)
    ensures CutRow(tc, repo, vis, later, p, CutRow(tc, repo, vis, head, p, before))
            == CutRow(tc, repo, vis, head + later, p, before)
  {
    TouchedConcat(head, later, p);
    assert (head + later)[|head + later| - 1] == later[|later| - 1];
    if Torn(later, p) {
      assert Touches(later[|later| - 1], p);
    }
  }

  /** An interrupted update, path by path: every row it reached is the new one, but for a torn deletion. */
  lemma UpdateCut(tc: Toolchain, s: VaultState, base: Sha, repo: Repo, order: seq<Path>, baseTree: map<Path, Bytes>,
                  budget: nat, p: Path)
    requires s.marker.None? && PrintsDiff(baseTree, base, repo) && repo.head != ""
    ensures var vis, ops := EffectiveVisibility(s, None), Cut(UpdatePlan(tc, s, Some(base), None, repo, order), budget);
            Lookup(ApplyAll(s, ops).rows, p) == CutRow(tc, repo, vis, ops, p, Lookup(s.rows, p))
  {
    var vis := EffectiveVisibility(s, None);
    var plan := UpdatePlan(tc, s, Some(base), None, repo, order);
    var ops := Cut(plan, budget);
    if ops != [] {
      var changes := ReadDiff(repo, base);
      ReadsTrueDiff(baseTree, base, repo);
      assert ops == [SetVisibility(vis)] + DiffOps(tc, repo, vis, changes)[..|ops| - 1];
      PlanCut(tc, repo, vis, changes, s, |ops| - 1, p);
    }
  }

  lemma PlanCut(tc: Toolchain, repo: Repo, vis: Visibility, changes: seq<Change>, s: VaultState, k: nat, p: Path)
    requires repo.head != ""
    requires forall c :: c in changes && c.status == Deleted ==> c.path !in repo.tree
    requires k <= |DiffOps(tc, repo, vis, changes)|
    ensures var ops := [SetVisibility(vis)] + DiffOps(tc, repo, vis, changes)[..k];
            Lookup(ApplyAll(s, ops).rows, p) == CutRow(tc, repo, vis, ops, p, Lookup(s.rows, p))
  {
    var first, diff := [SetVisibility(vis)], DiffOps(tc, repo, vis, changes)[..k];
    ApplyAllConcat(s, first, diff);
    assert ApplyAll(s, first) == ApplyAll(Apply(s, first[0]), first[1..]);
    DiffCut(tc, repo, vis, changes, ApplyAll(s, first), k, p);
    if k > 0 {
      AfterLater(tc, repo, vis, first, diff, p, Lookup(s.rows, p));
    } else {
      assert first + diff == first;
    }
  }

  /** From an index exact at `prev`: after an update cut anywhere, the next update, from any base and at any
      commit, is exact if and only if every path it does not rewrite is not a torn deletion and has, in the
      tree its row was taken from, the notes it has now. */
  lemma NextUpdateExactIff(tc: Toolchain, s: VaultState, prev: map<Path, Bytes>,
                           base: Sha, repo: Repo, order: seq<Path>, baseTree: map<Path, Bytes>, budget: nat,
                           base': Sha, repo': Repo, order': seq<Path>, baseTree': map<Path, Bytes>)
    requires s.marker.None? && (forall bytes :: tc.hash(bytes) != "") && repo.head != ""
    requires PrintsDiff(baseTree, base, repo) && PrintsDiff(baseTree', base', repo')
    requires ExactTree(tc, prev, EffectiveVisibility(s, None), s.rows)
    ensures var vis, ops := EffectiveVisibility(s, None), Cut(UpdatePlan(tc, s, Some(base), None, repo, order), budget);
            var cut := ApplyAll(s, ops);
            ExactTree(tc, repo'.tree, vis, ApplyAll(cut, UpdatePlan(tc, cut, Some(base'), None, repo', order')).rows)
            <==> forall p :: !Rewritten(tc, repo', vis, ReadDiff(repo', base'), p) ==>
                             StillRight(tc, vis, ops, prev, repo.tree, repo'.tree, p)
  {
    var vis, ops := EffectiveVisibility(s, None), Cut(UpdatePlan(tc, s, Some(base), None, repo, order), budget);
    var cut := ApplyAll(s, ops);
    CutUpdateKeepsVisibility(tc, s, base, repo, order, budget);
    UpdateExactIff(tc, cut, base', None, repo', order', baseTree');
    forall p
      ensures ContentOf(Lookup(cut.rows, p)) == Reference(tc, repo'.tree, p, vis)
              <==> StillRight(tc, vis, ops, prev, repo.tree, repo'.tree, p)
    {
      RowStillRight(tc, s, prev, base, repo, order, baseTree, budget, repo'.tree, p);
    }
  }

  predicate StillRight(tc: Toolchain, vis: Visibility, ops: seq<Op>, prev: map<Path, Bytes>, tree: map<Path, Bytes>,
                       now: map<Path, Bytes>, p: Path)
  {
    !Torn(ops, p) && Reference(tc, if Touched(ops, p) then tree else prev, p, vis) == Reference(tc, now, p, vis)
  }

  lemma RowStillRight(tc: Toolchain, s: VaultState, prev: map<Path, Bytes>, base: Sha, repo: Repo, order: seq<Path>,
                      baseTree: map<Path, Bytes>, budget: nat, now: map<Path, Bytes>, p: Path)
    requires s.marker.None? && (forall bytes :: tc.hash(bytes) != "") && repo.head != ""
    requires PrintsDiff(baseTree, base, repo)
    requires ExactTree(tc, prev, EffectiveVisibility(s, None), s.rows)
    ensures var vis, ops := EffectiveVisibility(s, None), Cut(UpdatePlan(tc, s, Some(base), None, repo, order), budget);
            ContentOf(Lookup(ApplyAll(s, ops).rows, p)) == Reference(tc, now, p, vis)
            <==> StillRight(tc, vis, ops, prev, repo.tree, now, p)
  {
    var vis, ops := EffectiveVisibility(s, None), Cut(UpdatePlan(tc, s, Some(base), None, repo, order), budget);
    UpdateCut(tc, s, base, repo, order, baseTree, budget, p);
    assert ContentOf(Lookup(s.rows, p)) == Reference(tc, prev, p, vis);
    if Torn(ops, p) {
      assert Touches(ops[|ops| - 1], p);
    }
  }
}
