/** `merge_user_config`: the old server.toml laid over the new template, after renaming old keys.
    Documents are trees of keys; comments and key order are not modelled. */
module ConfigMerge {
  import opened Wrappers

  datatype Value = Str(text: string) | Inline(fields: map<string, Value>) | Other(text: string)

  /** A leaf is anything that is not a TOML table: a scalar, an array, an inline table (`Inline`). */
  datatype Item = Leaf(value: Value) | Table(entries: map<string, Item>)

  type KeyPath = seq<string>

  const OLD_KEY: KeyPath := ["storage", "db_path"]
  const NEW_KEY: KeyPath := ["storage", "vault_index_path"]

  // ---------------------------------------------------------------- reading a tree

  function At(i: Item, q: KeyPath): Option<Item>
    decreases |q|
  {
    if q == [] then Some(i)
    else if i.Table? && q[0] in i.entries then At(i.entries[q[0]], q[1..])
    else None
  }

  function LeafAt(i: Item, q: KeyPath): Option<Value> {
    match At(i, q)
    case Some(Leaf(v)) => Some(v)
    case _ => None
  }

  predicate TableAt(i: Item, q: KeyPath) {
    At(i, q).Some? && At(i, q).value.Table?
  }

  /** `i` has an item at `q`, or a leaf on the way to `q`. */
  predicate Covers(i: Item, q: KeyPath)
    decreases |q|
  {
    q == [] || i.Leaf? || (q[0] in i.entries && Covers(i.entries[q[0]], q[1..]))
  }

  /** `i` has a leaf at `q` or on the way to `q`. */
  predicate LeafOnPath(i: Item, q: KeyPath)
    decreases |q|
  {
    i.Leaf? || (q != [] && q[0] in i.entries && LeafOnPath(i.entries[q[0]], q[1..]))
  }

  // ---------------------------------------------------------------- the walk

  /** The backup over the template: tables are merged key by key, everything else is taken from the
      backup, and keys of either side alone are kept. */
  function Merge(template: Item, backup: Item): Item
    decreases backup
  {
    if template.Table? && backup.Table? then
      Table(map k | k in template.entries.Keys + backup.entries.Keys ::
              if k !in backup.entries then template.entries[k]
              else if k !in template.entries then backup.entries[k]
              else Merge(template.entries[k], backup.entries[k]))
    else backup
  }

  /** The in-place walk: one backup key at a time, in any order. */
  method WalkAndMerge(target: map<string, Item>, source: map<string, Item>) returns (result: map<string, Item>)
    ensures Table(result) == Merge(Table(target), Table(source))
    decreases Table(source)
  {
    result := target;
    var keys := source.Keys;
    while keys != {}
      invariant keys <= source.Keys
      invariant result.Keys == target.Keys + (source.Keys - keys)
      invariant forall k :: k in result ==>
                  result[k] == if k !in source || k in keys then target[k]
                               else if k !in target then source[k] else Merge(target[k], source[k])
      decreases keys
    {
      var key :| key in keys;
      var item := source[key];
      if key in result && result[key].Table? && item.Table? {
        assert item < Table(source);
        var merged := WalkAndMerge(result[key].entries, item.entries);
        result := result[key := Table(merged)];
      } else {
        result := result[key := item];
      }
      keys := keys - {key};
    }
  }

  // ---------------------------------------------------------------- rename migration

  /** Sets `section.key`, creating the section when it is absent; a section that is not a table is left alone. */
  function SetItemOrInsert(doc: Item, path: KeyPath, value: Item): Item
    requires doc.Table? && |path| == 2
  {
    var section := if path[0] in doc.entries then doc.entries[path[0]] else Table(map[]);
    if section.Table? then Table(doc.entries[path[0] := Table(section.entries[path[1] := value])]) else doc
  }

  function RemovePath(doc: Item, path: KeyPath): Item
    requires doc.Table? && |path| == 2
  {
    if path[0] in doc.entries && doc.entries[path[0]].Table? then
      Table(doc.entries[path[0] := Table(doc.entries[path[0]].entries - {path[1]})])
    else doc
  }

  function Migrate(doc: Item): Item
    requires doc.Table?
  {
    match At(doc, OLD_KEY)
    case None => doc
    case Some(value) => RemovePath(SetItemOrInsert(doc, NEW_KEY, value), OLD_KEY)
  }

  function MergeUserConfig(backup: Item, template: Item): Item
    requires backup.Table?
  {
    Merge(template, Migrate(backup))
  }

  // ---------------------------------------------------------------- the merge is an overlay

  /** Every leaf of the result comes from the backup where the backup reaches, and from the template
      everywhere else. */
  lemma {:induction false} MergeLeaves(t: Item, b: Item, q: KeyPath)
    ensures LeafAt(Merge(t, b), q) == if Covers(b, q) then LeafAt(b, q) else LeafAt(t, q)
    decreases |q|
  {
    if q != [] && t.Table? && b.Table? && q[0] in t.entries && q[0] in b.entries {
      MergeLeaves(t.entries[q[0]], b.entries[q[0]], q[1..]);
    } else if LeafAt(b, q).Some? {
      LeafCovers(b, q);
    }
  }

  /** Every table of the result is a table of the backup, or one of the template that no backup leaf hides. */
  lemma {:induction false} MergeTables(t: Item, b: Item, q: KeyPath)
    ensures TableAt(Merge(t, b), q) <==> TableAt(b, q) || (TableAt(t, q) && !LeafOnPath(b, q))
    decreases |q|
  {
    if q != [] && t.Table? && b.Table? && q[0] in t.entries && q[0] in b.entries {
      MergeTables(t.entries[q[0]], b.entries[q[0]], q[1..]);
    }
  }

  ghost predicate SameShape(a: Item, b: Item) {
    forall q :: LeafAt(a, q) == LeafAt(b, q) && TableAt(a, q) == TableAt(b, q)
  }

  /** Leaves and tables determine a document, so the two lemmas above leave nothing open. */
  lemma {:induction false} ShapeDeterminesItem(a: Item, b: Item)
    requires SameShape(a, b)
    ensures a == b
    decreases a
  {
    assert LeafAt(a, []) == LeafAt(b, []) && TableAt(a, []) == TableAt(b, []);
    if a.Table? {
      forall k ensures k in a.entries <==> k in b.entries {
        KeyIsVisible(a, k);
        KeyIsVisible(b, k);
        assert LeafAt(a, [k]) == LeafAt(b, [k]) && TableAt(a, [k]) == TableAt(b, [k]);
      }
      forall k | k in a.entries ensures a.entries[k] == b.entries[k] {
        forall q
          ensures LeafAt(a.entries[k], q) == LeafAt(b.entries[k], q)
          ensures TableAt(a.entries[k], q) == TableAt(b.entries[k], q)
        {
          assert ([k] + q)[1..] == q;
          assert LeafAt(a, [k] + q) == LeafAt(b, [k] + q) && TableAt(a, [k] + q) == TableAt(b, [k] + q);
        }
        ShapeDeterminesItem(a.entries[k], b.entries[k]);
      }
      assert a.entries == b.entries;
    }
  }

  lemma KeyIsVisible(i: Item, k: string)
    requires i.Table?
    ensures k in i.entries <==> LeafAt(i, [k]).Some? || TableAt(i, [k])
  {
    assert [k][1..] == [];
    if k in i.entries {
      assert At(i, [k]) == At(i.entries[k], []);
    }
  }

  // ---------------------------------------------------------------- what a user keeps

  /** The migrated backup, one section deep. */
  lemma MigratedSection(b: Item)
    requires b.Table? && At(b, OLD_KEY).Some?
    ensures "storage" in b.entries && b.entries["storage"].Table? && Migrate(b).Table?
    ensures Migrate(b).entries == b.entries["storage" :=
              Table(b.entries["storage"].entries["vault_index_path" := At(b, OLD_KEY).value] - {"db_path"})]
  {
    AtTwo(b, "storage", "db_path");
  }

  lemma SectionPrefix(q: KeyPath)
    requires |q| >= 2
    ensures q[..2] == [q[0], q[1]]
    ensures NEW_KEY <= q <==> q[0] == "storage" && q[1] == "vault_index_path"
    ensures OLD_KEY <= q <==> q[0] == "storage" && q[1] == "db_path"
  {
    assert q[..2] == [q[0], q[1]];
  }

  /** The migrated backup, path by path. */
  lemma MigrateAt(b: Item, q: KeyPath)
    requires b.Table? && At(b, OLD_KEY).Some? && |q| >= 2
    ensures At(Migrate(b), q) ==
            if NEW_KEY <= q then At(At(b, OLD_KEY).value, q[2..])
            else if OLD_KEY <= q then None
            else At(b, q)
  {
    MigratedSection(b);
    SectionPrefix(q);
    AtSplit(b, q, 2);
    AtSplit(Migrate(b), q, 2);
    AtTwo(b, q[0], q[1]);
    AtTwo(Migrate(b), q[0], q[1]);
  }

  /** The backup after migration, leaf by leaf. */
  lemma MigrateLeaves(b: Item, q: KeyPath)
    requires b.Table?
    ensures var renamed := At(b, OLD_KEY);
            LeafAt(Migrate(b), q) ==
            if renamed.None? then LeafAt(b, q)
            else if NEW_KEY <= q then LeafAt(renamed.value, q[2..])
            else if OLD_KEY <= q then None
            else LeafAt(b, q)
  {
    if At(b, OLD_KEY).Some? {
      if |q| >= 2 {
        MigrateAt(b, q);
      } else {
        MigratedSection(b);
        if q != [] {
          assert q == [q[0]];
          AtOne(b, q[0]);
          AtOne(Migrate(b), q[0]);
        }
      }
    }
  }

  lemma AtOne(i: Item, k: string)
    ensures At(i, [k]) == if i.Table? && k in i.entries then Some(i.entries[k]) else None
  {
    assert [k][1..] == [];
    if i.Table? && k in i.entries {
      assert At(i.entries[k], []) == Some(i.entries[k]);
    }
  }

  lemma AtTwo(i: Item, a: string, b: string)
    ensures At(i, [a, b]) == if i.Table? && a in i.entries && i.entries[a].Table? && b in i.entries[a].entries
                             then Some(i.entries[a].entries[b]) else None
  {
    assert [a, b][1..] == [b] && [b][1..] == [];
    if i.Table? && a in i.entries && i.entries[a].Table? && b in i.entries[a].entries {
      assert At(i.entries[a].entries[b], []) == Some(i.entries[a].entries[b]);
    }
  }

  lemma {:induction false} LeafCovers(i: Item, q: KeyPath)
    requires LeafAt(i, q).Some?
    ensures Covers(i, q)
    decreases |q|
  {
    if q != [] {
      LeafCovers(i.entries[q[0]], q[1..]);
    }
  }

  /** Where a backup leaf ends up. */
  function Moved(b: Item, q: KeyPath): KeyPath {
    if At(b, OLD_KEY).Some? && OLD_KEY <= q then NEW_KEY + q[2..] else q
  }

  /** Every leaf of the backup survives at its migrated path with its value, except under the new
      key of a backup that carries both spellings: there the old key is what the result holds. */
  lemma BackupLeafSurvives(b: Item, t: Item, q: KeyPath)
    requires b.Table? && LeafAt(b, q).Some?
    ensures LeafAt(MergeUserConfig(b, t), Moved(b, q)) ==
            if At(b, OLD_KEY).Some? && NEW_KEY <= q then
              if Covers(At(b, OLD_KEY).value, q[2..]) then LeafAt(At(b, OLD_KEY).value, q[2..]) else LeafAt(t, q)
            else LeafAt(b, q)
  {
    var m := Migrate(b);
    var q' := Moved(b, q);
    MigrateLeaves(b, q');
    MergeLeaves(t, m, q');
    if At(b, OLD_KEY).Some? && NEW_KEY <= q {
      SectionPrefix(q);
      RenamedCovers(b, q);
    } else {
      if At(b, OLD_KEY).Some? && OLD_KEY <= q {
        SectionPrefix(q);
        AtSplit(b, q, 2);
        assert q'[..2] == NEW_KEY && q'[2..] == q[2..];
      }
      LeafCovers(m, q');
    }
  }

  /** A backup with both spellings loses the value under the new one. */
  lemma BothSpellingsLoseTheNewOne() returns (b: Item)
    ensures b.Table? && LeafAt(b, NEW_KEY) == Some(Str("/new"))
    ensures forall t :: LeafAt(MergeUserConfig(b, t), NEW_KEY) == Some(Str("/old"))
  {
    b := Table(map["storage" := Table(map["db_path" := Leaf(Str("/old")), "vault_index_path" := Leaf(Str("/new"))])]);
    AtTwo(b, "storage", "db_path");
    AtTwo(b, "storage", "vault_index_path");
    forall t ensures LeafAt(MergeUserConfig(b, t), NEW_KEY) == Some(Str("/old")) {
      BackupLeafSurvives(b, t, NEW_KEY);
      assert NEW_KEY[2..] == [];
    }
  }

  lemma {:induction false} AtSplit(i: Item, q: KeyPath, n: nat)
    requires n <= |q|
    ensures At(i, q) == match At(i, q[..n]) case None => None case Some(j) => At(j, q[n..])
    decreases n
  {
    if n == 0 {
      assert q[..0] == [] && q[0..] == q;
    } else {
      assert q[..n][1..] == q[1..][..n - 1] && q[1..][n - 1..] == q[n..];
      if i.Table? && q[0] in i.entries {
        AtSplit(i.entries[q[0]], q[1..], n - 1);
      }
    }
  }

  lemma RenamedCovers(b: Item, q: KeyPath)
    requires b.Table? && At(b, OLD_KEY).Some? && |q| >= 2 && NEW_KEY <= q
    ensures Covers(Migrate(b), q) == Covers(At(b, OLD_KEY).value, q[2..])
  {
    MigratedSection(b);
    SectionPrefix(q);
    assert q[1..][1..] == q[2..];
    var section := Migrate(b).entries["storage"];
    assert section.entries["vault_index_path"] == At(b, OLD_KEY).value;
    assert Covers(section, q[1..]) == Covers(section.entries["vault_index_path"], q[1..][1..]);
  }

  /** A template leaf the migrated backup does not reach keeps its default. */
  lemma TemplateDefaultKept(b: Item, t: Item, q: KeyPath)
    requires b.Table? && !Covers(Migrate(b), q)
    ensures LeafAt(MergeUserConfig(b, t), q) == LeafAt(t, q)
  {
    MergeLeaves(t, Migrate(b), q);
  }

  // ---------------------------------------------------------------- idempotence

  lemma {:induction false} MergeTwice(t: Item, b: Item)
    ensures Merge(t, Merge(t, b)) == Merge(t, b)
    decreases b
  {
    if t.Table? && b.Table? {
      var once := Merge(t, b);
      forall k | k in once.entries ensures Merge(t, once).entries[k] == once.entries[k] {
        if k in t.entries && k in b.entries {
          MergeTwice(t.entries[k], b.entries[k]);
        } else if k in t.entries {
          MergeSelf(t.entries[k]);
        }
      }
      assert Merge(t, once).entries.Keys == once.entries.Keys;
    }
  }

  lemma {:induction false} MergeSelf(t: Item)
    ensures Merge(t, t) == t
    decreases t
  {
    if t.Table? {
      forall k | k in t.entries ensures Merge(t, t).entries[k] == t.entries[k] {
        MergeSelf(t.entries[k]);
      }
      assert Merge(t, t).entries.Keys == t.entries.Keys;
    }
  }

  lemma MigratedLacksOldKey(b: Item)
    requires b.Table?
    ensures Migrate(b).Table? && At(Migrate(b), OLD_KEY).None?
  {
    if At(b, OLD_KEY).Some? {
      MigratedSection(b);
      MigrateAt(b, OLD_KEY);
      assert !(NEW_KEY <= OLD_KEY);
    }
  }

  /** Re-running the merge changes nothing, for every backup and every template without the old key. */
  lemma MergeUserConfigIdempotent(b: Item, t: Item)
    requires b.Table? && t.Table? && At(t, OLD_KEY).None?
    ensures MergeUserConfig(b, t).Table?
    ensures MergeUserConfig(MergeUserConfig(b, t), t) == MergeUserConfig(b, t)
  {
    var m := Migrate(b);
    MigratedLacksOldKey(b);
    var once := Merge(t, m);
    MergeLeaves(t, m, OLD_KEY);
    MergeTables(t, m, OLD_KEY);
    assert At(once, OLD_KEY).None?;
    MergeTwice(t, m);
  }
}
