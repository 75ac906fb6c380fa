/** Re-indexing of orphan notes: files on disk that the index does not know. */
module ReindexOrphans {
  import opened Wrappers
  import opened Text

  /** A note identifier as it is printed, a ULID in the source: no `/`. */
  type Id = s: string | '/' !in s witness ""
  type Path = string

  /** A note file: not readable as text, unparsable, or its vault, its locus and everything else. */
  datatype Md = Unreadable | Malformed | Note(vaultId: string, locus: Option<string>, rest: string)

  datatype Key = Key(vault: string, id: string)

  datatype State = State(files: map<Path, Md>, rows: map<Key, Md>)

  /** The tenant of the command, the vault the funnel falls back to for a note without one, the path format
      (`CanonicalPath`), the file stem (`Stem`), the files the walk reports, the identifier a stem spells, and
      what the funnel makes of a note. */
  datatype Env = Env(tenant: string, home: string, canonical: (string, Option<string>, Id) -> Path,
                     stem: Path -> string, walked: Path -> bool, parse: string -> Option<Id>, funnel: Md -> Md)

  datatype Orphan = Orphan(id: Id, path: Path)

  // ---------------------------------------------------------------- paths

  function CanonicalPath(vault: string, locus: Option<string>, id: Id): Path {
    if locus.Some? then vault + "/" + locus.value + "/" + id + ".md" else vault + "/" + id + ".md"
  }

  function FileName(p: Path): string {
    if p == [] || p[|p| - 1] == '/' then [] else FileName(p[..|p| - 1]) + [p[|p| - 1]]
  }

  function Stem(p: Path): string {
    var name := FileName(p);
    if EndsWith(name, ".md") then name[..|name| - 3] else name
  }

  lemma {:induction false} FileNameAfterSlash(dir: string, name: string)
    requires '/' !in name
    ensures FileName(dir + "/" + name) == name
    decreases |name|
  {
    var p := dir + "/" + name;
    if name != [] {
      assert p[..|p| - 1] == dir + "/" + name[..|name| - 1];
      FileNameAfterSlash(dir, name[..|name| - 1]);
    }
  }

  /** The canonical path of a note spells its identifier. */
  lemma StemOfCanonical(vault: string, locus: Option<string>, id: Id)
    ensures Stem(CanonicalPath(vault, locus, id)) == id
  {
    var dir := if locus.Some? then vault + "/" + locus.value else vault;
    var name := id + ".md";
    assert CanonicalPath(vault, locus, id) == dir + "/" + name;
    FileNameAfterSlash(dir, name);
    assert name[|name| - 3..] == ".md" && name[..|name| - 3] == id;
  }

  lemma CanonicalDeterminesVault(vault: string, vault': string, locus: Option<string>, id: Id)
    requires CanonicalPath(vault, locus, id) == CanonicalPath(vault', locus, id)
    ensures vault == vault'
  {
    var tail := if locus.Some? then "/" + locus.value + "/" + id + ".md" else "/" + id + ".md";
    assert CanonicalPath(vault, locus, id) == vault + tail && CanonicalPath(vault', locus, id) == vault' + tail;
    assert vault == (vault + tail)[..|vault + tail| - |tail|];
    assert vault' == (vault' + tail)[..|vault' + tail| - |tail|];
  }

  function Directory(p: Path): string {
    if p == [] then [] else if p[|p| - 1] == '/' then p[..|p| - 1] else Directory(p[..|p| - 1])
  }

  lemma {:induction false} DirectoryBeforeName(dir: string, name: string)
    requires '/' !in name
    ensures Directory(dir + "/" + name) == dir
    decreases |name|
  {
    var p := dir + "/" + name;
    if name == [] {
      assert p[..|p| - 1] == dir;
    } else {
      assert p[..|p| - 1] == dir + "/" + name[..|name| - 1];
      DirectoryBeforeName(dir, name[..|name| - 1]);
    }
  }

  lemma {:induction false} PathSplits(p: Path)
    requires '/' in p
    ensures p == Directory(p) + "/" + FileName(p)
  {
    var n := |p| - 1;
    assert p == p[..n] + [p[n]];
    if p[n] != '/' {
      PathSplits(p[..n]);
    }
  }

  /** A note lives in the directory of its vault, or of its locus inside it, under its identifier. */
  lemma CanonicalParts(vault: string, locus: Option<string>, id: Id)
    ensures Directory(CanonicalPath(vault, locus, id)) == (if locus.Some? then vault + "/" + locus.value else vault)
    ensures FileName(CanonicalPath(vault, locus, id)) == id + ".md"
  {
    var dir := if locus.Some? then vault + "/" + locus.value else vault;
    assert CanonicalPath(vault, locus, id) == dir + "/" + (id + ".md");
    FileNameAfterSlash(dir, id + ".md");
    DirectoryBeforeName(dir, id + ".md");
  }

  /** No two loci of a vault share a path: a note without a locus is in no one's. */
  lemma CanonicalDeterminesLocus(vault: string, a: Option<string>, b: Option<string>, id: Id)
    requires CanonicalPath(vault, a, id) == CanonicalPath(vault, b, id)
    ensures a == b
  {
    CanonicalParts(vault, a, id);
    CanonicalParts(vault, b, id);
    if a.Some? && b.Some? {
      assert (vault + "/" + a.value)[|vault| + 1..] == a.value;
      assert (vault + "/" + b.value)[|vault| + 1..] == b.value;
    }
  }

  // ---------------------------------------------------------------- one orphan

  /** A walked file whose name spells an identifier that the tenant's index does not hold. */
  predicate IsOrphan(env: Env, st: State, o: Orphan) {
    && o.path in st.files && env.walked(o.path) && env.parse(env.stem(o.path)) == Some(o.id)
    && Key(env.tenant, env.stem(o.path)) !in st.rows
  }

  /** What the real run does with an orphan; an unreadable file is an error that ends the run. */
  datatype Verdict = Abort | SkipMalformed | SkipMismatch | Write(dest: Path)

  /** The vault the funnel writes a note into: that of its frontmatter, not the command's tenant. */
  function Target(env: Env, f: Md): string
    requires f.Note?
  {
    if f.vaultId == [] then env.home else f.vaultId
  }

  function Judge(env: Env, st: State, o: Orphan): Verdict
    requires o.path in st.files
  {
    var f := st.files[o.path];
    if f.Unreadable? then Abort
    else if f.Malformed? then SkipMalformed
    else if env.canonical(env.tenant, f.locus, o.id) != o.path then SkipMismatch
    else Write(env.canonical(Target(env, f), f.locus, o.id))
  }

  /** An orphan is re-indexed if and only if its note parses and its file stands, under its own identifier, in the
      directory of the tenant or of its locus there. */
  lemma WrittenIff(env: Env, st: State, o: Orphan)
    requires env.canonical == CanonicalPath && o.path in st.files
    ensures var f := st.files[o.path];
            Judge(env, st, o).Write? <==>
              && f.Note? && '/' in o.path && FileName(o.path) == o.id + ".md"
              && Directory(o.path) == if f.locus.Some? then env.tenant + "/" + f.locus.value else env.tenant
  {
    var f := st.files[o.path];
    if f.Note? {
      CanonicalParts(env.tenant, f.locus, o.id);
      var dir := if f.locus.Some? then env.tenant + "/" + f.locus.value else env.tenant;
      assert CanonicalPath(env.tenant, f.locus, o.id) == dir + "/" + (o.id + ".md");
      if '/' in o.path {
        PathSplits(o.path);
      }
    }
  }

  function WriteMd(env: Env, st: State, o: Orphan, dest: Path): State
    requires o.path in st.files
  {
    st.(files := st.files[dest := env.funnel(st.files[o.path])])
  }

  function Reindexed(env: Env, st: State, o: Orphan, dest: Path): State
    requires o.path in st.files && st.files[o.path].Note?
  {
    var f := st.files[o.path];
    WriteMd(env, st, o, dest).(rows := st.rows[Key(Target(env, f), o.id) := env.funnel(f)])
  }

  /** The state after one orphan had its turn. */
  function After(env: Env, st: State, o: Orphan): State {
    if o.path !in st.files then st
    else match Judge(env, st, o)
      case Write(dest) => Reindexed(env, st, o, dest)
      case _ => st
  }

  /** The state after the orphans had their turns, in order. */
  function Run(env: Env, st: State, orphans: seq<Orphan>): State
    decreases |orphans|
  {
    if orphans == [] then st else Run(env, After(env, st, orphans[0]), orphans[1..])
  }

  /** How many orphans have their turn before one ends the run. */
  function Stop(env: Env, st: State, orphans: seq<Orphan>): (n: nat)
    ensures n <= |orphans|
    decreases |orphans|
  {
    if orphans == [] || (orphans[0].path in st.files && Judge(env, st, orphans[0]) == Abort) then 0
    else 1 + Stop(env, After(env, st, orphans[0]), orphans[1..])
  }

  /** The orphans a run reaches. */
  function Reach(env: Env, st: State, orphans: seq<Orphan>): seq<Orphan> {
    orphans[..Stop(env, st, orphans)]
  }

  /** The state the command leaves when nothing interrupts it. */
  function Live(env: Env, st: State, orphans: seq<Orphan>): State {
    Run(env, st, Reach(env, st, orphans))
  }

  /** The state a run leaves when it is interrupted at orphan `k`, possibly between the file and the row. */
  function Cut(env: Env, st: State, orphans: seq<Orphan>, k: nat, torn: bool): State
    requires k <= |orphans|
  {
    var done := Run(env, st, orphans[..k]);
    if torn && k < |orphans| && orphans[k].path in done.files && Judge(env, done, orphans[k]).Write?
    then WriteMd(env, done, orphans[k], Judge(env, done, orphans[k]).dest)
    else done
  }

  // ---------------------------------------------------------------- laws

  ghost predicate Sound(env: Env) {
    && (forall v: string, l: Option<string>, id: Id :: env.stem(env.canonical(v, l, id)) == id)
    && (forall v: string, v': string, l: Option<string>, id: Id ::
          env.canonical(v, l, id) == env.canonical(v', l, id) ==> v == v')
    && (forall f: Md :: f.Note? ==> env.funnel(f).Note? && env.funnel(f).locus == f.locus
                                    && Target(env, env.funnel(f)) == Target(env, f))
  }

  /** The source's path format and file stem meet what the laws ask of them. */
  lemma SourcePathsAreSound(env: Env)
    requires env.canonical == CanonicalPath && env.stem == Stem
    requires forall f: Md :: f.Note? ==> env.funnel(f).Note? && env.funnel(f).locus == f.locus
                                         && Target(env, env.funnel(f)) == Target(env, f)
    ensures Sound(env)
  {
    forall v: string, l: Option<string>, id: Id ensures env.stem(env.canonical(v, l, id)) == id {
      StemOfCanonical(v, l, id);
    }
    forall v: string, v': string, l: Option<string>, id: Id | env.canonical(v, l, id) == env.canonical(v', l, id)
      ensures v == v'
    {
      CanonicalDeterminesVault(v, v', l, id);
    }
  }

  /** The orphans of a scan: each one is an orphan, no identifier twice. */
  ghost predicate Scan(env: Env, st: State, orphans: seq<Orphan>) {
    && (forall i :: 0 <= i < |orphans| ==> IsOrphan(env, st, orphans[i]))
    && (forall i, j :: 0 <= i < j < |orphans| ==> orphans[i].id != orphans[j].id)
  }

  lemma DestStem(env: Env, st: State, o: Orphan, dest: Path)
    requires Sound(env) && o.path in st.files && Judge(env, st, o) == Write(dest)
    ensures env.stem(dest) == o.id && env.stem(o.path) == o.id
  {
  }

  /** Re-indexing one note leaves every other orphan an orphan, with the same verdict. */
  lemma ReindexSpares(env: Env, st: State, o: Orphan, dest: Path, other: Orphan)
    requires Sound(env) && IsOrphan(env, st, o) && IsOrphan(env, st, other) && o.id != other.id
    requires Judge(env, st, o) == Write(dest)
    ensures IsOrphan(env, Reindexed(env, st, o, dest), other)
    ensures Judge(env, Reindexed(env, st, o, dest), other) == Judge(env, st, other)
    ensures Reindexed(env, st, o, dest).files[other.path] == st.files[other.path]
  {
    DestStem(env, st, o, dest);
    assert env.stem(other.path) != o.id;
  }

  lemma AfterSpares(env: Env, st: State, o: Orphan, other: Orphan)
    requires Sound(env) && IsOrphan(env, st, o) && IsOrphan(env, st, other) && o.id != other.id
    ensures IsOrphan(env, After(env, st, o), other)
    ensures Judge(env, After(env, st, o), other) == Judge(env, st, other)
    ensures After(env, st, o).files[other.path] == st.files[other.path]
  {
    if Judge(env, st, o).Write? {
      ReindexSpares(env, st, o, Judge(env, st, o).dest, other);
    }
  }

  lemma ScanTail(env: Env, st: State, orphans: seq<Orphan>)
    requires Sound(env) && Scan(env, st, orphans) && orphans != []
    ensures Scan(env, After(env, st, orphans[0]), orphans[1..])
  {
    var rest := orphans[1..];
    forall i | 0 <= i < |rest| ensures IsOrphan(env, After(env, st, orphans[0]), rest[i]) {
      assert rest[i] == orphans[i + 1];
      AfterSpares(env, st, orphans[0], rest[i]);
    }
  }

  lemma {:induction false} RunSnoc(env: Env, st: State, orphans: seq<Orphan>, o: Orphan)
    ensures Run(env, st, orphans + [o]) == After(env, Run(env, st, orphans), o)
    decreases |orphans|
  {
    if orphans == [] {
      assert ([] + [o])[1..] == [];
    } else {
      assert (orphans + [o])[1..] == orphans[1..] + [o];
      RunSnoc(env, After(env, st, orphans[0]), orphans[1..], o);
    }
  }

  /** No file and no index row is lost. */
  lemma {:induction false} RunLosesNothing(env: Env, st: State, orphans: seq<Orphan>)
    ensures st.files.Keys <= Run(env, st, orphans).files.Keys && st.rows.Keys <= Run(env, st, orphans).rows.Keys
    decreases |orphans|
  {
    if orphans != [] {
      RunLosesNothing(env, After(env, st, orphans[0]), orphans[1..]);
    }
  }

  /** However a run ends, no file and no index row is lost. */
  lemma CutLosesNothing(env: Env, st: State, orphans: seq<Orphan>, k: nat, torn: bool)
    requires k <= |orphans|
    ensures st.files.Keys <= Cut(env, st, orphans, k, torn).files.Keys
    ensures st.rows.Keys <= Cut(env, st, orphans, k, torn).rows.Keys
  {
    RunLosesNothing(env, st, orphans[..k]);
  }

  // ---------------------------------------------------------------- where the funnel writes

  predicate DestinationExists(env: Env, st: State, o: Orphan) {
    o.path in st.files && (Judge(env, st, o).Write? ==> Judge(env, st, o).dest in st.files)
  }

  /** Every note the run would write already has a file where the funnel puts it. */
  ghost predicate DestinationsExist(env: Env, st: State, orphans: seq<Orphan>) {
    forall i :: 0 <= i < |orphans| ==> DestinationExists(env, st, orphans[i])
  }

  lemma AfterFiles(env: Env, st: State, o: Orphan)
    requires o.path in st.files
    ensures After(env, st, o).files.Keys == st.files.Keys <==> DestinationExists(env, st, o)
  {
    if Judge(env, st, o).Write? {
      assert Judge(env, st, o).dest in After(env, st, o).files.Keys;
    }
  }

  lemma DestinationsTail(env: Env, st: State, orphans: seq<Orphan>)
    requires Sound(env) && Scan(env, st, orphans) && orphans != [] && DestinationExists(env, st, orphans[0])
    ensures DestinationsExist(env, After(env, st, orphans[0]), orphans[1..]) <==> DestinationsExist(env, st, orphans)
  {
    var next, rest := After(env, st, orphans[0]), orphans[1..];
    AfterFiles(env, st, orphans[0]);
    forall i | 0 < i < |orphans|
      ensures rest[i - 1] == orphans[i]
      ensures DestinationExists(env, next, orphans[i]) <==> DestinationExists(env, st, orphans[i])
    {
      AfterSpares(env, st, orphans[0], orphans[i]);
    }
    if DestinationsExist(env, next, rest) {
      forall i | 0 <= i < |orphans| ensures DestinationExists(env, st, orphans[i]) {
        if i > 0 {
          assert DestinationExists(env, next, rest[i - 1]);
        }
      }
    }
    if DestinationsExist(env, st, orphans) {
      forall i | 0 <= i < |rest| ensures DestinationExists(env, next, rest[i]) {
        assert rest[i] == orphans[i + 1];
      }
    }
  }

  /** An uninterrupted run leaves the set of files as it was if and only if every destination exists. */
  lemma {:induction false} RunFilesIff(env: Env, st: State, orphans: seq<Orphan>)
    requires Sound(env) && Scan(env, st, orphans)
    ensures Run(env, st, orphans).files.Keys == st.files.Keys <==> DestinationsExist(env, st, orphans)
    decreases |orphans|
  {
    if orphans != [] {
      var next := After(env, st, orphans[0]);
      AfterFiles(env, st, orphans[0]);
      if DestinationExists(env, st, orphans[0]) {
        ScanTail(env, st, orphans);
        DestinationsTail(env, st, orphans);
        RunFilesIff(env, next, orphans[1..]);
      } else {
        RunLosesNothing(env, next, orphans[1..]);
        assert Judge(env, st, orphans[0]).dest in next.files.Keys;
      }
    }
  }

  lemma {:induction false} RunSpares(env: Env, st: State, orphans: seq<Orphan>, o: Orphan)
    requires Sound(env) && Scan(env, st, orphans) && IsOrphan(env, st, o)
    requires forall i :: 0 <= i < |orphans| ==> orphans[i].id != o.id
    ensures var end := Run(env, st, orphans);
            IsOrphan(env, end, o) && end.files[o.path] == st.files[o.path] && Judge(env, end, o) == Judge(env, st, o)
    decreases |orphans|
  {
    if orphans != [] {
      ScanTail(env, st, orphans);
      AfterSpares(env, st, orphans[0], o);
      RunSpares(env, After(env, st, orphans[0]), orphans[1..], o);
    }
  }

  /** A run cut anywhere creates no file when every destination exists. */
  lemma CutCreatesNoFile(env: Env, st: State, orphans: seq<Orphan>, k: nat, torn: bool)
    requires Sound(env) && Scan(env, st, orphans) && DestinationsExist(env, st, orphans) && k <= |orphans|
    ensures Cut(env, st, orphans, k, torn).files.Keys == st.files.Keys
  {
    var first := orphans[..k];
    assert Scan(env, st, first) && DestinationsExist(env, st, first);
    RunFilesIff(env, st, first);
    if k < |orphans| {
      RunSpares(env, st, first, orphans[k]);
      assert DestinationExists(env, st, orphans[k]);
    }
  }

  // ---------------------------------------------------------------- unique identifiers

  /** No two files on disk spell the same identifier. */
  ghost predicate UniqueIds(env: Env, st: State) {
    forall p, q | p in st.files && q in st.files && env.parse(env.stem(p)).Some? ::
      env.parse(env.stem(p)) == env.parse(env.stem(q)) ==> p == q
  }

  /** The note would be written, but into another vault than the command's tenant. */
  predicate Foreign(env: Env, st: State, o: Orphan) {
    o.path in st.files && Judge(env, st, o).Write? && Target(env, st.files[o.path]) != env.tenant
  }

  /** The funnel writes a note over its own file if and only if its vault is the command's tenant. */
  lemma DestinationExistsIff(env: Env, st: State, o: Orphan)
    requires Sound(env) && UniqueIds(env, st) && IsOrphan(env, st, o)
    ensures DestinationExists(env, st, o) <==> !Foreign(env, st, o)
  {
    if Judge(env, st, o).Write? {
      DestStem(env, st, o, Judge(env, st, o).dest);
    }
  }

  lemma DestinationsExistIff(env: Env, st: State, orphans: seq<Orphan>)
    requires Sound(env) && UniqueIds(env, st) && Scan(env, st, orphans)
    ensures DestinationsExist(env, st, orphans) <==> NoneForeign(env, st, orphans)
  {
    forall i | 0 <= i < |orphans| ensures DestinationExists(env, st, orphans[i]) <==> !Foreign(env, st, orphans[i]) {
      DestinationExistsIff(env, st, orphans[i]);
    }
  }

  ghost predicate NoneForeign(env: Env, st: State, orphans: seq<Orphan>) {
    forall i :: 0 <= i < |orphans| ==> !Foreign(env, st, orphans[i])
  }

  /** The command's path guard compares against the tenant, the funnel writes into the note's own vault:
      an uninterrupted run leaves the set of files as it was if and only if no orphan it reaches is foreign. */
  lemma FilesUnchangedIff(env: Env, st: State, orphans: seq<Orphan>)
    requires Sound(env) && UniqueIds(env, st) && Scan(env, st, orphans)
    ensures Live(env, st, orphans).files.Keys == st.files.Keys <==> NoneForeign(env, st, Reach(env, st, orphans))
  {
    var reach := Reach(env, st, orphans);
    assert Scan(env, st, reach);
    DestinationsExistIff(env, st, reach);
    RunFilesIff(env, st, reach);
  }

  /** Without foreign orphans no run creates a file, wherever it is cut. */
  lemma CutKeepsFiles(env: Env, st: State, orphans: seq<Orphan>, k: nat, torn: bool)
    requires Sound(env) && UniqueIds(env, st) && Scan(env, st, orphans)
    requires NoneForeign(env, st, orphans) && k <= |orphans|
    ensures Cut(env, st, orphans, k, torn).files.Keys == st.files.Keys
  {
    DestinationsExistIff(env, st, orphans);
    CutCreatesNoFile(env, st, orphans, k, torn);
  }

  // ---------------------------------------------------------------- what remains

  /** The orphan is written, and into the tenant's index. */
  predicate Converges(env: Env, st: State, o: Orphan) {
    o.path in st.files && Judge(env, st, o).Write? && !Foreign(env, st, o)
  }

  /** Between `st` and `end` the orphan became known to the tenant's index if and only if it converges;
      otherwise it is still an orphan and its file is as it was. */
  predicate SettledAs(env: Env, st: State, end: State, o: Orphan)
    requires o.path in st.files
  {
    if Converges(env, st, o) then Key(env.tenant, env.stem(o.path)) in end.rows
    else IsOrphan(env, end, o) && end.files[o.path] == st.files[o.path]
  }

  lemma AfterIff(env: Env, st: State, o: Orphan)
    requires Sound(env) && IsOrphan(env, st, o)
    ensures SettledAs(env, st, After(env, st, o), o)
  {
    if Judge(env, st, o).Write? {
      DestStem(env, st, o, Judge(env, st, o).dest);
    }
  }

  lemma FirstSettles(env: Env, st: State, first: Orphan, rest: seq<Orphan>)
    requires Sound(env) && IsOrphan(env, st, first) && Scan(env, After(env, st, first), rest)
    requires forall i :: 0 <= i < |rest| ==> rest[i].id != first.id
    ensures SettledAs(env, st, Run(env, After(env, st, first), rest), first)
  {
    var next := After(env, st, first);
    AfterIff(env, st, first);
    if Converges(env, st, first) {
      RunLosesNothing(env, next, rest);
      assert Key(env.tenant, env.stem(first.path)) in next.rows.Keys;
    } else {
      RunSpares(env, next, rest, first);
    }
  }

  lemma SettledLater(env: Env, st: State, first: Orphan, end: State, o: Orphan)
    requires Sound(env) && IsOrphan(env, st, first) && IsOrphan(env, st, o) && first.id != o.id
    requires o.path in After(env, st, first).files && SettledAs(env, After(env, st, first), end, o)
    ensures SettledAs(env, st, end, o)
  {
    AfterSpares(env, st, first, o);
  }

  /** What the turns of the selected orphans make of each of them. */
  lemma {:induction false} RunSettles(env: Env, st: State, orphans: seq<Orphan>, i: nat)
    requires Sound(env) && Scan(env, st, orphans) && i < |orphans|
    ensures orphans[i].path in st.files && SettledAs(env, st, Run(env, st, orphans), orphans[i])
    decreases |orphans|
  {
    var first, rest := orphans[0], orphans[1..];
    var next := After(env, st, first);
    ScanTail(env, st, orphans);
    var end := Run(env, next, rest);
    assert Run(env, st, orphans) == end;
    if i > 0 {
      RunSettles(env, next, rest, i - 1);
      assert rest[i - 1] == orphans[i];
      SettledLater(env, st, first, end, orphans[i]);
    } else {
      FirstSettles(env, st, first, rest);
    }
  }

  /** The run ends at the first unreadable file of the scan, if there is one. */
  lemma {:induction false} StopsAtFirstUnreadable(env: Env, st: State, orphans: seq<Orphan>)
    requires Sound(env) && Scan(env, st, orphans)
    ensures var n := Stop(env, st, orphans);
            && (forall i :: 0 <= i < n ==> !st.files[orphans[i].path].Unreadable?)
            && (n < |orphans| ==> st.files[orphans[n].path].Unreadable?)
    decreases |orphans|
  {
    if orphans != [] && Judge(env, st, orphans[0]) != Abort {
      var next, rest := After(env, st, orphans[0]), orphans[1..];
      ScanTail(env, st, orphans);
      StopsAtFirstUnreadable(env, next, rest);
      forall i | 0 < i < |orphans|
        ensures rest[i - 1] == orphans[i] && next.files[orphans[i].path] == st.files[orphans[i].path]
      {
        AfterSpares(env, st, orphans[0], orphans[i]);
      }
    }
  }

  /** After an uninterrupted run, a selected orphan is still one if and only if it was skipped, is foreign,
      or stands behind an unreadable file; and then its file is as it was. */
  lemma RemainsIff(env: Env, st: State, orphans: seq<Orphan>, i: nat)
    requires Sound(env) && Scan(env, st, orphans) && i < |orphans|
    ensures var end := Live(env, st, orphans);
            if i < Stop(env, st, orphans) && Converges(env, st, orphans[i])
            then Key(env.tenant, env.stem(orphans[i].path)) in end.rows
            else IsOrphan(env, end, orphans[i]) && end.files[orphans[i].path] == st.files[orphans[i].path]
  {
    var reach := Reach(env, st, orphans);
    assert Scan(env, st, reach);
    if i < |reach| {
      RunSettles(env, st, reach, i);
    } else {
      RunSpares(env, st, reach, orphans[i]);
    }
  }

  /** A foreign orphan is written anew by every run that reaches it, and stays an orphan. */
  lemma ForeignOrphanNeverConverges(env: Env, st: State, orphans: seq<Orphan>, i: nat)
    requires Sound(env) && Scan(env, st, orphans) && i < |orphans| && Foreign(env, st, orphans[i])
    ensures IsOrphan(env, Live(env, st, orphans), orphans[i]) && Foreign(env, Live(env, st, orphans), orphans[i])
  {
    RemainsIff(env, st, orphans, i);
  }

  // ---------------------------------------------------------------- repeated runs

  /** The scan of an unlimited run. */
  ghost predicate ScansAll(env: Env, st: State, orphans: seq<Orphan>) {
    && Scan(env, st, orphans)
    && forall o: Orphan :: IsOrphan(env, st, o) ==> exists i :: 0 <= i < |orphans| && orphans[i] == o
  }

  /** Every note that would be written stands behind an unreadable file. */
  ghost predicate Blocked(env: Env, st: State, orphans: seq<Orphan>) {
    forall j :: 0 <= j < |orphans| && orphans[j].path in st.files && Judge(env, st, orphans[j]).Write? ==>
      exists m :: 0 <= m < j && orphans[m].path in st.files && Judge(env, st, orphans[m]) == Abort
  }

  lemma {:induction false} BlockedChangesNothing(env: Env, st: State, orphans: seq<Orphan>)
    requires Blocked(env, st, orphans)
    ensures Live(env, st, orphans) == st
    decreases |orphans|
  {
    if orphans != [] && !(orphans[0].path in st.files && Judge(env, st, orphans[0]) == Abort) {
      var rest := orphans[1..];
      assert After(env, st, orphans[0]) == st;
      assert Blocked(env, st, rest) by {
        forall j | 0 <= j < |rest| && rest[j].path in st.files && Judge(env, st, rest[j]).Write?
          ensures exists m :: 0 <= m < j && rest[m].path in st.files && Judge(env, st, rest[m]) == Abort
        {
          assert rest[j] == orphans[j + 1];
          var m :| 0 <= m < j + 1 && orphans[m].path in st.files && Judge(env, st, orphans[m]) == Abort;
          assert rest[m - 1] == orphans[m];
        }
      }
      BlockedChangesNothing(env, st, rest);
      var n := Stop(env, st, orphans);
      assert orphans[..n][1..] == rest[..n - 1];
    }
  }

  /** Without foreign notes among those reached, every orphan after the run was one before, with the same file;
      and it was skipped, or not reached. */
  lemma LeftOver(env: Env, st: State, orphans: seq<Orphan>, o: Orphan) returns (i: nat)
    requires Sound(env) && UniqueIds(env, st) && ScansAll(env, st, orphans)
    requires NoneForeign(env, st, Reach(env, st, orphans)) && IsOrphan(env, Live(env, st, orphans), o)
    ensures i < |orphans| && orphans[i] == o && o.path in st.files
    ensures Live(env, st, orphans).files[o.path] == st.files[o.path]
    ensures i < Stop(env, st, orphans) ==> !Judge(env, st, o).Write?
  {
    var end, reach := Live(env, st, orphans), Reach(env, st, orphans);
    FilesUnchangedIff(env, st, orphans);
    RunLosesNothing(env, st, reach);
    assert o.path in end.files.Keys && Key(env.tenant, env.stem(o.path)) !in st.rows.Keys;
    assert IsOrphan(env, st, o);
    i :| 0 <= i < |orphans| && orphans[i] == o;
    RemainsIff(env, st, orphans, i);
    if i < |reach| {
      assert reach[i] == o;
    }
  }
}
