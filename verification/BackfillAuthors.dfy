/** Author back-fill: note file first, index row last, resumable after any interruption. */
module BackfillAuthors {
  import opened Wrappers
  import opened Text

  /** A note identifier, a ULID in the source: no `/`. */
  type Id = s: string | '/' !in s witness ""
  type Path = string

  datatype Author = Author(kind: string, id: string, display: Option<string>)

  /** A note file: unparsable, or its author, its update time, the other frontmatter fields and its body. */
  datatype File = Malformed | Note(author: Option<Author>, updated: Option<int>, rest: string, body: string)

  /** Where the index places a note. */
  datatype Place = Place(locus: Option<string>, section: string)

  datatype Row = Row(place: Place, created: int, author: Option<Author>, hash: string, updated: int, rest: string)

  datatype State = State(files: map<Path, File>, rows: map<Id, Row>)

  /** The target author, the content hash, and the path candidates (`PathsOf` the tenant). */
  datatype Env = Env(author: Author, hash: File -> string, paths: (Place, Id) -> seq<Path>)

  // ---------------------------------------------------------------- path candidates

  function MdPathCandidates(tenant: string, place: Place, id: Id): seq<Path> {
    (if place.locus.Some? && place.locus.value != [] then [tenant + "/" + place.locus.value + "/" + id + ".md"] else [])
    + [tenant + "/" + id + ".md", tenant + "/" + place.section + "/" + id + ".md"]
  }

  function PathsOf(tenant: string): (Place, Id) -> seq<Path> {
    (place: Place, id: Id) => MdPathCandidates(tenant, place, id)
  }

  /** No path is a candidate of two notes. */
  ghost predicate Separate(env: Env) {
    forall place: Place, id: Id, place': Place, id': Id, p: Path ::
      p in env.paths(place, id) && p in env.paths(place', id') ==> id == id'
  }

  lemma NameOfPath(dir: string, id: Id, dir': string, id': Id)
    requires dir + "/" + id + ".md" == dir' + "/" + id' + ".md"
    ensures id == id'
  {
    var a, b := dir + "/" + id, dir' + "/" + id';
    assert a == (a + ".md")[..|a + ".md"| - 3] && b == (b + ".md")[..|b + ".md"| - 3];
    LastSeparator(dir, id, dir', id', '/');
  }

  lemma PathHasDirectory(tenant: string, place: Place, id: Id, p: Path) returns (dir: string)
    requires p in MdPathCandidates(tenant, place, id)
    ensures p == dir + "/" + id + ".md"
  {
    if p == tenant + "/" + id + ".md" {
      dir := tenant;
    } else if p == tenant + "/" + place.section + "/" + id + ".md" {
      dir := tenant + "/" + place.section;
    } else {
      dir := tenant + "/" + place.locus.value;
    }
  }

  /** The source's candidates keep notes apart, whatever their loci and sections. */
  lemma CandidatesAreSeparate(env: Env, tenant: string)
    requires env.paths == PathsOf(tenant)
    ensures Separate(env)
  {
    forall place: Place, id: Id, place': Place, id': Id, p: Path |
        p in env.paths(place, id) && p in env.paths(place', id')
      ensures id == id'
    {
      var dir := PathHasDirectory(tenant, place, id, p);
      var dir' := PathHasDirectory(tenant, place', id', p);
      NameOfPath(dir, id, dir', id');
    }
  }

  // ---------------------------------------------------------------- one note

  predicate Unattributed(a: Option<Author>) {
    a.None? || a.value.id == []
  }

  function FirstExisting(files: map<Path, File>, paths: seq<Path>): (p: Option<Path>)
    ensures p.Some? ==> p.value in files
  {
    if paths == [] then None
    else if paths[0] in files then Some(paths[0])
    else FirstExisting(files, paths[1..])
  }

  lemma {:induction false} FirstExistingIsCandidate(files: map<Path, File>, paths: seq<Path>)
    requires FirstExisting(files, paths).Some?
    ensures FirstExisting(files, paths).value in paths
    decreases |paths|
  {
    if paths[0] !in files {
      FirstExistingIsCandidate(files, paths[1..]);
    }
  }

  /** The file of an indexed note: its first candidate that exists. */
  function Where(env: Env, st: State, id: Id): Option<Path>
    requires id in st.rows
  {
    FirstExisting(st.files, env.paths(st.rows[id].place, id))
  }

  predicate Drifted(env: Env, f: File) {
    && f.Note? && !Unattributed(f.author)
    && !(f.author.value.kind == env.author.kind && f.author.value.id == env.author.id)
  }

  datatype Verdict = Missing | Bad | Drift | Assign(path: Path)

  function Judge(env: Env, st: State, id: Id): Verdict
    requires id in st.rows
  {
    var p := Where(env, st, id);
    if p.None? then Missing
    else if st.files[p.value].Malformed? then Bad
    else if Drifted(env, st.files[p.value]) then Drift
    else Assign(p.value)
  }

  function Attributed(env: Env, f: File, now: int): File
    requires f.Note?
  {
    f.(author := Some(env.author), updated := Some(now))
  }

  function WriteFile(env: Env, st: State, p: Path, now: int): State
    requires p in st.files && st.files[p].Note?
  {
    st.(files := st.files[p := Attributed(env, st.files[p], now)])
  }

  /** The guarded `UPDATE`. */
  function UpdateRow(env: Env, st: State, id: Id, hash: string, now: int): State
    requires id in st.rows
  {
    if Unattributed(st.rows[id].author)
    then st.(rows := st.rows[id := st.rows[id].(author := Some(env.author), hash := hash, updated := now)])
    else st
  }

  // ---------------------------------------------------------------- a run

  /** One selected candidate and the time its turn comes. */
  datatype Item = Item(id: Id, now: int)

  /** The state after a run that is interrupted once it made `budget` writes. */
  function Run(env: Env, st: State, items: seq<Item>, budget: nat): State
    requires forall i :: 0 <= i < |items| ==> items[i].id in st.rows
    decreases |items|
  {
    if items == [] then st
    else
      var it := items[0];
      match Judge(env, st, it.id)
      case Missing => Run(env, st, items[1..], budget)
      case Drift => Run(env, st, items[1..], budget)
      case Bad => st
      case Assign(p) =>
        if budget == 0 then st
        else
          var written := WriteFile(env, st, p, it.now);
          if budget == 1 then written
          else Run(env, UpdateRow(env, written, it.id, env.hash(written.files[p]), it.now), items[1..], budget - 2)
  }
}
