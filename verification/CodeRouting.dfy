/** What the code map says of a file, spelled out: the parser by extension, private items by visibility, and the
    limits of the breaker and of the retry counter. */
module CodeRouting {
  import opened Wrappers
  import opened Text
  import opened CodeIndex
  import opened CodeIngest
  import opened CodeUpdate

  // ---------------------------------------------------------------- one file

  function Noted(tc: Toolchain, bytes: Bytes, parsed: Option<seq<Note>>): Option<Content> {
    match parsed
    case None => None
    case Some(notes) => Some(Content(tc.hash(bytes), notes))
  }

  /** A path with the extension of a language. */
  predicate WrittenIn(p: Path, lang: Lang) {
    match lang
    case Rust => EndsWith(p, ".rs")
    case Python => EndsWith(p, ".py")
    case TypeScript => EndsWith(p, ".ts")
    case Tsx => EndsWith(p, ".tsx")
    case Bash => EndsWith(p, ".sh") || EndsWith(p, ".bash")
  }

  /** The routing table is exactly the extensions, and no path has two languages. */
  lemma RoutedIff(p: Path, lang: Lang)
    ensures LangOf(p) == Some(lang) <==> WrittenIn(p, lang)
  {
    LastTwo(p, ".rs");
    LastTwo(p, ".py");
    LastTwo(p, ".ts");
    LastTwo(p, ".tsx");
    LastTwo(p, ".sh");
    LastTwo(p, ".bash");
  }

  lemma LastTwo(p: Path, ext: string)
    requires |ext| >= 2
    ensures EndsWith(p, ext) ==> |p| >= 2 && p[|p| - 1] == ext[|ext| - 1] && p[|p| - 2] == ext[|ext| - 2]
  {
    if EndsWith(p, ext) {
      var tail := p[|p| - |ext|..];
      assert tail[|ext| - 1] == p[|p| - 1] && tail[|ext| - 2] == p[|p| - 2];
    }
  }

  /** The notes of a readable relative file: each extension has its parser, private items are asked for at `All`
      only, and never in a shell script. */
  lemma NotesByExtension(tc: Toolchain, tree: map<Path, Bytes>, p: Path, vis: Visibility, content: string, lang: Lang)
    requires p in tree && p != [] && p[0] != '/' && tc.decode(tree[p]) == Some(content) && WrittenIn(p, lang)
    ensures Reference(tc, tree, p, vis)
         == Noted(tc, tree[p], tc.parse(lang, p, content, lang != Bash && vis == All))
  {
    RoutedIff(p, lang);
    RoutingCoversFilter(p);
  }

  /** Every other path has no notes. */
  lemma NoNotesElsewhere(tc: Toolchain, tree: map<Path, Bytes>, p: Path, vis: Visibility)
    requires || p !in tree || (p != [] && p[0] == '/') || tc.decode(tree[p]).None?
             || (forall lang :: !WrittenIn(p, lang))
    ensures Reference(tc, tree, p, vis).None?
  {
    RoutingCoversFilter(p);
    if LangOf(p).Some? { RoutedIff(p, LangOf(p).value); }
  }

  // ---------------------------------------------------------------- a rebuild

  /** Every listed file reads, decodes and parses, in whatever language. */
  ghost predicate AllParse(tc: Toolchain, repo: Repo) {
    forall p :: p in repo.listed ==>
      p in repo.tree && tc.decode(repo.tree[p]).Some?
      && forall lang, private :: tc.parse(lang, p, tc.decode(repo.tree[p]).value, private).Some?
  }

  lemma AllParseIsClean(tc: Toolchain, repo: Repo, vis: Visibility)
    requires AllParse(tc, repo)
    ensures ParseClean(tc, repo, vis)
  {
    forall p | p in repo.listed && Tracked(p) ensures p in repo.tree && Derive(tc, p, repo.tree[p], vis).Some? {
      RoutingCoversFilter(p);
    }
  }

  /** After a completed rebuild the row of a listed file holds what the parser of its language makes of it. */
  lemma RebuiltRow(tc: Toolchain, s: VaultState, rebuild: bool, vis: Visibility, repo: Repo, order: seq<Path>, p: Path,
                   lang: Lang)
    requires !Refused(s) && NeedsRebuild(s, rebuild) && Enumerates(order, s.rows.Keys) && AllParse(tc, repo)
    requires p in repo.listed && p != [] && p[0] != '/' && WrittenIn(p, lang)
    ensures var content := tc.decode(repo.tree[p]).value;
            Lookup(ApplyAll(s, IngestPlan(tc, s, rebuild, vis, repo, order)).rows, p)
            == Some(Row(tc.hash(repo.tree[p]), repo.head,
                        tc.parse(lang, p, content, lang != Bash && vis == All).value))
  {
    AllParseIsClean(tc, repo, vis);
    RebuiltFrom(tc, s, rebuild, vis, repo, order, p);
    NotesByExtension(tc, repo.tree, p, vis, tc.decode(repo.tree[p]).value, lang);
  }

  lemma RebuiltFrom(tc: Toolchain, s: VaultState, rebuild: bool, vis: Visibility, repo: Repo, order: seq<Path>, p: Path)
    requires !Refused(s) && NeedsRebuild(s, rebuild) && Enumerates(order, s.rows.Keys)
    requires ParseClean(tc, repo, vis) && p in repo.listed
    ensures var row := Lookup(ApplyAll(s, IngestPlan(tc, s, rebuild, vis, repo, order)).rows, p);
            match Reference(tc, repo.tree, p, vis)
            case None => row == None
            case Some(c) => row == Some(Row(c.hash, repo.head, c.notes))
  {
    IngestLookup(tc, s, rebuild, vis, repo, order, p);
    CleanFilesAreReached(tc, repo, vis, map[], p);
  }

  // ---------------------------------------------------------------- visibility

  /** After a completed ingest, an update without an override works at the visibility of that ingest, and one
      with an override at its own; a vault that was never ingested is public, and so is the rebuild that a marker
      forces: the stored visibility is not asked. */
  lemma UpdateVisibility(tc: Toolchain, s: VaultState, rebuild: bool, vis: Visibility, repo: Repo, order: seq<Path>,
                         other: Visibility)
    requires !Refused(s) && Enumerates(order, s.rows.Keys)
    ensures var t := ApplyAll(s, IngestPlan(tc, s, rebuild, vis, repo, order));
            EffectiveVisibility(t, None) == vis && EffectiveVisibility(t, Some(other)) == other
    ensures EffectiveVisibility(VaultState(map[], None, None), None) == Pub
    ensures forall text :: EffectiveVisibility(s.(marker := Some(text)), None) == Pub
                           && EffectiveVisibility(s.(marker := Some(text)), Some(other)) == other
  {
    IngestLookup(tc, s, rebuild, vis, repo, order, "");
  }

  // ---------------------------------------------------------------- limits

  /** The breaker trips at the third failure in a row and not before. */
  lemma ThirdFailureIsTheFirstToTrip(verdict: Path -> Verdict, files: seq<Path>)
    requires |files| >= 3 && verdict(files[0]) == verdict(files[1]) == verdict(files[2]) == ParseFailed
    ensures !Trips(verdict, files, 0) && !Trips(verdict, files, 1) && Trips(verdict, files, 2)
  {
    StreakStep(verdict, files, 0);
    StreakStep(verdict, files, 1);
    StreakStep(verdict, files, 2);
  }

  /** A run is refused from the third recorded attempt on, however the number is spelled; a marker that holds no
      number counts as none. */
  lemma RefusedFromThree(s: VaultState, n: nat, plus: bool, before: string, after: string)
    requires n <= U32_MAX
    requires (forall c :: c in before ==> IsWhitespace(c)) && forall c :: c in after ==> IsWhitespace(c)
    ensures Refused(s.(marker := Some(before + ((if plus then "+" else "") + Decimal(n)) + after))) <==> n >= 3
    ensures !Refused(s.(marker := Some("interrupted"))) && !Refused(s.(marker := None))
  {
    ParseSpelled(n, U32_MAX, plus, before, after);
    NotANumber();
  }

  lemma NotANumber()
    ensures ReadAttempts("interrupted") == 0
  {
    var s := "interrupted";
    assert !IsWhitespace(s[0]) && !IsWhitespace(s[|s| - 1]) && Trim(s) == s;
    assert !IsDigit(s[0]) && s[0] != '+';
  }
}
