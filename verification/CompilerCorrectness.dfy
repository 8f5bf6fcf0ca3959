/** The compiler means what it should: the written Dockerfile builds the image that reading the
    include tree directly gives. */
module CompilerCorrectness {
  import opened Dockerfile
  import opened Renaming
  import opened SanitizeStageNames
  import opened DeduplicateStages
  import opened PostProcessDockerfile
  import opened LoadDockerfile
  import opened IncludeGuards
  import opened Interpreter
  import opened TidyTrees
  import opened LineInvariants
  import opened LineMeaning
  import opened GatheredLines
  import opened IncludedFiles
  import opened Readings
  import opened UsedFiles
  import opened SanitizedRoots
  import opened FlatRoots
  import opened RootIncludes
  import opened RootNames

  /** A stage of the root, or of a file that it INCLUDEs, has the name u, and no INCLUDE below hides
      it. */
  ghost predicate RootStage(w: World, root: string, known: Outlines, u: string)
    requires root in w.files
  {
    var f := FlatFile(w, w.files[root]);
    (exists k: nat :: NamesStage(f, true, k, u)) && u !in Hidden(w, known, f, true, |f.items|)
  }

  /** What the passes over the root and over the files it INCLUDEs rely on beyond a tidy tree. */
  ghost predicate LinesSafe(w: World, root: string) {
    && PassesSafe(w.hash, RootLines(w, root), WholeText(w, root))
    && (root in w.files ==> IncludesKeepLast(w, root))
  }

  lemma {:induction false} NoAlias(q: Request, doc: seq<Instr>, total: nat)
    requires q.alias.None?
    ensures WithAlias(q, doc, total) == doc
  {
    if doc != [] {
      NoAlias(q, doc[..|doc| - 1], total);
    }
  }

  lemma {:induction false} RootOutput(w: World, root: string)
    requires Load(w, root, ROOT_CONTEXT).Ok?
    ensures root in w.files && Lines(w, w.files[root], 0, [root], |w.files[root].items|) == Ok(RootLines(w, root))
    ensures Load(w, root, ROOT_CONTEXT) == Ok(Sanitized(w.hash, Deduplicated(RootLines(w, root))))
  {
    LoadParts(w, root, ROOT_CONTEXT);
    assert [] + [root] == [root];
    var f := w.files[root];
    var doc := RootLines(w, root);
    NoAlias(RequestOf(PostContext(w, f, ROOT_CONTEXT)), doc, FromCount(doc));
  }

  // The text of the root

  /** What the stages build is what reading gave, and every stage of the root is as reading gave it. */
  ghost predicate Built(w: World, root: string, known: Outlines, ss: seq<Stage>, q: Progress)
    requires root in w.files
  {
    && ss != [] && q.started && q.img == LastImage(map[], ss)
    && forall u :: RootStage(w, root, known, u) ==>
         u in Declared(ss) && u in Close(q) && Close(q)[u] == Resolve(EnvOf(map[], ss), u)
  }

  lemma {:induction false} SiteBuilt(s: Site, n: nat, ss: seq<Stage>, q: Progress, p: Progress, u: string)
    requires SiteReady(s) && n <= |s.f.items| && Kept(s, n, ss, p) && Reads(s, n, NOTHING, q, p)
    requires u in OwnAt(s, n) && u !in HiddenAt(s, n)
    ensures u in Declared(ss) && u in Close(q) && Close(q)[u] == Resolve(EnvOf(map[], ss), u)
  {
    var k := NamedStage(s, n, ss, p, u);
    DeclaredIff(ss, u);
    ClosesAgree(s, n, NOTHING, q, p);
    assert SeenAs(OwnAt(s, n), Close(NOTHING), Close(q), Close(p), u);
  }

  lemma {:induction false} RootKeptAll(w: World, root: string, known: Outlines, n: nat) returns (q: Progress)
    requires root in w.files && n == |w.files[root].items| && RootKept(w, root, known, n)
    ensures var s := FlatSite(w, root, known);
            RootKeptWith(s, RootSite(w, root, known), n, |s.f.items|, WholeText(w, root), q)
  {
    q :| RootKeptWith(FlatSite(w, root, known), RootSite(w, root, known), n, |Flat(w, w.files[root], n)|,
                      RootText(w, root, n), q);
  }

  lemma {:induction false} RootReady(w: World, root: string, known: Outlines) returns (q: Progress)
    requires Tidy(w, root, known) && root in w.files && IncludesKeepLast(w, root)
    requires Lines(w, w.files[root], 0, [root], |w.files[root].items|).Ok?
    ensures Anchored(WholeText(w, root)) && Stages(WholeText(w, root)) != []
    ensures ReadAt(RootSite(w, root, known), |w.files[root].items|, NOTHING) == Some(q)
    ensures var s := FlatSite(w, root, known); var n := |s.f.items|;
            && SiteReady(s) && Kept(s, n, Stages(WholeText(w, root)), Apart(s, n))
            && Reads(s, n, NOTHING, q, Apart(s, n))
  {
    FlatReady(w, root, known);
    RootGathered(w, root, known, |w.files[root].items|);
    q := RootKeptAll(w, root, known, |w.files[root].items|);
  }

  lemma {:induction false} FlatStageName(w: World, root: string, known: Outlines, u: string)
    requires root in w.files && RootStage(w, root, known, u)
    ensures var s := FlatSite(w, root, known); u in OwnAt(s, |s.f.items|) && u !in HiddenAt(s, |s.f.items|)
  {
    var s := FlatSite(w, root, known);
    var k: nat :| NamesStage(s.f, true, k, u);
    PlainIsOwn(s, k, |s.f.items|, u);
  }

  lemma {:induction false} LastBuilt(s: Site, n: nat, ss: seq<Stage>, q: Progress, p: Progress)
    requires n <= |s.f.items| && Kept(s, n, ss, p) && Reads(s, n, NOTHING, q, p) && ss != []
    ensures q.started && q.img == LastImage(map[], ss)
  {
  }

  /** The text of the root builds what reading the root gives. */
  lemma {:induction false} RootBuilt(w: World, root: string, known: Outlines) returns (q: Progress)
    requires Tidy(w, root, known) && root in w.files && IncludesKeepLast(w, root)
    requires Lines(w, w.files[root], 0, [root], |w.files[root].items|).Ok?
    ensures Read(w, w.files[root], 2, |w.files[root].items|, NOTHING, w.maxDepth + 1) == Some(q)
    ensures Built(w, root, known, Stages(WholeText(w, root)), q)
  {
    q := RootReady(w, root, known);
    var s, ss := FlatSite(w, root, known), Stages(WholeText(w, root));
    var n, p := |s.f.items|, Apart(s, |s.f.items|);
    forall u | RootStage(w, root, known, u)
      ensures u in Declared(ss) && u in Close(q) && Close(q)[u] == Resolve(EnvOf(map[], ss), u)
    {
      FlatStageName(w, root, known, u);
      SiteBuilt(s, n, ss, q, p, u);
    }
    LastBuilt(s, n, ss, q, p);
  }

  lemma {:induction false} TextScoped(w: World, root: string, known: Outlines)
    requires Tidy(w, root, known) && root in w.files && IncludesKeepLast(w, root)
    requires Lines(w, w.files[root], 0, [root], |w.files[root].items|).Ok?
    ensures var ss := Stages(WholeText(w, root));
            && Anchored(WholeText(w, root)) && ss != []
            && WellScoped(ss) && Uniform(ss) && Free(ss) <= known(root).ext
  {
    var q := RootReady(w, root, known);
    var s := FlatSite(w, root, known);
    OwnKnown(s, |s.f.items|);
    SyntaxScoped(s, |s.f.items|, OwnAt(s, |s.f.items|), Stages(WholeText(w, root)));
  }

  /** The gathered lines are the text, up to names that an INCLUDE sanitised. */
  lemma {:induction false} LinesAlike(w: World, root: string)
    requires HexDigest(w.hash) && root in w.files && Anchored(WholeText(w, root))
    requires Lines(w, w.files[root], 0, [root], |w.files[root].items|) == Ok(RootLines(w, root))
    ensures Anchored(RootLines(w, root))
    ensures Alike(w.hash, NamesOfBoth(RootLines(w, root), WholeText(w, root)), RootLines(w, root), WholeText(w, root))
  {
    var lines, text := RootLines(w, root), WholeText(w, root);
    var names := NamesOfBoth(lines, text);
    RootTextAlike(w, root, |w.files[root].items|, names);
    AlikeRenamed(w.hash, names, lines, text);
    StagesOfRenamed(SanitizeRenaming(w.hash, names), lines);
    StagesOfRenamed(SanitizeRenaming(w.hash, names), text);
  }

  lemma {:induction false} RootFileMeaning(w: World, root: string, p: Progress)
    requires root in w.files && p.started
    requires Read(w, w.files[root], 2, |w.files[root].items|, NOTHING, w.maxDepth + 1) == Some(p)
    ensures Meaning(w, root, None, true, w.maxDepth + 1) == Some(p.img)
  {
  }

  lemma {:induction false} RootMeaning(w: World, root: string, u: string, p: Progress)
    requires root in w.files && p.started && u in Close(p) && u != ""
    requires Read(w, w.files[root], 2, |w.files[root].items|, NOTHING, w.maxDepth + 1) == Some(p)
    ensures Meaning(w, root, Some(u), true, w.maxDepth + 1) == Some(Close(p)[u])
  {
  }

  /** The passes over the root keep the image of its text and of every stage. */
  lemma {:induction false} RootPasses(w: World, root: string, known: Outlines)
    requires Tidy(w, root, known) && Load(w, root, ROOT_CONTEXT).Ok? && LinesSafe(w, root)
    ensures var out, text := Load(w, root, ROOT_CONTEXT).value, Stages(WholeText(w, root));
            && Anchored(out) && Stages(out) != [] && text != [] && Free(Stages(out)) <= known(root).ext
            && LastImage(map[], Stages(out)) == LastImage(map[], text)
            && forall u :: u in Declared(text) ==>
                 Resolve(EnvOf(map[], Stages(out)), SanitizeStageName(w.hash, u)) == Resolve(EnvOf(map[], text), u)
  {
    RootOutput(w, root);
    TextScoped(w, root, known);
    LinesAlike(w, root);
    PassesKeepMeaning(w.hash, RootLines(w, root), WholeText(w, root));
  }

  /** Compiler correctness. The written Dockerfile builds the image that the root means, and
      every reference in it that is not external comes after a stage that declares it. */
  lemma {:induction false} CompilerCorrect(w: World, root: string, known: Outlines)
    requires Tidy(w, root, known) && Load(w, root, ROOT_CONTEXT).Ok? && LinesSafe(w, root)
    ensures var out := Load(w, root, ROOT_CONTEXT).value;
            && Anchored(out) && Stages(out) != [] && Free(Stages(out)) <= known(root).ext
            && Meaning(w, root, None, true, w.maxDepth + 1) == Some(LastImage(map[], Stages(out)))
  {
    RootOutput(w, root);
    var p := RootBuilt(w, root, known);
    RootPasses(w, root, known);
    RootFileMeaning(w, root, p);
  }

  /** Every named stage of the root keeps its image under its sanitised name. */
  lemma {:induction false} StagesCorrect(w: World, root: string, known: Outlines, u: string)
    requires Tidy(w, root, known) && Load(w, root, ROOT_CONTEXT).Ok? && LinesSafe(w, root)
    requires root in w.files && RootStage(w, root, known, u) && u != ""
    ensures var out := Stages(Load(w, root, ROOT_CONTEXT).value);
            Meaning(w, root, Some(u), true, w.maxDepth + 1)
            == Some(Resolve(EnvOf(map[], out), SanitizeStageName(w.hash, u)))
  {
    RootOutput(w, root);
    var p := RootBuilt(w, root, known);
    RootPasses(w, root, known);
    RootMeaning(w, root, u, p);
  }
}
