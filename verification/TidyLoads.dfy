/** A tidy tree whose files are all there fails to load only by the depth and cycle guards. */
module TidyLoads {
  import opened Dockerfile
  import opened PostProcessDockerfile
  import opened LoadDockerfile
  import opened IncludeGuards
  import opened Interpreter
  import opened TidyTrees
  import opened LineInvariants
  import opened LineSteps
  import opened GatheredLines
  import opened IncludedFiles
  import opened UsedFiles
  import opened FlatRoots
  import opened RootIncludes
  import opened CompilerCorrectness

  /** Every reference of every file can be read. */
  ghost predicate AllPresent(w: World) {
    forall p, item :: p in w.files && item in w.files[p].items && RefOfItem(item).Some? ==>
      RefOfItem(item).value.path in w.files
  }

  predicate LoadsOrGuards(r: Result<seq<Instr>>) {
    r.Err? ==> GuardError(r.error)
  }

  lemma {:induction false} LoadByParts(w: World, path: string, c: LoadContext)
    requires path in w.files && c.level <= w.maxDepth && path !in c.chain
    ensures var f := w.files[path];
            var lines := Lines(w, f, c.level, c.chain + [path], |f.items|);
            Load(w, path, c) == if lines.Err? then lines else PostProcessed(w.hash, PostContext(w, f, c), lines.value)
  {
  }

  lemma {:induction false} GuardsFirst(w: World, path: string, c: LoadContext)
    requires c.level > w.maxDepth || path in c.chain
    ensures LoadsOrGuards(Load(w, path, c))
  {
  }

  lemma {:induction false} NoTargetNoError(hash: string -> string, c: Context, doc: seq<Instr>)
    requires !IsTarget(c.target)
    ensures PostProcessed(hash, c, doc).Ok?
  {
  }

  /** Without a target a file loads if its lines can be gathered. */
  lemma {:induction false} GatheredLoads(w: World, path: string, c: LoadContext)
    requires path in w.files && c.level <= w.maxDepth && path !in c.chain && !IsTarget(c.target)
    requires LoadsOrGuards(Lines(w, w.files[path], c.level, c.chain + [path], |w.files[path].items|))
    ensures LoadsOrGuards(Load(w, path, c))
  {
    LoadByParts(w, path, c);
    var lines := Lines(w, w.files[path], c.level, c.chain + [path], |w.files[path].items|);
    if lines.Ok? {
      NoTargetNoError(w.hash, PostContext(w, w.files[path], c), lines.value);
    }
  }

  lemma {:induction false} OneMoreLoads(w: World, f: File, level: nat, chain: seq<string>, n: nat)
    requires level <= w.maxDepth && n < |f.items| && LoadsOrGuards(Lines(w, f, level, chain, n))
    requires LoadsOrGuards(LoadOf(w, f.items[n], false, level, chain))
    ensures LoadsOrGuards(Lines(w, f, level, chain, n + 1))
  {
  }

  // Body text

  /** A file with body instructions only. */
  lemma {:induction false} SnippetLoadsOrGuards(w: World, path: string, c: LoadContext, depth: nat)
    requires AllPresent(w) && path in w.files && !IsTarget(c.target)
    requires c.level <= w.maxDepth ==> Snippet(w, w.files[path], depth) && w.maxDepth <= c.level + depth
    ensures LoadsOrGuards(Load(w, path, c))
    decreases depth, 2, 0
  {
    if c.level > w.maxDepth || path in c.chain {
      GuardsFirst(w, path, c);
    } else {
      SnippetLinesOrGuards(w, path, c.level, c.chain + [path], depth, |w.files[path].items|);
      GatheredLoads(w, path, c);
    }
  }

  lemma {:induction false} SnippetLinesOrGuards(w: World, path: string, level: nat, chain: seq<string>, depth: nat,
                                                n: nat)
    requires AllPresent(w) && path in w.files && n <= |w.files[path].items|
    requires Snippet(w, w.files[path], depth) && level <= w.maxDepth <= level + depth
    ensures LoadsOrGuards(Lines(w, w.files[path], level, chain, n))
    decreases depth, 1, n
  {
    if n > 0 {
      var item := w.files[path].items[n - 1];
      SnippetLinesOrGuards(w, path, level, chain, depth, n - 1);
      assert item in w.files[path].items;
      if item.Include? {
        InlineLoadsOrGuards(w, item.ref, ChildOf(w, item, level, chain), depth);
      }
      OneMoreLoads(w, w.files[path], level, chain, n - 1);
    }
  }

  lemma {:induction false} InlineLoadsOrGuards(w: World, ref: Ref, c: LoadContext, depth: nat)
    requires AllPresent(w) && ref.path in w.files && !IsTarget(c.target)
    requires InlineTo(w, Include(ref), depth) && w.maxDepth < c.level + depth
    ensures LoadsOrGuards(Load(w, ref.path, c))
    decreases depth, 0, 0
  {
    if depth == 0 {
      GuardsFirst(w, ref.path, c);
    } else {
      SnippetLoadsOrGuards(w, ref.path, c, depth - 1);
    }
  }

  // Files that are brought in

  lemma {:induction false} FileAccepted(s: Site, ext: set<string>, ref: Ref, c: LoadContext, isRootUser: bool)
    requires SiteReady(s) && Here(s, ref.path) && MeansApart(s, ref.path, c.target)
    requires s.level == c.level && s.chain == c.chain + [ref.path] && ref.path !in c.chain
    requires c.level > 0 && c.alias == Some(s.w.slug(ref.aliasBase)) && !c.isRootInclude
    requires AliasFits(s.w, s.ext, s.f.display, s.w.slug(ref.aliasBase))
    requires ChildOk(s.w, s.known, ext, isRootUser, ref, c.target)
    requires LinesAt(s, |s.f.items|).Ok?
    ensures Load(s.w, ref.path, c).Ok?
  {
    LoadByParts(s.w, ref.path, c);
    LinesGathered(s, |s.f.items|);
    var v := FileOutcome(s, ext, ref, PostContext(s.w, s.f, c), isRootUser);
  }

  /** The files that the site refers to are there, and those it brings in meet the demands. */
  ghost predicate Sources(s: Site, root: string) {
    && Parent(s, root) && !s.flat
    && forall i: nat :: i < |s.f.items| && RefOfItem(s.f.items[i]).Some? ==>
         RefOfItem(s.f.items[i]).value.path in s.w.files
  }

  lemma {:induction false} UsedSources(s: Site, root: string, path: string)
    requires Tidy(s.w, root, s.known) && AllPresent(s.w) && InTree(s, root, path)
    ensures Sources(s, root)
  {
    TreeParent(s, root, path);
    forall i: nat | i < |s.f.items| && RefOfItem(s.f.items[i]).Some?
      ensures RefOfItem(s.f.items[i]).value.path in s.w.files
    {
      assert s.f.items[i] in s.w.files[path].items;
    }
  }

  lemma {:induction false} UsedFileAccepted(s: Site, root: string, i: nat, c: LoadContext)
    requires Tidy(s.w, root, s.known) && Parent(s, root) && s.level < s.w.maxDepth
    requires ScopedAt(s, i) && RefAt(s, i).path in s.w.files && c == ContextAt(s, i)
    requires InTree(ChildSite(s, i), root, RefAt(s, i).path) && RefAt(s, i).path !in s.chain
    requires LinesAt(ChildSite(s, i), |ChildSite(s, i).f.items|).Ok?
    ensures Load(s.w, RefAt(s, i).path, c).Ok?
  {
    assert Demands(s, root, i);
    ChildHere(s, i);
    FileMeans(ChildSite(s, i), root, RefAt(s, i).path, TargetOf(s.f.items[i]), s.ext, s.isRoot, RefAt(s, i));
    FileAccepted(ChildSite(s, i), s.ext, RefAt(s, i), c, s.isRoot);
  }

  lemma {:induction false} UsedInTree(s: Site, root: string, i: nat)
    requires Parent(s, root) && ScopedAt(s, i) && RefAt(s, i).path in s.w.files
    requires s.level < s.w.maxDepth && RefAt(s, i).path !in s.chain
    ensures InTree(ChildSite(s, i), root, RefAt(s, i).path) && ChildSite(s, i).level == s.level + 1
    ensures ChildSite(s, i).w == s.w && ChildSite(s, i).known == s.known
  {
    assert Demands(s, root, i);
    ChildHere(s, i);
  }

  lemma {:induction false} LinesErrLoads(w: World, path: string, c: LoadContext)
    requires path in w.files && c.level <= w.maxDepth && path !in c.chain
    requires var lines := Lines(w, w.files[path], c.level, c.chain + [path], |w.files[path].items|);
             LoadsOrGuards(lines) && (lines.Ok? ==> Load(w, path, c).Ok?)
    ensures LoadsOrGuards(Load(w, path, c))
  {
    LoadByParts(w, path, c);
  }

  lemma {:induction false} UsedAccepted(s: Site, root: string, i: nat, c: LoadContext)
    requires Tidy(s.w, root, s.known) && Parent(s, root) && ScopedAt(s, i)
    requires RefAt(s, i).path in s.w.files && c == ContextAt(s, i)
    requires s.level < s.w.maxDepth && RefAt(s, i).path !in s.chain
    ensures LinesAt(ChildSite(s, i), |ChildSite(s, i).f.items|).Ok? ==> Load(s.w, RefAt(s, i).path, c).Ok?
  {
    UsedInTree(s, root, i);
    if LinesAt(ChildSite(s, i), |ChildSite(s, i).f.items|).Ok? {
      UsedFileAccepted(s, root, i, c);
    }
  }

  lemma {:induction false} ChildLinesAre(s: Site, i: nat, path: string, c: LoadContext)
    requires i < |s.f.items| && Brings(s.w, s.f.items[i]) && path == RefAt(s, i).path && path in s.w.files
    requires s.level < s.w.maxDepth && c == ContextAt(s, i)
    ensures var t := ChildSite(s, i);
            && t.level <= t.w.maxDepth
            && LinesAt(t, |t.f.items|)
               == Lines(s.w, s.w.files[path], c.level, c.chain + [path], |s.w.files[path].items|)
  {
    ChildHere(s, i);
  }

  lemma {:induction false} LinesThenLoad(s: Site, root: string, i: nat, path: string, c: LoadContext)
    requires Tidy(s.w, root, s.known) && Parent(s, root) && ScopedAt(s, i) && s.level < s.w.maxDepth
    requires path == RefAt(s, i).path && path in s.w.files && c == ContextAt(s, i) && path !in s.chain
    requires InTree(ChildSite(s, i), root, path)
    requires LoadsOrGuards(LinesAt(ChildSite(s, i), |ChildSite(s, i).f.items|))
    ensures LoadsOrGuards(Load(s.w, path, c))
  {
    ChildLinesAre(s, i, path, c);
    UsedAccepted(s, root, i, c);
    LinesErrLoads(s.w, path, c);
  }

  /** A file that instruction i brings in. */
  lemma {:induction false} UseLoadsOrGuards(s: Site, root: string, i: nat)
    requires Tidy(s.w, root, s.known) && AllPresent(s.w) && Sources(s, root) && ScopedAt(s, i)
    ensures LoadsOrGuards(LoadOf(s.w, s.f.items[i], false, s.level, s.chain))
    decreases FuelAt(s), 0, i
  {
    var path, c := RefAt(s, i).path, ContextAt(s, i);
    if c.level > s.w.maxDepth || path in c.chain {
      GuardsFirst(s.w, path, c);
    } else {
      UsedLoadOrGuard(s, root, i, path, c);
    }
  }

  lemma {:induction false} UsedLoadOrGuard(s: Site, root: string, i: nat, path: string, c: LoadContext)
    requires Tidy(s.w, root, s.known) && AllPresent(s.w) && Sources(s, root) && ScopedAt(s, i)
    requires path == RefAt(s, i).path && c == ContextAt(s, i) && s.level < s.w.maxDepth && path !in s.chain
    requires path in s.w.files
    ensures LoadsOrGuards(Load(s.w, path, c))
    decreases FuelAt(s), 0, -1
  {
    var t := ChildSite(s, i);
    UsedInTree(s, root, i);
    UsedSources(t, root, path);
    LinesLoadOrGuard(t, root, |t.f.items|);
    LinesThenLoad(s, root, i, path, c);
  }

  lemma {:induction false} LinesLoadOrGuard(s: Site, root: string, n: nat)
    requires Tidy(s.w, root, s.known) && AllPresent(s.w) && Sources(s, root) && n <= |s.f.items|
    requires s.level > 0 || (root in s.w.files && s == RootSite(s.w, root, s.known))
    ensures LoadsOrGuards(LinesAt(s, n))
    decreases FuelAt(s), 1, n
  {
    if n > 0 {
      LinesLoadOrGuard(s, root, n - 1);
      ItemLoadsOrGuards(s, root, n - 1);
      OneMoreLoads(s.w, s.f, s.level, s.chain, n - 1);
    }
  }

  lemma {:induction false} ItemLoadsOrGuards(s: Site, root: string, n: nat)
    requires Tidy(s.w, root, s.known) && AllPresent(s.w) && Sources(s, root) && n < |s.f.items|
    requires s.level > 0 || (root in s.w.files && s == RootSite(s.w, root, s.known))
    ensures LoadsOrGuards(LoadOf(s.w, s.f.items[n], false, s.level, s.chain))
    decreases FuelAt(s), 1, n
  {
    var item := s.f.items[n];
    if Brings(s.w, item) && ScopedAt(s, n) {
      UseLoadsOrGuards(s, root, n);
    } else if item.Include? {
      if Inline(s.w, item) {
        InlineLoadsOrGuards(s.w, item.ref, ChildOf(s.w, item, s.level, s.chain), s.w.maxDepth);
      } else {
        IncludeLoadsOrGuards(s, root, n);
      }
    }
  }

  // INCLUDEs of the root

  /** A file with stages that the root includes. */
  lemma {:induction false} IncludeLoadsOrGuards(s: Site, root: string, n: nat)
    requires Tidy(s.w, root, s.known) && AllPresent(s.w) && Sources(s, root) && n < |s.f.items|
    requires root in s.w.files && s == RootSite(s.w, root, s.known) && StageInclude(s.w, s.f.items[n])
    ensures LoadsOrGuards(Load(s.w, s.f.items[n].ref.path, ChildOf(s.w, s.f.items[n], 0, [root])))
    decreases FuelAt(s), 0, n
  {
    var path, c := s.f.items[n].ref.path, ChildOf(s.w, s.f.items[n], 0, [root]);
    if c.level > s.w.maxDepth || path in c.chain {
      GuardsFirst(s.w, path, c);
    } else {
      assert c.chain + [path] == [root, path];
      var t := IncludeSite(s.w, root, s.known, path);
      IncludedSources(s.w, root, s.known, n);
      LinesLoadOrGuard(t, root, |t.f.items|);
      GatheredLoads(s.w, path, c);
    }
  }

  lemma {:induction false} IncludedSources(w: World, root: string, known: Outlines, n: nat)
    requires Tidy(w, root, known) && AllPresent(w) && root in w.files && n < |w.files[root].items| && w.maxDepth > 0
    requires StageInclude(w, w.files[root].items[n])
    ensures Sources(IncludeSite(w, root, known, w.files[root].items[n].ref.path), root)
  {
    var path := w.files[root].items[n].ref.path;
    var t := IncludeSite(w, root, known, path);
    IncludeReady(w, root, known, n);
    forall i: nat | i < |t.f.items| && RefOfItem(t.f.items[i]).Some?
      ensures RefOfItem(t.f.items[i]).value.path in w.files
    {
      assert t.f.items[i] in w.files[path].items;
    }
  }

  lemma {:induction false} RootSources(w: World, root: string, known: Outlines)
    requires Tidy(w, root, known) && AllPresent(w) && root in w.files
    ensures Sources(RootSite(w, root, known), root)
  {
    var s := RootSite(w, root, known);
    RootParent(w, root, known);
    forall i: nat | i < |s.f.items| && RefOfItem(s.f.items[i]).Some?
      ensures RefOfItem(s.f.items[i]).value.path in w.files
    {
      assert s.f.items[i] in w.files[root].items;
    }
  }

  lemma {:induction false} RootLoadsOrGuards(w: World, root: string, known: Outlines)
    requires Tidy(w, root, known) && AllPresent(w) && root in w.files
    ensures LoadsOrGuards(Load(w, root, ROOT_CONTEXT))
  {
    RootSources(w, root, known);
    LinesLoadOrGuard(RootSite(w, root, known), root, |w.files[root].items|);
    assert [] + [root] == [root];
    GatheredLoads(w, root, ROOT_CONTEXT);
  }

  /** A tidy tree whose files are all there is written exactly when no walk through its includes
      has more edges than the limit, and then it is written correctly. */
  lemma {:induction false} TidyTreeIsWritten(w: World, root: string, known: Outlines)
    requires Tidy(w, root, known) && AllPresent(w) && root in w.files
    requires Load(w, root, ROOT_CONTEXT).Ok? ==> LinesSafe(w, root)
    ensures var r := Load(w, root, ROOT_CONTEXT);
            && (r.Ok? <==> !TooDeep(w, root))
            && (r.Ok? ==> Stages(r.value) != []
                          && Meaning(w, root, None, true, w.maxDepth + 1) == Some(LastImage(map[], Stages(r.value))))
  {
    GuardsAreExact(w, root);
    RootLoadsOrGuards(w, root, known);
    if Load(w, root, ROOT_CONTEXT).Ok? {
      CompilerCorrect(w, root, known);
    }
  }
}
