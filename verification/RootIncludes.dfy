/** INCLUDE at the root: the compiler loads the file and deduplicates it on its own before it puts
    the result in place. The stages are those of the root with the file's instructions written
    out. */
module RootIncludes {
  import opened Dockerfile
  import opened DeduplicateStages
  import opened PostProcessDockerfile
  import opened LoadDockerfile
  import opened IncludeGuards
  import opened Interpreter
  import opened TidyTrees
  import opened Snippets
  import opened LineInvariants
  import opened LineMeaning
  import opened LineSteps
  import opened GatheredLines
  import opened Readings
  import opened UsedFiles
  import opened FlatRoots
  import opened ThinnedLines

  // The INCLUDEd file, instruction by instruction

  /** Instruction n of the root includes the file of t; k is where its instructions start in the
      flat root. */
  ghost predicate Inside(s: Site, k: nat, t: Site, root: string) {
    && s.w == t.w && s.known == t.known && s.ext == t.ext && s.isRoot && t.isRoot && s.flat && !t.flat
    && s.level == 0 && s.chain == [root]
    && t.level == 1 <= t.w.maxDepth && root in t.chain
    && k + |t.f.items| <= |s.f.items|
    && forall m :: 0 <= m < |t.f.items| ==> s.f.items[k + m] == t.f.items[m]
  }

  lemma {:induction false} InsideParent(s: Site, k: nat, t: Site, root: string)
    requires Inside(s, k, t, root) && Parent(s, root) && Grounded(t)
    ensures Parent(t, root)
  {
    forall m: nat | ScopedAt(t, m) ensures Demands(t, root, m) {
      assert s.f.items[k + m] == t.f.items[m];
      assert ScopedAt(s, k + m) && Demands(s, root, k + m);
    }
  }

  /** Loading at the root and loading in the INCLUDEd file give the same. */
  lemma {:induction false} SameLoads(s: Site, i: nat, t: Site, m: nat, root: string)
    requires s.w == t.w && s.flat && s.level == 0 && s.chain == [root] && t.level == 1 && root in t.chain
    requires i < |s.f.items| && m < |t.f.items| && s.f.items[i] == t.f.items[m] && Brings(t.w, t.f.items[m])
    requires Load(t.w, RefAt(t, m).path, ContextAt(t, m)).Ok?
    ensures Load(s.w, RefAt(s, i).path, ContextAt(s, i)) == Load(t.w, RefAt(t, m).path, ContextAt(t, m))
  {
    LoadShallower(t.w, RefAt(t, m).path, ContextAt(t, m), ContextAt(s, i));
  }

  lemma {:induction false} InsideSame(s: Site, k: nat, t: Site, root: string, m: nat)
    requires Inside(s, k, t, root) && Grounded(s) && Grounded(t)
    requires m < |t.f.items| && LinesAt(t, m + 1).Ok?
    ensures Same(s, k + m, t, m)
  {
    assert s.f.items[k + m] == t.f.items[m];
    if Brings(t.w, t.f.items[m]) {
      ChildLoaded(t, m);
      assert GroundedAt(s, k + m) && GroundedAt(t, m);
      SameLoads(s, k + m, t, m, root);
    }
  }

  lemma {:induction false} InsideScoped(s: Site, k: nat, t: Site, root: string, m: nat)
    requires Inside(s, k, t, root) && m < |t.f.items| && Brings(t.w, t.f.items[m])
    ensures ScopedAt(t, m)
  {
  }

  lemma {:induction false} HasStageGrows(w: World, f: File, n: nat, m: nat)
    requires n <= m <= |f.items| && HasStage(w, f, n)
    ensures HasStage(w, f, m)
    decreases m
  {
    if n < m {
      HasStageGrows(w, f, n, m - 1);
    }
  }

  /** The included file's own lines: if it has a FROM then nothing is built before it, and if it
      has none then its lines have none. */
  ghost predicate OwnShape(t: Site, m: nat, g: seq<Instr>)
    requires m <= |t.f.items|
  {
    if HasStage(t.w, t.f, |t.f.items|) then Anchored(g) && (Stages(g) != [] <==> HasStage(t.w, t.f, m)) else FromFree(g)
  }

  lemma {:induction false} ShapeAppended(t: Site, m: nat, g: seq<Instr>)
    requires t.isRoot && StepOk(t, m) && TextOk(t, m) && !t.f.items[m].CopyFile? && IncludedOk(t.w, t.f)
    requires OwnShape(t, m, g)
    ensures OwnShape(t, m + 1, g + ItemLines(t, m))
  {
    if HasStage(t.w, t.f, |t.f.items|) {
      AppendStep(t, m, g);
    } else if StartsStage(t.w, t.f.items[m]) {
      HasStageGrows(t.w, t.f, m + 1, |t.f.items|);
    } else {
      InlineFramed(t, m);
    }
  }

  lemma {:induction false} ShapeCopied(t: Site, m: nat, g: seq<Instr>)
    requires t.isRoot && StepOk(t, m) && t.f.items[m].CopyFile? && IncludedOk(t.w, t.f) && OwnShape(t, m, g)
    ensures Anchored(g) && Stages(g) != []
    ensures OwnShape(t, m + 1,
                     Framed(RefAt(t, m).text, t.f.display, "fromParam", Child(t, m).value) + g + [CopyLine(t, m)])
  {
    HasStageGrows(t.w, t.f, m, |t.f.items|);
    CopyStep(t, m, [], g);
    var all := Framed(RefAt(t, m).text, t.f.display, "fromParam", Child(t, m).value) + g + [CopyLine(t, m)];
    assert [] + all == all;
  }

  /** The root's lines `a`, and behind them the included file's lines so far. */
  ghost predicate InsideKept(s: Site, i: nat, t: Site, m: nat, a: seq<Instr>, g: seq<Instr>)
    requires m <= |t.f.items| && i <= |s.f.items|
  {
    Anchored(a + g) && OwnShape(t, m, g) && Kept(s, i, Stages(a + g), Apart(s, i))
  }

  lemma {:induction false} AppendedInside(s: Site, i: nat, t: Site, m: nat, a: seq<Instr>, g: seq<Instr>)
    requires Same(s, i, t, m) && StepOk(s, i) && StepOk(t, m) && TextOk(t, m) && t.isRoot && !t.f.items[m].CopyFile?
    requires Anchored(a + g)
    requires IsBody(s.w, s.f.items[i]) && Stages(a + g) == [] ==> Effective(InlineBody(s.w, s.f.items[i])) == []
    ensures Anchored(a + (g + ItemLines(t, m))) && Stages(a + (g + ItemLines(t, m))) == StepStages(s, i, Stages(a + g))
  {
    SameStages(s, i, t, m, Stages(a + g));
    AppendStep(t, m, a + g);
    assert a + (g + ItemLines(t, m)) == (a + g) + ItemLines(t, m);
  }

  lemma {:induction false} CopiedInside(s: Site, i: nat, t: Site, m: nat, a: seq<Instr>, g: seq<Instr>)
    requires Same(s, i, t, m) && StepOk(s, i) && StepOk(t, m) && t.isRoot && t.f.items[m].CopyFile?
    requires Anchored(a) && IncludedOk(t.w, t.f) && OwnShape(t, m, g)
    ensures Stages(g) != [] && Stages(a + g) == Stages(a) + Stages(g)
    ensures var g' := Framed(RefAt(t, m).text, t.f.display, "fromParam", Child(t, m).value) + g + [CopyLine(t, m)];
            && Anchored(a + g') && OwnShape(t, m + 1, g')
            && Stages(a + g') == Stages(a) + StepStages(s, i, Stages(g))
  {
    ShapeCopied(t, m, g);
    StagesConcat(a, g);
    SameStages(s, i, t, m, Stages(g));
    CopyStep(t, m, a, g);
  }

  lemma {:induction false} InsideAppend(s: Site, i: nat, t: Site, m: nat, a: seq<Instr>, g: seq<Instr>)
    requires SiteReady(s) && s.isRoot && t.isRoot && IncludedOk(t.w, t.f)
    requires Same(s, i, t, m) && StepOk(s, i) && StepOk(t, m) && TextOk(t, m) && !t.f.items[m].CopyFile?
    requires InsideKept(s, i, t, m, a, g)
    ensures InsideKept(s, i + 1, t, m + 1, a, g + ItemLines(t, m))
  {
    ShapeAppended(t, m, g);
    StepKept(s, i, Stages(a + g), Apart(s, i));
    AppendedInside(s, i, t, m, a, g);
    ApartNext(s, i);
  }

  lemma {:induction false} InsideCopy(s: Site, i: nat, t: Site, m: nat, a: seq<Instr>, g: seq<Instr>)
    requires SiteReady(s) && s.isRoot && t.isRoot && IncludedOk(t.w, t.f)
    requires Same(s, i, t, m) && StepOk(s, i) && StepOk(t, m) && t.f.items[m].CopyFile?
    requires Anchored(a) && InsideKept(s, i, t, m, a, g)
    ensures InsideKept(s, i + 1, t, m + 1, a,
                       Framed(RefAt(t, m).text, t.f.display, "fromParam", Child(t, m).value) + g + [CopyLine(t, m)])
  {
    CopiedInside(s, i, t, m, a, g);
    CopyFileKept(s, i, Stages(a), Stages(g), Apart(s, i));
    ApartNext(s, i);
  }

  /** The lines of the file, one instruction further. */
  lemma {:induction false} NextLines(t: Site, m: nat, g: seq<Instr>) returns (more: seq<Instr>)
    requires Grounded(t) && !t.flat && t.isRoot && StepOk(t, m) && LinesAt(t, m) == Ok(g) && LinesAt(t, m + 1).Ok?
    ensures LinesAt(t, m + 1) == Ok(more)
    ensures more == if t.f.items[m].CopyFile?
                    then Framed(RefAt(t, m).text, t.f.display, "fromParam", Child(t, m).value) + g + [CopyLine(t, m)]
                    else g + ItemLines(t, m)
  {
    more := LinesAt(t, m + 1).value;
    if t.f.items[m].CopyFile? {
      LinesCopy(t, m);
    } else {
      LinesAppend(t, m);
    }
  }

  lemma {:induction false} InsideLines(s: Site, i: nat, t: Site, m: nat, a: seq<Instr>, g: seq<Instr>, more: seq<Instr>)
    requires SiteReady(s) && s.isRoot && t.isRoot && IncludedOk(t.w, t.f)
    requires Same(s, i, t, m) && StepOk(s, i) && StepOk(t, m) && TextOk(t, m)
    requires Anchored(a) && InsideKept(s, i, t, m, a, g)
    requires more == if t.f.items[m].CopyFile?
                     then Framed(RefAt(t, m).text, t.f.display, "fromParam", Child(t, m).value) + g + [CopyLine(t, m)]
                     else g + ItemLines(t, m)
    ensures InsideKept(s, i + 1, t, m + 1, a, more)
  {
    if t.f.items[m].CopyFile? {
      InsideCopy(s, i, t, m, a, g);
    } else {
      InsideAppend(s, i, t, m, a, g);
    }
  }

  lemma {:induction false} InsideStep(s: Site, i: nat, t: Site, root: string, m: nat, a: seq<Instr>, g: seq<Instr>,
                                      start: Progress, q: Progress)
    returns (more: seq<Instr>, r: Progress)
    requires PartOf(s, t, root) && IncludedOk(t.w, t.f) && Same(s, i, t, m)
    requires StageInclude(t.w, t.f.items[m]) ==> ScopedAt(t, m)
    requires Anchored(a) && ReadAt(t, m, start) == Some(q) && Reads(s, i, NOTHING, q, Apart(s, i))
    requires LinesAt(t, m) == Ok(g) && LinesAt(t, m + 1).Ok? && InsideKept(s, i, t, m, a, g)
    ensures LinesAt(t, m + 1) == Ok(more) && InsideKept(s, i + 1, t, m + 1, a, more)
    ensures ReadAt(t, m + 1, start) == Some(r) && Reads(s, i + 1, NOTHING, r, Apart(s, i + 1))
  {
    FlatStepOk(s, i, t, m);
    TextLoaded(t, m);
    more := NextLines(t, m, g);
    InsideLines(s, i, t, m, a, g, more);
    r := SameRead(s, i, t, m, root, start, q, Apart(s, i));
    ApartNext(s, i);
  }

  lemma {:induction false} InsideNone(s: Site, k: nat, t: Site, a: seq<Instr>)
    requires t.level <= t.w.maxDepth && k <= |s.f.items|
    requires Anchored(a) && Kept(s, k, Stages(a), Apart(s, k))
    ensures LinesAt(t, 0) == Ok([]) && InsideKept(s, k, t, 0, a, [])
  {
    assert a + [] == a;
  }

  // What the INCLUDE puts in place

  lemma {:induction false} FramedBehind(a: seq<Instr>, text: string, display: string, v: seq<Instr>)
    requires Anchored(a) && Anchored(v)
    ensures Anchored(a + Framed(text, display, "include", v))
    ensures Stages(a + Framed(text, display, "include", v)) == Stages(a) + Stages(v)
  {
    FramedStages(text, display, "include", v);
    StagesConcat(a, Framed(text, display, "include", v));
    AnchoredConcat(a, Framed(text, display, "include", v));
  }

  lemma {:induction false} FramedInline(a: seq<Instr>, text: string, display: string, v: seq<Instr>)
    requires FromFree(v) && Anchored(a) && Anchored(a + v)
    ensures Anchored(a + Framed(text, display, "include", v))
    ensures Stages(a + Framed(text, display, "include", v)) == Stages(a + v)
  {
    FramedSnippet(text, display, "include", v);
    StagesInline(a, v);
    if Stages(a) == [] {
      InlineAnchored(a, v);
    }
    StagesInline(a, Framed(text, display, "include", v));
  }

  lemma {:induction false} InlineAnchored(a: seq<Instr>, v: seq<Instr>)
    requires FromFree(v) && Anchored(a + v) && Stages(a) == []
    ensures Effective(v) == []
  {
    if v != [] {
      var v' := v[..|v| - 1];
      assert (a + v)[..|a + v| - 1] == a + v';
      StagesInline(a, v');
      InlineAnchored(a, v');
    }
  }

  lemma {:induction false} ThinnedLast(g: seq<Instr>)
    requires Anchored(g) && Stages(g) != [] && LastMetLast(Chunks(g))
    ensures var b, t := Stages(g), Stages(Deduplicated(g));
            Anchored(Deduplicated(g)) && Thinned(b, t) && t != [] && t[|t| - 1] == b[|b| - 1]
  {
    DeduplicationThins(g);
    LastStageKept(g);
  }

  lemma {:induction false} ThinnedStagesKept(s: Site, n: nat, a: seq<Instr>, g: seq<Instr>, p: Progress)
    requires SiteReady(s) && s.isRoot && n <= |s.f.items| && Anchored(a) && Anchored(g) && Stages(g) != []
    requires Kept(s, n, Stages(a + g), p) && LastMetLast(Chunks(g))
    ensures Anchored(Deduplicated(g)) && Kept(s, n, Stages(a) + Stages(Deduplicated(g)), p)
  {
    StagesConcat(a, g);
    ThinnedLast(g);
    KeptThinned(s, n, Stages(a), Stages(g), Stages(Deduplicated(g)), p);
  }

  lemma {:induction false} StagesThinnedKept(s: Site, n: nat, a: seq<Instr>, g: seq<Instr>, p: Progress, text: string,
                                             display: string)
    requires SiteReady(s) && s.isRoot && n <= |s.f.items| && Anchored(a) && Anchored(g) && Stages(g) != []
    requires Kept(s, n, Stages(a + g), p) && LastMetLast(Chunks(g))
    ensures Anchored(a + Framed(text, display, "include", Deduplicated(g)))
    ensures Kept(s, n, Stages(a + Framed(text, display, "include", Deduplicated(g))), p)
  {
    ThinnedStagesKept(s, n, a, g, p);
    FramedBehind(a, text, display, Deduplicated(g));
  }

  lemma {:induction false} InlineThinnedKept(s: Site, n: nat, a: seq<Instr>, g: seq<Instr>, p: Progress, text: string,
                                             display: string)
    requires n <= |s.f.items| && Anchored(a) && Anchored(a + g) && FromFree(g)
    requires Kept(s, n, Stages(a + g), p)
    ensures Anchored(a + Framed(text, display, "include", Deduplicated(g)))
    ensures Kept(s, n, Stages(a + Framed(text, display, "include", Deduplicated(g))), p)
  {
    NothingDeduplicated(g);
    FramedInline(a, text, display, g);
  }

  /** After the whole INCLUDE. */
  lemma {:induction false} IncludeThinned(s: Site, n: nat, t: Site, a: seq<Instr>, g: seq<Instr>, p: Progress,
                                          text: string, display: string)
    requires SiteReady(s) && s.isRoot && n <= |s.f.items| && Anchored(a) && Anchored(a + g)
    requires OwnShape(t, |t.f.items|, g)
    requires Kept(s, n, Stages(a + g), p) && LastMetLast(Chunks(g))
    ensures Anchored(a + Framed(text, display, "include", Deduplicated(g)))
    ensures Kept(s, n, Stages(a + Framed(text, display, "include", Deduplicated(g))), p)
  {
    if HasStage(t.w, t.f, |t.f.items|) {
      StagesThinnedKept(s, n, a, g, p, text, display);
    } else {
      InlineThinnedKept(s, n, a, g, p, text, display);
    }
  }

  // The whole root

  /** The last stage of every file that the root INCLUDEs stays last. */
  ghost predicate IncludesKeepLast(w: World, root: string)
    requires root in w.files
  {
    forall item :: item in w.files[root].items && StageInclude(w, item) ==>
      LastMetLast(Chunks(IncludedLines(w, root, item.ref.path)))
  }

  /** The file of t stands at instruction k of the flat root s. */
  ghost predicate Included(s: Site, k: nat, t: Site, root: string) {
    PartOf(s, t, root) && Inside(s, k, t, root) && IncludedOk(t.w, t.f)
  }

  /** After m instructions of the included file, which are instructions up to i of the flat root. */
  ghost predicate Reached(s: Site, i: nat, t: Site, m: nat, a: seq<Instr>, start: Progress) {
    exists g, q :: ReachedWith(s, i, t, m, a, start, g, q)
  }

  ghost predicate ReachedWith(s: Site, i: nat, t: Site, m: nat, a: seq<Instr>, start: Progress, g: seq<Instr>,
                              q: Progress) {
    && t.level <= t.w.maxDepth && m <= |t.f.items| && i <= |s.f.items|
    && LinesAt(t, m) == Ok(g) && InsideKept(s, i, t, m, a, g)
    && ReadAt(t, m, start) == Some(q) && Reads(s, i, NOTHING, q, Apart(s, i))
  }

  lemma {:induction false} InsideHere(s: Site, k: nat, t: Site, root: string, i: nat, m: nat)
    requires Included(s, k, t, root) && m < |t.f.items| && i == k + m && LinesAt(t, m + 1).Ok?
    ensures Same(s, i, t, m) && (StageInclude(t.w, t.f.items[m]) ==> ScopedAt(t, m)) && LinesAt(t, m).Ok?
  {
    InsideSame(s, k, t, root, m);
    LinesOkBefore(t.w, t.f, t.level, t.chain, m, m + 1);
    if Brings(t.w, t.f.items[m]) {
      InsideScoped(s, k, t, root, m);
    }
  }

  lemma {:induction false} ReachedMore(s: Site, k: nat, t: Site, root: string, i: nat, m: nat, a: seq<Instr>,
                                       start: Progress, g: seq<Instr>, q: Progress)
    returns (more: seq<Instr>, r: Progress)
    requires Included(s, k, t, root) && m < |t.f.items| && i == k + m && LinesAt(t, m + 1).Ok?
    requires Anchored(a) && ReachedWith(s, i, t, m, a, start, g, q)
    ensures ReachedWith(s, i + 1, t, m + 1, a, start, more, r)
  {
    InsideHere(s, k, t, root, i, m);
    more, r := InsideStep(s, i, t, root, m, a, g, start, q);
  }

  lemma {:induction false} ReachedNext(s: Site, k: nat, t: Site, root: string, i: nat, m: nat, l: nat, a: seq<Instr>,
                                       start: Progress)
    returns (j: nat)
    requires Included(s, k, t, root) && l == m + 1 <= |t.f.items| && i == k + m && LinesAt(t, l).Ok?
    requires Anchored(a) && Reached(s, i, t, m, a, start)
    ensures j == k + l && Reached(s, j, t, l, a, start)
  {
    var g, q :| ReachedWith(s, i, t, m, a, start, g, q);
    j := i + 1;
    var more, r := ReachedMore(s, k, t, root, i, m, a, start, g, q);
    assert ReachedWith(s, j, t, l, a, start, more, r);
  }

  lemma {:induction false} ReachedNone(s: Site, k: nat, t: Site, a: seq<Instr>, start: Progress)
    requires t.level <= t.w.maxDepth && k <= |s.f.items|
    requires Anchored(a) && Kept(s, k, Stages(a), Apart(s, k)) && Reads(s, k, NOTHING, start, Apart(s, k))
    ensures Reached(s, k, t, 0, a, start)
  {
    InsideNone(s, k, t, a);
    assert ReachedWith(s, k, t, 0, a, start, [], start);
  }

  lemma {:induction false} ReachedAll(s: Site, k: nat, t: Site, root: string, m: nat, a: seq<Instr>, start: Progress)
    returns (i: nat)
    requires Included(s, k, t, root) && m <= |t.f.items| && LinesAt(t, m).Ok?
    requires k <= |s.f.items| && Anchored(a) && Kept(s, k, Stages(a), Apart(s, k))
    requires Reads(s, k, NOTHING, start, Apart(s, k))
    ensures i == k + m && Reached(s, i, t, m, a, start)
    decreases m
  {
    if m == 0 {
      ReachedNone(s, k, t, a, start);
      i := k;
    } else {
      var less := m - 1;
      LinesOkBefore(t.w, t.f, t.level, t.chain, less, m);
      i := ReachedAll(s, k, t, root, less, a, start);
      i := ReachedNext(s, k, t, root, i, less, m, a, start);
    }
  }

  lemma {:induction false} IncludeSiteIs(w: World, root: string, known: Outlines, path: string)
    requires root in w.files && path in w.files && w.maxDepth > 0
    ensures var t := IncludeSite(w, root, known, path);
            && Grounded(t) && t.w == w && t.known == known && t.ext == known(root).ext && t.isRoot && !t.flat
            && t.level == 1 && t.f == w.files[path] && root in t.chain
  {
    SiteGrounded(w, known, known(root).ext, w.files[path], true, false, 1, [root, path]);
  }

  lemma {:induction false} FlatSiteIs(w: World, root: string, known: Outlines)
    requires root in w.files
    ensures var s := FlatSite(w, root, known);
            && s.w == w && s.known == known && s.ext == known(root).ext && s.isRoot && s.flat
            && s.level == 0 && s.chain == [root] && s.f == FlatFile(w, w.files[root])
  {
  }

  lemma {:induction false} InsideFlat(s: Site, t: Site, f: File, root: string, n: nat)
    requires s.w == t.w && s.known == t.known && s.ext == t.ext && s.isRoot && t.isRoot && s.flat && !t.flat
    requires s.level == 0 && s.chain == [root] && t.level == 1 <= t.w.maxDepth && root in t.chain
    requires s.f == FlatFile(s.w, f) && n < |f.items| && StageInclude(s.w, f.items[n])
    requires t.f == s.w.files[f.items[n].ref.path]
    ensures Inside(s, |Flat(s.w, f, n)|, t, root)
  {
    FlatAt(s.w, f, n);
  }

  lemma {:induction false} IncludeInside(w: World, root: string, known: Outlines, n: nat)
    requires Tidy(w, root, known) && root in w.files && n < |w.files[root].items|
    requires StageInclude(w, w.files[root].items[n])
    requires w.maxDepth > 0
    ensures var path := w.files[root].items[n].ref.path;
            var t := IncludeSite(w, root, known, path);
            && Inside(FlatSite(w, root, known), |Flat(w, w.files[root], n)|, t, root)
            && Grounded(t) && IncludedOk(w, t.f)
  {
    var path := w.files[root].items[n].ref.path;
    FlatSiteIs(w, root, known);
    IncludeSiteIs(w, root, known, path);
    InsideFlat(FlatSite(w, root, known), IncludeSite(w, root, known, path), w.files[root], root, n);
  }

  lemma {:induction false} IncludeReady(w: World, root: string, known: Outlines, n: nat)
    requires Tidy(w, root, known) && root in w.files && n < |w.files[root].items|
    requires StageInclude(w, w.files[root].items[n])
    requires w.maxDepth > 0
    ensures var path := w.files[root].items[n].ref.path;
            Included(FlatSite(w, root, known), |Flat(w, w.files[root], n)|, IncludeSite(w, root, known, path), root)
  {
    FlatReady(w, root, known);
    IncludeInside(w, root, known, n);
    var path := w.files[root].items[n].ref.path;
    InsideParent(FlatSite(w, root, known), |Flat(w, w.files[root], n)|, IncludeSite(w, root, known, path), root);
  }

  /** The INCLUDEd file was loaded, so its lines were gathered. */
  lemma {:induction false} IncludeLoaded(w: World, root: string, known: Outlines, n: nat)
    requires root in w.files && n < |w.files[root].items| && StageInclude(w, w.files[root].items[n])
    requires LinesAt(RootSite(w, root, known), n + 1).Ok?
    ensures w.maxDepth > 0
    ensures var t := IncludeSite(w, root, known, w.files[root].items[n].ref.path);
            LinesAt(t, |t.f.items|) == Ok(IncludedLines(w, root, w.files[root].items[n].ref.path))
    ensures Load(w, w.files[root].items[n].ref.path, ChildOf(w, w.files[root].items[n], 0, [root])).Ok?
  {
    var item := w.files[root].items[n];
    NextLoads(w, w.files[root], 0, [root], n);
    LoadParts(w, item.ref.path, ChildOf(w, item, 0, [root]));
    assert [root] + [item.ref.path] == [root, item.ref.path];
  }

  lemma {:induction false} RootReadInclude(w: World, root: string, known: Outlines, n: nat, q: Progress)
    requires root in w.files && n < |w.files[root].items| && StageInclude(w, w.files[root].items[n]) && w.maxDepth > 0
    requires ReadAt(RootSite(w, root, known), n, NOTHING) == Some(q)
    ensures var t := IncludeSite(w, root, known, w.files[root].items[n].ref.path);
            ReadAt(RootSite(w, root, known), n + 1, NOTHING) == ReadAt(t, |t.f.items|, q)
  {
    ReadInPlace(RootSite(w, root, known), n, NOTHING, q, IncludeSite(w, root, known, w.files[root].items[n].ref.path));
  }

  lemma {:induction false} RootTextInclude(w: World, root: string, n: nat)
    requires root in w.files && n < |w.files[root].items| && StageInclude(w, w.files[root].items[n])
    ensures var ref := w.files[root].items[n].ref;
            RootText(w, root, n + 1) ==
            RootText(w, root, n)
            + Framed(ref.text, w.files[root].display, "include", Deduplicated(IncludedLines(w, root, ref.path)))
  {
  }

  lemma {:induction false} ReachedEnd(s: Site, i: nat, t: Site, a: seq<Instr>, g: seq<Instr>, start: Progress,
                                      text: string, display: string)
    returns (q: Progress)
    requires SiteReady(s) && s.isRoot && Anchored(a) && Reached(s, i, t, |t.f.items|, a, start)
    requires t.level <= t.w.maxDepth && LinesAt(t, |t.f.items|) == Ok(g) && LastMetLast(Chunks(g))
    ensures ReadAt(t, |t.f.items|, start) == Some(q) && i <= |s.f.items| && Reads(s, i, NOTHING, q, Apart(s, i))
    ensures var b := a + Framed(text, display, "include", Deduplicated(g));
            Anchored(b) && Kept(s, i, Stages(b), Apart(s, i))
  {
    var g', r :| ReachedWith(s, i, t, |t.f.items|, a, start, g', r);
    IncludeThinned(s, i, t, a, g, Apart(s, i), text, display);
    q := r;
  }

  /** The step from the text before the INCLUDE to the text after it. */
  lemma {:induction false} WholeInclude(s: Site, r: Site, t: Site, root: string, n: nat, k: nat, a: seq<Instr>,
                                        g: seq<Instr>, start: Progress, text: string, display: string)
    returns (i: nat, q: Progress)
    requires Included(s, k, t, root) && RootKeptWith(s, r, n, k, a, start) && n < |r.f.items|
    requires LinesAt(t, |t.f.items|) == Ok(g) && LastMetLast(Chunks(g))
    requires ReadAt(r, n + 1, NOTHING) == ReadAt(t, |t.f.items|, start)
    ensures i == k + |t.f.items|
    ensures RootKeptWith(s, r, n + 1, i, a + Framed(text, display, "include", Deduplicated(g)), q)
  {
    i := ReachedAll(s, k, t, root, |t.f.items|, a, start);
    q := ReachedEnd(s, i, t, a, g, start, text, display);
  }

  /** The sites around an INCLUDE of the root. */
  lemma {:induction false} IncludeSites(w: World, root: string, known: Outlines, n: nat, ref: Ref, q: Progress)
    returns (s: Site, r: Site, t: Site, g: seq<Instr>)
    requires Tidy(w, root, known) && root in w.files && n < |w.files[root].items|
    requires w.files[root].items[n] == Include(ref)
    requires StageInclude(w, w.files[root].items[n]) && LinesAt(RootSite(w, root, known), n + 1).Ok?
    requires ReadAt(RootSite(w, root, known), n, NOTHING) == Some(q)
    ensures s == FlatSite(w, root, known) && r == RootSite(w, root, known) && n < |r.f.items| && r.level <= r.w.maxDepth
    ensures Included(s, |Flat(w, w.files[root], n)|, t, root) && t.f == w.files[ref.path]
    ensures LinesAt(t, |t.f.items|) == Ok(g) && g == IncludedLines(w, root, ref.path)
    ensures ReadAt(r, n + 1, NOTHING) == ReadAt(t, |t.f.items|, q)
    ensures |Flat(w, w.files[root], n)| + |t.f.items| == |Flat(w, w.files[root], n + 1)|
  {
    s, r, t := FlatSite(w, root, known), RootSite(w, root, known), IncludeSite(w, root, known, ref.path);
    g := IncludedLines(w, root, ref.path);
    IncludeLoaded(w, root, known, n);
    IncludeReady(w, root, known, n);
    RootReadInclude(w, root, known, n, q);
    FlatAt(w, w.files[root], n);
  }

  lemma {:induction false} RootKeptBy(w: World, root: string, known: Outlines, n: nat, i: nat, b: seq<Instr>,
                                      q: Progress)
    requires root in w.files && n <= |w.files[root].items|
    requires i == |Flat(w, w.files[root], n)| && b == RootText(w, root, n)
    requires RootKeptWith(FlatSite(w, root, known), RootSite(w, root, known), n, i, b, q)
    ensures RootKept(w, root, known, n)
  {
  }

  lemma {:induction false} RootIncludeWith(w: World, root: string, known: Outlines, n: nat, ref: Ref, k: nat,
                                           a: seq<Instr>, p: Progress)
    returns (i: nat, b: seq<Instr>, q: Progress)
    requires Tidy(w, root, known) && root in w.files && n < |w.files[root].items|
    requires w.files[root].items[n] == Include(ref)
    requires StageInclude(w, w.files[root].items[n]) && LinesAt(RootSite(w, root, known), n + 1).Ok?
    requires LastMetLast(Chunks(IncludedLines(w, root, ref.path)))
    requires k == |Flat(w, w.files[root], n)|
    requires RootKeptWith(FlatSite(w, root, known), RootSite(w, root, known), n, k, a, p)
    ensures i == |Flat(w, w.files[root], n + 1)|
    ensures b == a + Framed(ref.text, w.files[root].display, "include", Deduplicated(IncludedLines(w, root, ref.path)))
    ensures RootKeptWith(FlatSite(w, root, known), RootSite(w, root, known), n + 1, i, b, q)
  {
    var s, r, t, g := IncludeSites(w, root, known, n, ref, p);
    i, q := WholeInclude(s, r, t, root, n, k, a, g, p, ref.text, w.files[root].display);
    b := a + Framed(ref.text, w.files[root].display, "include", Deduplicated(g));
  }

  lemma {:induction false} RootIncludeStep(w: World, root: string, known: Outlines, n: nat)
    requires Tidy(w, root, known) && root in w.files && n < |w.files[root].items|
    requires StageInclude(w, w.files[root].items[n])
    requires LastMetLast(Chunks(IncludedLines(w, root, w.files[root].items[n].ref.path)))
    requires LinesAt(RootSite(w, root, known), n + 1).Ok? && RootKept(w, root, known, n)
    ensures RootKept(w, root, known, n + 1)
  {
    var k, a := |Flat(w, w.files[root], n)|, RootText(w, root, n);
    var p :| RootKeptWith(FlatSite(w, root, known), RootSite(w, root, known), n, k, a, p);
    var i, b, q := RootIncludeWith(w, root, known, n, w.files[root].items[n].ref, k, a, p);
    RootTextInclude(w, root, n);
    RootKeptBy(w, root, known, n + 1, i, b, q);
  }

  lemma {:induction false} RootNothing(w: World, root: string, known: Outlines, n: nat)
    requires Tidy(w, root, known) && root in w.files && n == 0
    ensures RootKept(w, root, known, n)
  {
    FlatReady(w, root, known);
    NothingGathered(FlatSite(w, root, known));
    NothingRead(FlatSite(w, root, known), NOTHING);
    assert |Flat(w, w.files[root], n)| == 0 && RootText(w, root, n) == [];
    assert RootKeptWith(FlatSite(w, root, known), RootSite(w, root, known), n, |Flat(w, w.files[root], n)|,
                        RootText(w, root, n), NOTHING);
  }

  lemma {:induction false} RootOneMore(w: World, root: string, known: Outlines, n: nat)
    requires Tidy(w, root, known) && root in w.files && IncludesKeepLast(w, root)
    requires n < |w.files[root].items| && LinesAt(RootSite(w, root, known), n + 1).Ok? && RootKept(w, root, known, n)
    ensures RootKept(w, root, known, n + 1)
  {
    if StageInclude(w, w.files[root].items[n]) {
      assert w.files[root].items[n] in w.files[root].items;
      RootIncludeStep(w, root, known, n);
    } else {
      RootStep(w, root, known, n);
    }
  }

  lemma {:induction false} RootLinesTo(w: World, root: string, known: Outlines, n: nat, m: nat)
    requires root in w.files && n <= m <= |w.files[root].items| && LinesAt(RootSite(w, root, known), m).Ok?
    ensures LinesAt(RootSite(w, root, known), n).Ok?
  {
    LinesOkBefore(w, w.files[root], 0, [root], n, m);
  }

  /** The text of the root builds what reading the root gives, INCLUDEs in place. */
  lemma {:induction false} RootGathered(w: World, root: string, known: Outlines, n: nat)
    requires Tidy(w, root, known) && root in w.files && IncludesKeepLast(w, root)
    requires n <= |w.files[root].items| && LinesAt(RootSite(w, root, known), n).Ok?
    ensures RootKept(w, root, known, n)
    decreases n
  {
    if n == 0 {
      RootNothing(w, root, known, n);
    } else {
      var m := n - 1;
      RootLinesTo(w, root, known, m, n);
      RootGathered(w, root, known, m);
      RootOneMore(w, root, known, m);
    }
  }
}
