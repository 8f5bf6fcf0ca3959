/** The root with the instructions of INCLUDEd files written out, and the text that its lines are,
    up to the names that INCLUDEs sanitise. */
module FlatRoots {
  import opened Dockerfile
  import opened DeduplicateStages
  import opened LoadDockerfile
  import opened IncludeGuards
  import opened Interpreter
  import opened TidyTrees
  import opened LineInvariants
  import opened LineMeaning
  import opened LineSteps
  import opened GatheredLines
  import opened Readings
  import opened UsedFiles

  // A file loads to the same text at every depth

  lemma {:induction false} LoadShallower(w: World, path: string, c: LoadContext, d: LoadContext)
    requires Load(w, path, c).Ok? && 0 < d.level <= c.level
    requires d.target == c.target && d.alias == c.alias && !c.isRootInclude && !d.isRootInclude
    requires forall q :: q in d.chain ==> q in c.chain
    ensures Load(w, path, d) == Load(w, path, c)
    decreases if c.level <= w.maxDepth then w.maxDepth - c.level + 1 else 0, 1, 0
  {
    LoadParts(w, path, c);
    var f := w.files[path];
    LinesShallower(w, f, c.level, c.chain + [path], d.level, d.chain + [path], |f.items|);
  }

  lemma {:induction false} LinesShallower(w: World, f: File, level: nat, chain: seq<string>, m: nat, less: seq<string>,
                                          n: nat)
    requires level <= w.maxDepth && 0 < m <= level && n <= |f.items|
    requires Lines(w, f, level, chain, n).Ok? && forall q :: q in less ==> q in chain
    ensures Lines(w, f, m, less, n) == Lines(w, f, level, chain, n)
    decreases w.maxDepth - level + 1, 0, n
  {
    if n > 0 {
      LinesOkBefore(w, f, level, chain, n - 1, n);
      LinesShallower(w, f, level, chain, m, less, n - 1);
      var item := f.items[n - 1];
      if RefOfItem(item).Some? {
        LoadShallower(w, RefOfItem(item).value.path, ChildOf(w, item, level, chain), ChildOf(w, item, m, less));
      }
    }
  }

  // The root with its INCLUDEs written out

  function RootSite(w: World, root: string, known: Outlines): Site
    requires root in w.files
  {
    SiteOf(w, known, known(root).ext, w.files[root], true, false, 0, [root])
  }

  function FlatSite(w: World, root: string, known: Outlines): Site
    requires root in w.files
  {
    SiteOf(w, known, known(root).ext, FlatFile(w, w.files[root]), true, true, 0, [root])
  }

  function IncludeSite(w: World, root: string, known: Outlines, path: string): Site
    requires path in w.files
  {
    SiteOf(w, known, known(root).ext, w.files[path], true, false, 1, [root, path])
  }

  lemma {:induction false} FlatPrefix(w: World, f: File, n: nat, m: nat)
    requires n <= m <= |f.items|
    ensures Flat(w, f, n) <= Flat(w, f, m)
    decreases m
  {
    if n < m {
      FlatPrefix(w, f, n, m - 1);
    }
  }

  lemma {:induction false} FlatStep(w: World, f: File, n: nat)
    requires n < |f.items|
    ensures Flat(w, f, n + 1) ==
            Flat(w, f, n) + (if StageInclude(w, f.items[n]) then w.files[f.items[n].ref.path].items else [f.items[n]])
    ensures Flat(w, f, n + 1) <= Flat(w, f, |f.items|)
  {
    FlatPrefix(w, f, n + 1, |f.items|);
  }

  lemma {:induction false} PartAt(a: seq<Item>, b: seq<Item>, all: seq<Item>)
    requires a + b <= all
    ensures |a| + |b| <= |all| && forall m :: 0 <= m < |b| ==> all[|a| + m] == b[m]
  {
    assert forall m :: 0 <= m < |b| ==> (a + b)[|a| + m] == b[m];
  }

  /** Instruction n of the root, in the flat root. */
  lemma {:induction false} FlatAt(w: World, f: File, n: nat)
    requires n < |f.items|
    ensures |Flat(w, f, n)| <= |Flat(w, f, n + 1)| <= |FlatFile(w, f).items|
    ensures !StageInclude(w, f.items[n]) ==>
              |Flat(w, f, n + 1)| == |Flat(w, f, n)| + 1 && FlatFile(w, f).items[|Flat(w, f, n)|] == f.items[n]
    ensures StageInclude(w, f.items[n]) ==>
              var g := w.files[f.items[n].ref.path];
              && |Flat(w, f, n + 1)| == |Flat(w, f, n)| + |g.items|
              && forall m :: 0 <= m < |g.items| ==> FlatFile(w, f).items[|Flat(w, f, n)| + m] == g.items[m]
  {
    FlatStep(w, f, n);
    if StageInclude(w, f.items[n]) {
      PartAt(Flat(w, f, n), w.files[f.items[n].ref.path].items, Flat(w, f, |f.items|));
    } else {
      PartAt(Flat(w, f, n), [f.items[n]], Flat(w, f, |f.items|));
      assert Flat(w, f, |f.items|)[|Flat(w, f, n)| + 0] == [f.items[n]][0];
    }
  }

  /** Where an instruction of the flat root comes from. */
  lemma {:induction false} FlatGrounded(w: World, root: string, n: nat, item: Item) returns (p: string)
    requires root in w.files && n <= |w.files[root].items| && item in Flat(w, w.files[root], n)
    ensures p in w.files && item in w.files[p].items && (StageInclude(w, item) ==> Below(w, root, p))
  {
    var last := w.files[root].items[n - 1];
    if item in Flat(w, w.files[root], n - 1) {
      p := FlatGrounded(w, root, n - 1, item);
    } else if StageInclude(w, last) {
      p := last.ref.path;
    } else {
      p := root;
    }
  }

  lemma {:induction false} FlatParent(w: World, root: string, known: Outlines)
    requires Tidy(w, root, known) && root in w.files
    ensures Parent(FlatSite(w, root, known), root)
  {
    var s, f := FlatSite(w, root, known), w.files[root];
    SiteGrounded(w, known, known(root).ext, FlatFile(w, f), true, true, 0, [root]);
    forall i: nat | ScopedAt(s, i) ensures Demands(s, root, i) {
      assert s.f.items[i] in Flat(w, f, |f.items|);
      var p := FlatGrounded(w, root, |f.items|, s.f.items[i]);
      DemandsMet(s, root, i, p);
    }
  }

  lemma {:induction false} FlatReady(w: World, root: string, known: Outlines)
    requires Tidy(w, root, known) && root in w.files
    ensures Parent(FlatSite(w, root, known), root) && SiteReady(FlatSite(w, root, known))
  {
    FlatParent(w, root, known);
    SiteHolds(FlatSite(w, root, known), root);
  }

  // One step, seen from the flat root

  lemma {:induction false} FlatStepOk(s: Site, i: nat, t: Site, m: nat)
    requires SiteOk(s) && Same(s, i, t, m)
    ensures StepOk(s, i) && StepOk(t, m) && (t.f.items[m].CopyFile? ==> HasStage(s.w, s.f, i))
  {
    assert ItemOk(s.w, s.known, s.ext, s.f, s.isRoot, i);
    if Brings(t.w, t.f.items[m]) {
      assert UsedAt(s, i) && UseOk(s, i);
    }
  }

  lemma {:induction false} SameStages(s: Site, i: nat, t: Site, m: nat, ss: seq<Stage>)
    requires Same(s, i, t, m) && StepOk(s, i) && StepOk(t, m) && (t.f.items[m].CopyFile? ==> ss != [])
    ensures StepStages(t, m, ss) == StepStages(s, i, ss)
  {
  }

  lemma {:induction false} UsedMeans(s: Site, root: string, i: nat)
    requires Tidy(s.w, root, s.known) && Parent(s, root) && UsedAt(s, i) && ScopedAt(s, i)
    ensures MeaningAt(s, i) == Some(Resolve(EnvOf(map[], Block(s, i)), AliasAt(s, i)))
  {
    UsedHolds(s, root, i);
    UsableOk(s, i);
  }

  lemma {:induction false} SameMeaning(s: Site, i: nat, t: Site, m: nat, root: string)
    requires Same(s, i, t, m) && Tidy(s.w, root, s.known) && ScopedAt(s, i) && ScopedAt(t, m)
    requires Parent(s, root) && Parent(t, root)
    ensures MeaningAt(t, m).Some? && MeaningAt(t, m) == MeaningAt(s, i)
  {
    UsedMeans(s, root, i);
    UsedMeans(t, root, m);
  }

  /** The site of a file that is read as part of the flat root s. */
  ghost predicate PartOf(s: Site, t: Site, root: string) {
    && Tidy(s.w, root, s.known) && Parent(s, root) && Parent(t, root) && SiteReady(s) && s.flat && !t.flat
    && s.isRoot && t.isRoot
  }

  /** Reading one instruction more is reading it in the flat root. */
  lemma {:induction false} SameRead(s: Site, i: nat, t: Site, m: nat, root: string, start: Progress, q: Progress,
                                    p: Progress)
    returns (r: Progress)
    requires PartOf(s, t, root) && Same(s, i, t, m) && StepOk(s, i) && StepOk(t, m) && LinesAt(t, m + 1).Ok?
    requires StageInclude(t.w, t.f.items[m]) ==> ScopedAt(t, m)
    requires s.f.items[i].CopyFile? ==> HasStage(s.w, s.f, i)
    requires ReadAt(t, m, start) == Some(q) && Reads(s, i, NOTHING, q, p)
    ensures Brings(s.w, s.f.items[i]) ==> MeaningAt(s, i).Some?
    ensures ReadAt(t, m + 1, start) == Some(r) && Reads(s, i + 1, NOTHING, r, StepProgress(s, i, p))
  {
    if Brings(t.w, t.f.items[m]) {
      SameMeaning(s, i, t, m, root);
    }
    r := ReadOnce(s, i, t, m, root, start, NOTHING, q, p);
  }

  // The text of the root

  /** The lines of a file that the root INCLUDEs, or none if they cannot be gathered. */
  function IncludedLines(w: World, root: string, path: string): seq<Instr> {
    if w.maxDepth > 0 && path in w.files && Lines(w, w.files[path], 1, [root, path], |w.files[path].items|).Ok?
    then Lines(w, w.files[path], 1, [root, path], |w.files[path].items|).value
    else []
  }

  /** What the root's instruction brings, except that stages of an INCLUDEd file are not sanitised. */
  function RootBlock(w: World, root: string, item: Item): seq<Instr> {
    if StageInclude(w, item) then Deduplicated(IncludedLines(w, root, item.ref.path))
    else
      var r := LoadOf(w, item, false, 0, [root]);
      if r.Ok? then r.value else []
  }

  /** The lines of the root, with the stages of INCLUDEd files under the names they have there. */
  function RootText(w: World, root: string, n: nat): seq<Instr>
    requires root in w.files && n <= |w.files[root].items|
  {
    if n == 0 then []
    else
      var f, item, before := w.files[root], w.files[root].items[n - 1], RootText(w, root, n - 1);
      match item
      case Plain(i) => before + [i]
      case IncludeEnv(text, content) => before + Framed(text, f.display, "include", content)
      case Include(ref) => before + Framed(ref.text, f.display, "include", RootBlock(w, root, item))
      case FromFile(ref, _, alias) =>
        before + Framed(ref.text, f.display, "from", RootBlock(w, root, item))
        + [From(w.slug(ref.aliasBase), Some(StageNameOf(alias)))]
      case CopyFile(verb, ref, _, rest) =>
        Framed(ref.text, f.display, "fromParam", RootBlock(w, root, item)) + before
        + [Copy(verb, Some(w.slug(ref.aliasBase)), rest)]
  }

  // The root's own instructions

  lemma {:induction false} RootChild(w: World, root: string, known: Outlines, n: nat)
    requires root in w.files && n < |w.files[root].items| && RefOfItem(w.files[root].items[n]).Some?
    ensures Child(RootSite(w, root, known), n) == LoadOf(w, w.files[root].items[n], false, 0, [root])
  {
  }

  lemma {:induction false} FlatChild(w: World, root: string, known: Outlines, k: nat)
    requires root in w.files && k < |FlatFile(w, w.files[root]).items|
    requires Uses(FlatFile(w, w.files[root]).items[k])
    ensures Child(FlatSite(w, root, known), k) == LoadOf(w, FlatFile(w, w.files[root]).items[k], false, 0, [root])
  {
  }

  lemma {:induction false} RootGrounded(w: World, root: string, known: Outlines)
    requires root in w.files
    ensures Grounded(RootSite(w, root, known)) && Grounded(FlatSite(w, root, known))
  {
    SiteGrounded(w, known, known(root).ext, w.files[root], true, false, 0, [root]);
    SiteGrounded(w, known, known(root).ext, FlatFile(w, w.files[root]), true, true, 0, [root]);
  }

  lemma {:induction false} RootSame(w: World, root: string, known: Outlines, n: nat)
    requires root in w.files && n < |w.files[root].items| && !StageInclude(w, w.files[root].items[n])
    requires LinesAt(RootSite(w, root, known), n + 1).Ok?
    ensures Same(FlatSite(w, root, known), |Flat(w, w.files[root], n)|, RootSite(w, root, known), n)
  {
    FlatAt(w, w.files[root], n);
    if Uses(w.files[root].items[n]) {
      RootGrounded(w, root, known);
      ChildLoaded(RootSite(w, root, known), n);
      RootChild(w, root, known, n);
      FlatChild(w, root, known, |Flat(w, w.files[root], n)|);
    }
  }

  lemma {:induction false} RootUses(w: World, root: string, known: Outlines, n: nat)
    requires root in w.files && ScopedAt(RootSite(w, root, known), n)
    ensures Uses(w.files[root].items[n])
  {
  }

  lemma {:induction false} RootParent(w: World, root: string, known: Outlines)
    requires Tidy(w, root, known) && root in w.files
    ensures Parent(RootSite(w, root, known), root)
  {
    var s, t, f := FlatSite(w, root, known), RootSite(w, root, known), w.files[root];
    FlatParent(w, root, known);
    RootGrounded(w, root, known);
    forall n: nat | ScopedAt(t, n) ensures Demands(t, root, n) {
      RootUses(w, root, known, n);
      FlatAt(w, f, n);
      assert ScopedAt(s, |Flat(w, f, n)|) && Demands(s, root, |Flat(w, f, n)|);
    }
  }

  lemma {:induction false} RootPart(w: World, root: string, known: Outlines)
    requires Tidy(w, root, known) && root in w.files
    ensures PartOf(FlatSite(w, root, known), RootSite(w, root, known), root)
  {
    FlatReady(w, root, known);
    RootParent(w, root, known);
  }

  /** The lines of the root keep the invariant of the flat root. */
  ghost predicate RootKept(w: World, root: string, known: Outlines, n: nat)
    requires root in w.files && n <= |w.files[root].items|
  {
    exists q ::
      RootKeptWith(FlatSite(w, root, known), RootSite(w, root, known), n, |Flat(w, w.files[root], n)|,
                   RootText(w, root, n), q)
  }

  /** The lines `a`, read from the first n instructions of r, are k instructions of the flat root s. */
  ghost predicate RootKeptWith(s: Site, r: Site, n: nat, k: nat, a: seq<Instr>, q: Progress) {
    && r.level <= r.w.maxDepth && k <= |s.f.items| && n <= |r.f.items|
    && Anchored(a) && ReadAt(r, n, NOTHING) == Some(q) && Reads(s, k, NOTHING, q, Apart(s, k))
    && Kept(s, k, Stages(a), Apart(s, k))
  }

  lemma {:induction false} RootTextNext(w: World, root: string, known: Outlines, n: nat)
    requires root in w.files && n < |w.files[root].items| && !StageInclude(w, w.files[root].items[n])
    requires StepOk(RootSite(w, root, known), n) && LinesAt(RootSite(w, root, known), n + 1).Ok?
    ensures var t, a := RootSite(w, root, known), RootText(w, root, n);
            RootText(w, root, n + 1) ==
            if t.f.items[n].CopyFile?
            then Framed(RefAt(t, n).text, t.f.display, "fromParam", Child(t, n).value) + a + [CopyLine(t, n)]
            else a + ItemLines(t, n)
  {
    var t, a, item := RootSite(w, root, known), RootText(w, root, n), w.files[root].items[n];
    if RefOfItem(item).Some? {
      RootGrounded(w, root, known);
      ChildLoaded(t, n);
      RootChild(w, root, known, n);
      if item.FromFile? {
        var more := Framed(item.ref.text, t.f.display, "from", Child(t, n).value);
        var i := From(AliasAt(t, n), Some(StageNameOf(item.alias)));
        assert a + more + [i] == a + (more + [i]);
      }
    }
  }

  /** One instruction of the root other than an INCLUDE of stages, on any lines before it. */
  lemma {:induction false} TextStep(t: Site, n: nat, a: seq<Instr>, b: seq<Instr>)
    requires t.isRoot && StepOk(t, n) && TextOk(t, n) && Anchored(a)
    requires IsBody(t.w, t.f.items[n]) ==> Stages(a) != [] || Effective(InlineBody(t.w, t.f.items[n])) == []
    requires t.f.items[n].CopyFile? ==> Stages(a) != []
    requires b == if t.f.items[n].CopyFile?
                  then Framed(RefAt(t, n).text, t.f.display, "fromParam", Child(t, n).value) + a + [CopyLine(t, n)]
                  else a + ItemLines(t, n)
    ensures Anchored(b) && Stages(b) == StepStages(t, n, Stages(a))
  {
    if t.f.items[n].CopyFile? {
      CopyStep(t, n, [], a);
      assert [] + b == b && [] + StepStages(t, n, Stages(a)) == StepStages(t, n, Stages(a));
    } else {
      AppendStep(t, n, a);
    }
  }

  lemma {:induction false} SameStep(s: Site, k: nat, t: Site, n: nat, root: string, a: seq<Instr>, b: seq<Instr>,
                                    start: Progress, q: Progress)
    returns (r: Progress)
    requires PartOf(s, t, root) && Same(s, k, t, n) && LinesAt(t, n + 1).Ok? && !StageInclude(t.w, t.f.items[n])
    requires ReadAt(t, n, start) == Some(q) && Reads(s, k, NOTHING, q, Apart(s, k))
    requires Anchored(a) && Kept(s, k, Stages(a), Apart(s, k))
    requires StepOk(t, n) ==> b == if t.f.items[n].CopyFile?
                  then Framed(RefAt(t, n).text, t.f.display, "fromParam", Child(t, n).value) + a + [CopyLine(t, n)]
                  else a + ItemLines(t, n)
    ensures ReadAt(t, n + 1, start) == Some(r) && k < |s.f.items| && Reads(s, k + 1, NOTHING, r, Apart(s, k + 1))
    ensures Anchored(b) && Kept(s, k + 1, Stages(b), Apart(s, k + 1))
  {
    FlatStepOk(s, k, t, n);
    TextLoaded(t, n);
    StepKept(s, k, Stages(a), Apart(s, k));
    TextStep(t, n, a, b);
    SameStages(s, k, t, n, Stages(a));
    ApartNext(s, k);
    r := SameRead(s, k, t, n, root, start, q, Apart(s, k));
  }

  lemma {:induction false} RootStep(w: World, root: string, known: Outlines, n: nat)
    requires Tidy(w, root, known) && root in w.files && n < |w.files[root].items|
    requires !StageInclude(w, w.files[root].items[n])
    requires LinesAt(RootSite(w, root, known), n + 1).Ok? && RootKept(w, root, known, n)
    ensures RootKept(w, root, known, n + 1)
  {
    var s, t, k := FlatSite(w, root, known), RootSite(w, root, known), |Flat(w, w.files[root], n)|;
    var a := RootText(w, root, n);
    var q :| RootKeptWith(s, t, n, k, a, q);
    RootPart(w, root, known);
    RootSame(w, root, known, n);
    FlatAt(w, w.files[root], n);
    if StepOk(t, n) {
      RootTextNext(w, root, known, n);
    }
    var r := SameStep(s, k, t, n, root, a, RootText(w, root, n + 1), NOTHING, q);
    assert RootKeptWith(s, t, n + 1, |Flat(w, w.files[root], n + 1)|, RootText(w, root, n + 1), r);
  }
}
