/** The files that are brought in at any depth below a tidy root, by FROM, `--from` or INCLUDE: each is
    accepted, and gives its user the image its target means. */
module UsedFiles {
  import opened Dockerfile
  import opened ScopeStages
  import opened ScopedOrder
  import opened DeduplicateStages
  import opened PostProcessDockerfile
  import opened LoadDockerfile
  import opened IncludeGuards
  import opened Interpreter
  import opened TidyTrees
  import opened LineInvariants
  import opened LineOrder
  import opened LineMeaning
  import opened LineSteps
  import opened GatheredLines
  import opened IncludedFiles
  import opened Readings

  // The stage an includer asks for

  lemma {:induction false} OwnStageOnce(own: seq<string>, ss: seq<Stage>, k: nat)
    requires OwnOnce(own, ss) && k < |ss| && ss[k].alias.Some? && ss[k].alias.value in own
    ensures OnlyAt(ss, k)
  {
    forall j | 0 <= j < |ss| && j != k ensures ss[j].alias != ss[k].alias {
    }
  }

  lemma {:induction false} LastIsOwn(s: Site, n: nat, ss: seq<Stage>, p: Progress)
    requires n <= |s.f.items| && Kept(s, n, ss, p) && ss != [] && !s.isRoot
    ensures OnlyAt(ss, |ss| - 1) && ss[|ss| - 1].alias.value in OwnAt(s, n)
    ensures ss[|ss| - 1].alias.value == OwnAt(s, n)[|OwnAt(s, n)| - 1]
    ensures p.started && p.img == ImageOf(EnvOf(map[], ss[..|ss| - 1]), ss[|ss| - 1])
  {
    OwnStageOnce(OwnAt(s, n), ss, |ss| - 1);
  }

  lemma {:induction false} NamedStage(s: Site, n: nat, ss: seq<Stage>, p: Progress, u: string) returns (k: nat)
    requires SiteReady(s) && n <= |s.f.items| && Kept(s, n, ss, p)
    requires u in OwnAt(s, n)
    ensures OnlyAt(ss, k) && ss[k].alias == Some(u) && p.started
    ensures u in Close(p) && Close(p)[u] == Resolve(EnvOf(map[], ss), u)
  {
    FinishStage(s, n, ss, p);
    assert u in NameSet(OwnAt(s, n));
    DeclaredIff(ss, u);
    var x :| x in ss && x.alias == Some(u);
    k :| 0 <= k < |ss| && ss[k] == x;
    OwnStageOnce(OwnAt(s, n), ss, k);
    assert Resolve(EnvOf(map[], ss), u) == Resolve(Close(p), u);
  }

  lemma {:induction false} WantedStage(s: Site, n: nat, ss: seq<Stage>, p: Progress, c: Context) returns (k: nat)
    requires SiteReady(s) && n <= |s.f.items| && Kept(s, n, ss, p) && !s.isRoot && ss != []
    requires IsTarget(c.target) ==> c.target.value in OwnAt(s, n)
    ensures Wanted(c, ss, k) && p.started
    ensures ss[k].alias.value in OwnAt(s, n) && ss[k].alias.value == WantedName(OwnAt(s, n), c.target)
    ensures IsTarget(c.target) ==> c.target.value in Close(p)
                                   && Close(p)[c.target.value] == Resolve(EnvOf(map[], ss), c.target.value)
    ensures !IsTarget(c.target) ==> p.img == ImageOf(EnvOf(map[], ss[..k]), ss[k])
  {
    LastIsOwn(s, n, ss, p);
    if IsTarget(c.target) {
      k := NamedStage(s, n, ss, p, c.target.value);
    } else {
      k := |ss| - 1;
    }
  }

  // One included file

  /** What an including file relies on. */
  ghost predicate Usable(w: World, ext: set<string>, ref: Ref, target: Option<string>, meaning: Option<Image>,
                         isRootUser: bool, v: seq<Instr>)
  {
    && ref.path in w.files && Anchored(v)
    && BlockOk(w, ext, ref, Stages(v))
    && (!isRootUser ==> BlockOrdered(w, ref, Stages(v)))
    && (!IsTarget(target) ==> EndsWith(Stages(v), w.slug(ref.aliasBase)))
    && meaning == Some(Resolve(EnvOf(map[], Stages(v)), w.slug(ref.aliasBase)))
  }

  /** The alias that a user gives the file is its slug or does not start with it, and starts no external
      image of the file. */
  ghost predicate AliasFits(w: World, ext: set<string>, display: string, alias: string) {
    && (w.slug(display) <= alias ==> w.slug(display) == alias)
    && forall e :: e in ext ==> !(alias <= e)
  }

  /** All lines of the file at `path` are gathered. */
  ghost predicate FileReady(s: Site, path: string) {
    && SiteReady(s) && Here(s, path) && LinesAt(s, |s.f.items|).Ok? && Gathered(s, |s.f.items|)
  }

  lemma {:induction false} FileComplete(s: Site, path: string)
    requires FileReady(s, path)
    ensures Complete(s, StagesAt(s, |s.f.items|)) && Anchored(LinesAt(s, |s.f.items|).value)
  {
    DefaultedAnchored(LinesAt(s, |s.f.items|).value);
  }

  lemma {:induction false} AliasIsNew(s: Site, ss: seq<Stage>, alias: string)
    requires Complete(s, ss) && AliasFits(s.w, s.ext, s.f.display, alias)
    ensures alias !in Free(ss) && forall m :: m in Declared(ss) ==> ScopedName(OwnSlug(s), m) != alias
  {
    assert alias <= alias;
    forall m | m in Declared(ss) ensures ScopedName(OwnSlug(s), m) != alias {
      ScopedStarts(OwnSlug(s), m, alias);
      assert ScopedName(OwnSlug(s), m) <= ScopedName(OwnSlug(s), m);
    }
  }

  lemma {:induction false} SiteIncludable(s: Site, path: string, c: Context, k: nat)
    requires FileReady(s, path) && c.alias.Some? && AliasFits(s.w, s.ext, s.f.display, c.alias.value)
    requires !c.isRootFile && !c.isRootInclude && c.prefix == OwnSlug(s)
    requires Wanted(c, StagesAt(s, |s.f.items|), k)
    requires StagesAt(s, |s.f.items|)[k].alias.value in AllNames(s)
    ensures Includable(c, LinesAt(s, |s.f.items|).value, k)
  {
    var d := StagesAt(s, |s.f.items|);
    FileComplete(s, path);
    NamesApartHere(s, d);
    OwnStageSteady(s, d, k);
    AliasIsNew(s, d, c.alias.value);
  }

  lemma {:induction false} AllStagesNamed(s: Site, n: nat, own: seq<string>, ss: seq<Stage>)
    requires SiteOk(s) && !s.isRoot && Syntax(s, n, own, ss)
    ensures forall x :: x in ss ==> x.alias.Some?
  {
    forall x | x in ss ensures x.alias.Some? {
      if !OwnStage(s, own, x) {
        var i := BlockOf(s, n, x);
      }
    }
  }

  lemma {:induction false} SiteBlock(s: Site, ref: Ref, c: Context, k: nat)
    requires FileReady(s, ref.path) && Includable(c, LinesAt(s, |s.f.items|).value, k)
    requires c.prefix == OwnSlug(s) && c.alias == Some(s.w.slug(ref.aliasBase))
    ensures BlockOk(s.w, s.ext, ref, Outcome(c, LinesAt(s, |s.f.items|).value))
    ensures Anchored(Deduplicated(Aliased(c, LinesAt(s, |s.f.items|).value)))
  {
    var n, doc, d := |s.f.items|, LinesAt(s, |s.f.items|).value, StagesAt(s, |s.f.items|);
    AllStagesNamed(s, n, OwnAt(s, n), d);
    OutcomeKeeps(c, doc, k);
    OutcomeOwned(s.w, ref, c, doc, k);
  }

  /** A name of the file that is met in order among its own names is met in order in its lines. */
  lemma {:induction false} WantedOrdered(s: Site, ss: seq<Stage>, u: string)
    requires Complete(s, ss) && u in AllNames(s) && OrderedFor(AllNames(s), u)
    requires forall i: nat :: i < |s.f.items| && Brings(s.w, s.f.items[i]) ==> UsedAt(s, i)
    ensures OrderedFor(Names(ss), u)
  {
    var k := NameOrigin(s.w, s.f, s.isRoot, |s.f.items|, u);
    if NamesStage(s.f, s.isRoot, k, u) {
      assert InBall(s, |s.f.items|, u);
    } else {
      assert UsedAt(s, k) && LiveBase(s, |s.f.items|, u);
    }
  }

  lemma {:induction false} SiteBlockOrdered(s: Site, ref: Ref, c: Context, k: nat)
    requires FileReady(s, ref.path) && Includable(c, LinesAt(s, |s.f.items|).value, k)
    requires c.prefix == OwnSlug(s) && c.alias == Some(s.w.slug(ref.aliasBase))
    requires AliasFits(s.w, s.ext, s.f.display, s.w.slug(ref.aliasBase))
    requires StagesAt(s, |s.f.items|)[k].alias.value in AllNames(s)
    requires OrderedFor(AllNames(s), StagesAt(s, |s.f.items|)[k].alias.value)
    ensures BlockOrdered(s.w, ref, Outcome(c, LinesAt(s, |s.f.items|).value))
  {
    var d := StagesAt(s, |s.f.items|);
    FileComplete(s, ref.path);
    LoadedBefore(s, |s.f.items|);
    WantedOrdered(s, d, d[k].alias.value);
    forall x | x in d ensures TakenBy(c.prefix, Names(d), x.base) == TakenFor(Names(d), x.base) {
      BasesOnce(s, d, x);
    }
    OutcomeOrdered(c, LinesAt(s, |s.f.items|).value, k);
  }

  /** What the file means, in terms of its reading with INCLUDEd stages apart. */
  ghost predicate MeansApart(s: Site, path: string, target: Option<string>) {
    var p := Apart(s, |s.f.items|);
    && s.level <= s.w.maxDepth && (IsTarget(target) ==> target.value in Close(p))
    && Meaning(s.w, path, target, false, FuelAt(s)) == Some(if IsTarget(target) then Close(p)[target.value] else p.img)
  }

  lemma {:induction false} ReadMeans(s: Site, path: string, target: Option<string>, q: Progress)
    requires Here(s, path) && ReadAt(s, |s.f.items|, NOTHING) == Some(q) && q.started
    requires IsTarget(target) ==> target.value in Close(q)
    ensures Meaning(s.w, path, target, false, FuelAt(s))
            == Some(if IsTarget(target) then Close(q)[target.value] else q.img)
  {
  }

  lemma {:induction false} MeansBoth(s: Site, path: string, target: Option<string>, q: Progress)
    requires Here(s, path) && ReadAt(s, |s.f.items|, NOTHING) == Some(q) && HasStage(s.w, s.f, |s.f.items|)
    requires Reads(s, |s.f.items|, NOTHING, q, Apart(s, |s.f.items|))
    requires IsTarget(target) ==> target.value in AllNames(s) && target.value !in HiddenAt(s, |s.f.items|)
    ensures MeansApart(s, path, target)
  {
    if IsTarget(target) {
      ClosesAgree(s, |s.f.items|, NOTHING, q, Apart(s, |s.f.items|));
      assert SeenAs(AllNames(s), Close(NOTHING), Close(q), Close(Apart(s, |s.f.items|)), target.value);
    }
    ReadMeans(s, path, target, q);
  }

  lemma {:induction false} OutcomeOf(s: Site, c: Context, doc: seq<Instr>, k: nat) returns (v: seq<Instr>)
    requires Includable(c, doc, k)
    ensures PostProcessed(s.w.hash, c, doc) == Ok(v) && v == Deduplicated(Aliased(c, doc))
    ensures !IsTarget(c.target) ==> EndsWith(Stages(v), c.alias.value)
    ensures var d := Stages(Defaulted(doc));
            && Resolve(EnvOf(map[], Stages(v)), c.alias.value) == ImageOf(EnvOf(map[], d[..k]), d[k])
            && Resolve(EnvOf(map[], Stages(v)), c.alias.value) == Resolve(EnvOf(map[], d), d[k].alias.value)
  {
    v := Deduplicated(Aliased(c, doc));
    IncludedResult(s.w.hash, c, doc, k);
    IncludedFileMeaning(s.w.hash, c, doc, k);
    if !IsTarget(c.target) {
      OutcomeEndsWith(c, doc, k);
    }
  }

  /** What the passes return for a file whose lines are gathered. */
  lemma {:induction false} FileOutcome(s: Site, ext: set<string>, ref: Ref, c: Context, isRootUser: bool)
    returns (v: seq<Instr>)
    requires FileReady(s, ref.path) && MeansApart(s, ref.path, c.target)
    requires !c.isRootFile && !c.isRootInclude && c.prefix == OwnSlug(s)
    requires c.alias == Some(s.w.slug(ref.aliasBase)) && AliasFits(s.w, s.ext, s.f.display, s.w.slug(ref.aliasBase))
    requires ChildOk(s.w, s.known, ext, isRootUser, ref, c.target)
    ensures PostProcessed(s.w.hash, c, LinesAt(s, |s.f.items|).value) == Ok(v)
    ensures Usable(s.w, s.ext, ref, c.target, Meaning(s.w, ref.path, c.target, false, FuelAt(s)), isRootUser, v)
  {
    var n := |s.f.items|;
    var doc, d, p := LinesAt(s, n).value, StagesAt(s, n), Apart(s, n);
    var k := WantedStage(s, n, d, p, c);
    SiteIncludable(s, ref.path, c, k);
    v := OutcomeOf(s, c, doc, k);
    SiteBlock(s, ref, c, k);
    if !isRootUser {
      SiteBlockOrdered(s, ref, c, k);
    }
  }

  // From the users down

  /** The file is loaded to be scoped: every file that is brought in, except by an INCLUDE at the
      root. */
  ghost predicate ScopedAt(s: Site, i: nat) {
    i < |s.f.items| && Brings(s.w, s.f.items[i]) && !ContextAt(s, i).isRootInclude
  }

  /** The site of the file that instruction i brings in. */
  function ChildSite(s: Site, i: nat): Site
    requires i < |s.f.items| && Brings(s.w, s.f.items[i]) && RefAt(s, i).path in s.w.files
  {
    var path := RefAt(s, i).path;
    SiteOf(s.w, s.known, s.known(path).ext, s.w.files[path], false, false, s.level + 1, s.chain + [path])
  }

  ghost predicate UsableAt(s: Site, i: nat)
    requires UsedAt(s, i)
  {
    Usable(s.w, s.ext, RefAt(s, i), TargetOf(s.f.items[i]), MeaningAt(s, i), s.isRoot, Child(s, i).value)
  }

  /** What the tree demands of the file that instruction i brings in. */
  ghost predicate Demands(s: Site, root: string, i: nat)
    requires i < |s.f.items| && Brings(s.w, s.f.items[i])
  {
    var path := RefAt(s, i).path;
    && ChildOk(s.w, s.known, s.ext, s.isRoot, RefAt(s, i), TargetOf(s.f.items[i]))
    && (path in s.w.files ==>
          && Brought(s.w, root, path)
          && AliasFits(s.w, s.known(path).ext, s.w.files[path].display, AliasAt(s, i)))
  }

  /** A site in the tree of the root. */
  ghost predicate Parent(s: Site, root: string) {
    && Grounded(s) && root in s.chain
    && forall i: nat :: ScopedAt(s, i) ==> Demands(s, root, i)
  }

  /** A file below the root. */
  ghost predicate InTree(s: Site, root: string, path: string) {
    && Here(s, path) && path != root && Brought(s.w, root, path) && root in s.chain && s.ext == s.known(path).ext
    && s.level > 0
  }

  lemma {:induction false} ChildAliasFits(s: Site, i: nat)
    requires i < |s.f.items| && Brings(s.w, s.f.items[i]) && RefAt(s, i).path in s.w.files
    requires SlugsApart(s.w, s.ext, s.f) && s.known(RefAt(s, i).path).ext <= s.ext
    ensures var path := RefAt(s, i).path;
            AliasFits(s.w, s.known(path).ext, s.w.files[path].display, AliasAt(s, i))
  {
    RefersAt(s, i);
    RefersSlugs(s.w, s.f, RefAt(s, i));
  }

  lemma {:induction false} DemandsMet(s: Site, root: string, i: nat, p: string)
    requires i < |s.f.items| && Brings(s.w, s.f.items[i]) && FileOk(s.w, s.known, s.ext, s.f, s.isRoot)
    requires p in s.w.files && s.f.items[i] in s.w.files[p].items && (Uses(s.f.items[i]) || Below(s.w, root, p))
    ensures Demands(s, root, i)
  {
    assert ItemOk(s.w, s.known, s.ext, s.f, s.isRoot, i);
    if RefAt(s, i).path in s.w.files {
      ChildAliasFits(s, i);
    }
  }

  lemma {:induction false} TreeParent(s: Site, root: string, path: string)
    requires Tidy(s.w, root, s.known) && InTree(s, root, path)
    ensures Parent(s, root) && FileOk(s.w, s.known, s.ext, s.f, s.isRoot)
    ensures NameSet(AllNames(s)) + HiddenAt(s, |s.f.items|) <= s.known(path).names
  {
    assert NamesKnown(s.w, s.known, path);
    forall i: nat | ScopedAt(s, i) ensures Demands(s, root, i) {
      DemandsMet(s, root, i, path);
    }
  }

  lemma {:induction false} UseLoaded(s: Site, i: nat) returns (c: LoadContext)
    requires Grounded(s) && UsedAt(s, i) && ScopedAt(s, i)
    ensures Load(s.w, RefAt(s, i).path, c) == Child(s, i)
    ensures c.target == TargetOf(s.f.items[i]) && c.alias == Some(AliasAt(s, i)) && !c.isRootInclude
    ensures c.level == s.level + 1 <= s.w.maxDepth && c.chain == s.chain
    ensures RefAt(s, i).path in s.w.files && RefAt(s, i).path !in s.chain
  {
    c := ContextAt(s, i);
    assert GroundedAt(s, i);
    LoadParts(s.w, RefAt(s, i).path, c);
  }

  /** A file below others, found under `path`. */
  lemma {:induction false} SiteIsHere(w: World, known: Outlines, path: string, level: nat, chain: seq<string>)
    requires path in w.files && level <= w.maxDepth && path in chain
    ensures var t := SiteOf(w, known, known(path).ext, w.files[path], false, false, level, chain);
            && Here(t, path) && t.w == w && t.known == known && t.ext == known(path).ext && t.f == w.files[path]
            && t.level == level && t.chain == chain
  {
    SiteGrounded(w, known, known(path).ext, w.files[path], false, false, level, chain);
  }

  lemma {:induction false} ChildHere(s: Site, i: nat)
    requires i < |s.f.items| && Brings(s.w, s.f.items[i]) && RefAt(s, i).path in s.w.files && s.level < s.w.maxDepth
    ensures var t, path := ChildSite(s, i), RefAt(s, i).path;
            && Here(t, path) && t.w == s.w && t.known == s.known && t.ext == s.known(path).ext
            && t.f == s.w.files[path] && t.level == s.level + 1 && t.chain == s.chain + [path]
  {
    var path := RefAt(s, i).path;
    SiteIsHere(s.w, s.known, path, s.level + 1, s.chain + [path]);
  }

  lemma {:induction false} ChildInTree(s: Site, root: string, i: nat)
    requires Parent(s, root) && UsedAt(s, i) && ScopedAt(s, i)
    ensures RefAt(s, i).path in s.w.files && InTree(ChildSite(s, i), root, RefAt(s, i).path)
    ensures s.level < s.w.maxDepth && FuelAt(ChildSite(s, i)) + 1 == FuelAt(s)
    ensures ChildSite(s, i).w == s.w && ChildSite(s, i).known == s.known
  {
    var c := UseLoaded(s, i);
    assert Demands(s, root, i);
    ChildHere(s, i);
  }

  /** The lines of the file were gathered. */
  lemma {:induction false} ChildLines(s: Site, i: nat)
    requires Grounded(s) && UsedAt(s, i) && ScopedAt(s, i) && RefAt(s, i).path in s.w.files && s.level < s.w.maxDepth
    ensures LinesAt(ChildSite(s, i), |ChildSite(s, i).f.items|).Ok?
  {
    var c := UseLoaded(s, i);
    ChildHere(s, i);
    LoadParts(s.w, RefAt(s, i).path, c);
  }

  lemma {:induction false} ChildFuel(s: Site, i: nat)
    requires i < |s.f.items| && Brings(s.w, s.f.items[i]) && RefAt(s, i).path in s.w.files && s.level < s.w.maxDepth
    ensures ChildSite(s, i).level <= ChildSite(s, i).w.maxDepth && FuelAt(ChildSite(s, i)) == s.w.maxDepth - s.level
  {
  }

  lemma {:induction false} ChildMeaning(s: Site, i: nat)
    requires Grounded(s) && UsedAt(s, i) && RefAt(s, i).path in s.w.files && s.level < s.w.maxDepth
    ensures MeaningAt(s, i)
            == Meaning(s.w, RefAt(s, i).path, TargetOf(s.f.items[i]), false, FuelAt(ChildSite(s, i)))
  {
    ChildFuel(s, i);
    assert GroundedAt(s, i);
  }

  lemma {:induction false} UsableMore(w: World, ext: set<string>, more: set<string>, ref: Ref, target: Option<string>,
                                      meaning: Option<Image>, isRootUser: bool, v: seq<Instr>)
    requires Usable(w, ext, ref, target, meaning, isRootUser, v) && ext <= more
    ensures Usable(w, more, ref, target, meaning, isRootUser, v)
  {
  }

  lemma {:induction false} FileUsable(s: Site, ext: set<string>, ref: Ref, c: LoadContext, isRootUser: bool)
    requires SiteReady(s) && Here(s, ref.path) && MeansApart(s, ref.path, c.target)
    requires s.level == c.level && s.chain == c.chain + [ref.path]
    requires c.level > 0 && c.alias == Some(s.w.slug(ref.aliasBase)) && !c.isRootInclude
    requires AliasFits(s.w, s.ext, s.f.display, s.w.slug(ref.aliasBase)) && s.ext <= ext
    requires ChildOk(s.w, s.known, ext, isRootUser, ref, c.target)
    requires Load(s.w, ref.path, c).Ok?
    ensures Usable(s.w, ext, ref, c.target, Meaning(s.w, ref.path, c.target, false, FuelAt(s)), isRootUser,
                   Load(s.w, ref.path, c).value)
  {
    LoadParts(s.w, ref.path, c);
    LinesGathered(s, |s.f.items|);
    var v := FileOutcome(s, ext, ref, PostContext(s.w, s.f, c), isRootUser);
    UsableMore(s.w, s.ext, ext, ref, c.target, Meaning(s.w, ref.path, c.target, false, FuelAt(s)), isRootUser, v);
  }

  lemma {:induction false} ChildUsable(s: Site, root: string, i: nat)
    requires Parent(s, root) && UsedAt(s, i) && ScopedAt(s, i)
    requires RefAt(s, i).path in s.w.files && s.level < s.w.maxDepth && SiteReady(ChildSite(s, i))
    requires MeansApart(ChildSite(s, i), RefAt(s, i).path, TargetOf(s.f.items[i]))
    ensures UsableAt(s, i)
  {
    var c := UseLoaded(s, i);
    ChildMeaning(s, i);
    ChildInTree(s, root, i);
    assert Demands(s, root, i);
    FileUsable(ChildSite(s, i), s.ext, RefAt(s, i), c, s.isRoot);
  }

  lemma {:induction false} UsableAgree(s: Site, i: nat, j: nat)
    requires Grounded(s) && OneUse(s.w, s.f) && UsedAt(s, i) && UsedAt(s, j) && RefAt(s, i).path == RefAt(s, j).path
    ensures AliasAt(s, i) == AliasAt(s, j) && Child(s, i) == Child(s, j)
  {
    if i != j {
      assert GroundedAt(s, i) && GroundedAt(s, j);
    }
  }

  lemma {:induction false} UsableOk(s: Site, i: nat)
    requires UsedAt(s, i) && UsableAt(s, i)
    ensures UseOk(s, i)
    ensures MeaningAt(s, i) == Some(Resolve(EnvOf(map[], Block(s, i)), AliasAt(s, i)))
  {
  }

  lemma {:induction false} UsableSite(s: Site)
    requires Grounded(s) && FileOk(s.w, s.known, s.ext, s.f, s.isRoot)
    requires forall i: nat :: UsedAt(s, i) ==> UsableAt(s, i)
    ensures SiteReady(s)
  {
    forall i: nat | UsedAt(s, i)
      ensures UseOk(s, i) && MeaningAt(s, i) == Some(Resolve(EnvOf(map[], Block(s, i)), AliasAt(s, i)))
    {
      assert UsableAt(s, i);
      UsableOk(s, i);
    }
    forall i: nat, j: nat | UsedAt(s, i) && UsedAt(s, j) && RefAt(s, i).path == RefAt(s, j).path
      ensures AliasAt(s, i) == AliasAt(s, j) && Child(s, i) == Child(s, j)
    {
      UsableAgree(s, i, j);
    }
  }

  lemma {:induction false} AllScoped(s: Site, i: nat)
    requires (s.level > 0 || s.flat) && UsedAt(s, i)
    ensures ScopedAt(s, i)
  {
  }

  /** Every file of a tidy tree is used correctly, and uses the files below it correctly. */
  lemma {:induction false} SiteHolds(s: Site, root: string)
    requires Tidy(s.w, root, s.known) && Parent(s, root) && FileOk(s.w, s.known, s.ext, s.f, s.isRoot)
    requires s.level > 0 || s.flat
    ensures SiteReady(s)
    decreases FuelAt(s), 1, 0
  {
    forall i: nat | UsedAt(s, i) ensures UsableAt(s, i) {
      AllScoped(s, i);
      UsedHolds(s, root, i);
    }
    UsableSite(s);
  }

  lemma {:induction false} UsedHolds(s: Site, root: string, i: nat)
    requires Tidy(s.w, root, s.known) && Parent(s, root) && UsedAt(s, i) && ScopedAt(s, i)
    ensures UsableAt(s, i)
    decreases FuelAt(s), 0, 0
  {
    ChildInTree(s, root, i);
    ChildLines(s, i);
    FileMeans(ChildSite(s, i), root, RefAt(s, i).path, TargetOf(s.f.items[i]), s.ext, s.isRoot, RefAt(s, i)) by {
      assert Demands(s, root, i);
    }
    ChildUsable(s, root, i);
  }

  /** A file that loads means what its reading with INCLUDEd stages apart gives. */
  lemma {:induction false} FileMeans(s: Site, root: string, path: string, target: Option<string>, ext: set<string>,
                                     isRootUser: bool, ref: Ref)
    requires Tidy(s.w, root, s.known) && InTree(s, root, path) && LinesAt(s, |s.f.items|).Ok?
    requires ref.path == path && ChildOk(s.w, s.known, ext, isRootUser, ref, target)
    ensures SiteReady(s) && MeansApart(s, path, target)
    decreases FuelAt(s), 2, 0
  {
    TreeParent(s, root, path);
    SiteHolds(s, root);
    var q := ReadsFrom(s, root, path, |s.f.items|, NOTHING);
    MeansBoth(s, path, target, q);
  }

  /** Read in place from anywhere, the file gives what it gives apart. */
  lemma {:induction false} ReadsFrom(s: Site, root: string, path: string, n: nat, q0: Progress) returns (q: Progress)
    requires Tidy(s.w, root, s.known) && InTree(s, root, path) && SiteReady(s) && Parent(s, root) && Outside(s, q0)
    requires n <= |s.f.items| && LinesAt(s, n).Ok?
    ensures ReadAt(s, n, q0) == Some(q) && Reads(s, n, q0, q, Apart(s, n))
    decreases FuelAt(s), 1, n
  {
    if n == 0 {
      q := q0;
      NothingRead(s, q0);
    } else {
      var m := n - 1;
      LinesOkBefore(s.w, s.f, s.level, s.chain, m, n);
      q := ReadsFrom(s, root, path, m, q0);
      q := ReadsNext(s, root, path, m, q0, q);
    }
  }

  lemma {:induction false} ReadsNext(s: Site, root: string, path: string, n: nat, q0: Progress, q: Progress)
    returns (r: Progress)
    requires Tidy(s.w, root, s.known) && InTree(s, root, path) && SiteReady(s) && Parent(s, root) && Outside(s, q0)
    requires n < |s.f.items| && LinesAt(s, n + 1).Ok?
    requires ReadAt(s, n, q0) == Some(q) && Reads(s, n, q0, q, Apart(s, n))
    ensures ReadAt(s, n + 1, q0) == Some(r) && Reads(s, n + 1, q0, r, Apart(s, n + 1))
    decreases FuelAt(s), 0, 1
  {
    TidyStep(s, n);
    SameHere(s, n);
    StepMeans(s, n);
    ApartNext(s, n);
    r := ReadOnce(s, n, s, n, root, q0, q0, q, Apart(s, n));
  }

  lemma {:induction false} SameHere(s: Site, n: nat)
    requires Grounded(s) && StepOk(s, n)
    ensures Same(s, n, s, n)
  {
  }

  lemma {:induction false} StepMeans(s: Site, n: nat)
    requires SiteReady(s) && StepOk(s, n)
    ensures Brings(s.w, s.f.items[n]) ==> MeaningAt(s, n).Some?
  {
  }

  /** One instruction more: instruction m of t, which is instruction i of s. */
  lemma {:induction false} ReadOnce(s: Site, i: nat, t: Site, m: nat, root: string, start: Progress, q0: Progress,
                                    q: Progress, p: Progress)
    returns (r: Progress)
    requires Tidy(t.w, root, t.known) && Parent(t, root) && !t.flat && SiteOk(s) && Outside(s, q0)
    requires Same(s, i, t, m) && StepOk(s, i) && StepOk(t, m) && LinesAt(t, m + 1).Ok?
    requires Brings(t.w, t.f.items[m]) ==> MeaningAt(t, m).Some? && MeaningAt(t, m) == MeaningAt(s, i)
    requires StageInclude(t.w, t.f.items[m]) ==> ScopedAt(t, m)
    requires Reads(s, i, q0, q, p) && ReadAt(t, m, start) == Some(q)
    requires s.f.items[i].CopyFile? ==> HasStage(s.w, s.f, i)
    ensures ReadAt(t, m + 1, start) == Some(r) && Reads(s, i + 1, q0, r, StepProgress(s, i, p))
    decreases FuelAt(t), 0, 0
  {
    if StageInclude(t.w, t.f.items[m]) {
      r := ReadIncluded(s, i, t, m, root, start, q0, q, p);
      IncludeStep(s, i, [], p);
    } else {
      ReadStep(t, m, start, q);
      SameProgress(s, i, t, m, q);
      StepAgrees(s, i, q0, q, p);
      r := StepProgress(s, i, q);
    }
  }

  /** What the INCLUDEd file refers to outside is external where it is read. */
  lemma {:induction false} OutsideHere(s: Site, i: nat, q0: Progress, q: Progress, p: Progress, c: Site)
    requires SiteOk(s) && i < |s.f.items| && StageInclude(s.w, s.f.items[i]) && Reads(s, i, q0, q, p) && Outside(s, q0)
    requires c.ext == s.known(s.f.items[i].ref.path).ext
    ensures Outside(c, q)
  {
    assert ItemOk(s.w, s.known, s.ext, s.f, s.isRoot, i);
    forall e | e in c.ext ensures e !in Close(q) {
      ExternalSeen(s, i, q0, q, p, e);
    }
  }

  lemma {:induction false} IncludedStarted(c: Site, q0: Progress, q: Progress, p: Progress, path: string)
    requires Reads(c, |c.f.items|, q0, q, p) && HasStage(c.w, c.f, |c.f.items|)
    requires NameSet(AllNames(c)) + HiddenAt(c, |c.f.items|) <= c.known(path).names
    ensures q.started && q.img == p.img && Covered(q.name, c.known(path).names)
    ensures forall r :: r !in c.known(path).names ==>
              (r in Close(q) <==> r in Close(q0)) && Resolve(Close(q), r) == Resolve(Close(q0), r)
  {
    OthersStay(c, q0, q, p, c.known(path).names);
  }

  lemma {:induction false} ReadIncluded(s: Site, i: nat, t: Site, m: nat, root: string, start: Progress, q0: Progress,
                                        q: Progress, p: Progress)
    returns (r: Progress)
    requires Tidy(t.w, root, t.known) && Parent(t, root) && !t.flat && SiteOk(s) && Outside(s, q0)
    requires Same(s, i, t, m) && UsedAt(t, m) && ScopedAt(t, m) && StageInclude(t.w, t.f.items[m])
    requires MeaningAt(t, m) == MeaningAt(s, i) && MeaningAt(s, i).Some?
    requires Reads(s, i, q0, q, p) && ReadAt(t, m, start) == Some(q)
    ensures ReadAt(t, m + 1, start) == Some(r)
    ensures Reads(s, i + 1, q0, r, Progress(Close(p), Some(AliasAt(s, i)), MeaningAt(s, i).value, true))
    decreases FuelAt(t), 0, -1
  {
    ChildInTree(t, root, m);
    var c, path := ChildSite(t, m), RefAt(t, m).path;
    ChildLines(t, m);
    assert Demands(t, root, m);
    FileMeans(c, root, path, None, t.ext, t.isRoot, RefAt(t, m));
    TreeParent(c, root, path);
    OutsideHere(s, i, q0, q, p, c);
    r := ReadsFrom(c, root, path, |c.f.items|, q);
    ChildMeaning(t, m);
    ReadInPlace(t, m, start, q, c);
    IncludedStarted(c, q, r, Apart(c, |c.f.items|), path);
    IncludeAgrees(s, i, q0, q, p, c, r, r.img);
  }

  // What a file puts in

  /** What the file that instruction i brings in puts in: the outcome of the passes over its lines. */
  lemma {:induction false} UsedOutcome(s: Site, root: string, i: nat) returns (c: Context, doc: seq<Instr>, k: nat)
    requires Tidy(s.w, root, s.known) && Parent(s, root) && UsedAt(s, i) && ScopedAt(s, i)
    ensures RefAt(s, i).path in s.w.files && s.level < s.w.maxDepth
    ensures var t := ChildSite(s, i);
            && SiteReady(t) && Parent(t, root) && t.level > 0
            && LinesAt(t, |t.f.items|) == Ok(doc) && Gathered(t, |t.f.items|)
    ensures Includable(c, doc, k) && Block(s, i) == Outcome(c, doc)
    ensures c.alias == Some(AliasAt(s, i)) && c.prefix == s.w.slug(s.w.files[RefAt(s, i).path].display)
    ensures forall x :: x in Stages(Defaulted(doc)) ==> x.alias.Some?
  {
    var load := UseLoaded(s, i);
    ChildInTree(s, root, i);
    TreeParent(ChildSite(s, i), root, RefAt(s, i).path);
    SiteHolds(ChildSite(s, i), root);
    assert Demands(s, root, i);
    c, doc, k := SiteOutcome(ChildSite(s, i), RefAt(s, i), load, s.ext, s.isRoot);
  }

  lemma {:induction false} SiteOutcome(t: Site, ref: Ref, load: LoadContext, ext: set<string>, isRootUser: bool)
    returns (c: Context, doc: seq<Instr>, k: nat)
    requires SiteReady(t) && Here(t, ref.path)
    requires t.level == load.level && t.chain == load.chain + [ref.path]
    requires load.level > 0 && load.alias == Some(t.w.slug(ref.aliasBase)) && !load.isRootInclude
    requires AliasFits(t.w, t.ext, t.f.display, t.w.slug(ref.aliasBase))
    requires ChildOk(t.w, t.known, ext, isRootUser, ref, load.target) && Load(t.w, ref.path, load).Ok?
    ensures LinesAt(t, |t.f.items|) == Ok(doc) && Gathered(t, |t.f.items|)
    ensures Includable(c, doc, k) && Load(t.w, ref.path, load) == Ok(Deduplicated(Aliased(c, doc)))
    ensures c.alias == load.alias && c.prefix == OwnSlug(t)
    ensures forall x :: x in Stages(Defaulted(doc)) ==> x.alias.Some?
  {
    LoadParts(t.w, ref.path, load);
    LinesGathered(t, |t.f.items|);
    var n := |t.f.items|;
    c := PostContext(t.w, t.f, load);
    doc := LinesAt(t, n).value;
    k := WantedStage(t, n, StagesAt(t, n), Apart(t, n), c);
    SiteIncludable(t, ref.path, c, k);
    AllStagesNamed(t, n, OwnAt(t, n), StagesAt(t, n));
    IncludedResult(t.w.hash, c, doc, k);
  }
}
