/** The lines gathered from a file of a tidy tree, one instruction after the other: their stages
    keep the invariants of LineInvariants and LineOrder and build what the instructions stand for. */
module GatheredLines {
  import opened Dockerfile
  import opened ScopeStages
  import opened ScopedOrder
  import opened LoadDockerfile
  import opened IncludeGuards
  import opened Interpreter
  import opened TidyTrees
  import opened Snippets
  import opened LineInvariants
  import opened LineOrder
  import opened LineMeaning
  import opened LineSteps

  /** How deep a file at this level may still nest. */
  function FuelAt(s: Site): nat
    requires s.level <= s.w.maxDepth
  {
    s.w.maxDepth - s.level + 1
  }

  function OwnAt(s: Site, n: nat): seq<string>
    requires n <= |s.f.items|
  {
    OwnNames(s.w, s.f, s.isRoot, n)
  }

  /** The invariants and the meaning of the stages after n instructions. */
  ghost predicate Kept(s: Site, n: nat, ss: seq<Stage>, p: Progress)
    requires n <= |s.f.items|
  {
    && (ss != [] <==> HasStage(s.w, s.f, n))
    && Syntax(s, n, OwnAt(s, n), ss)
    && Semantics(s, n, ss, p)
    && (!s.isRoot ==> InOrder(s, n, OwnAt(s, n), Names(ss)))
  }

  ghost predicate SiteReady(s: Site) {
    Grounded(s) && SiteOk(s) && ChildrenMean(s)
  }

  lemma {:induction false} OwnKnown(s: Site, n: nat)
    requires n <= |s.f.items|
    ensures Known(s, OwnAt(s, n))
  {
    forall u | u in OwnAt(s, n) ensures u in AllNames(s) {
      OwnNamesGrow(s, n, u);
    }
  }

  // What an instruction stands for

  /** What instruction n does to what is known so far, if the stages of INCLUDEd files stay apart: an
      INCLUDE is like a FROM of the file under its slug. */
  function StepProgress(s: Site, n: nat, p: Progress): Progress
    requires StepOk(s, n)
    requires Brings(s.w, s.f.items[n]) ==> MeaningAt(s, n).Some?
  {
    var item := s.f.items[n];
    match item
    case FromFile(_, _, _) => Progress(Close(p), StageName(s.isRoot, item), MeaningAt(s, n).value, true)
    case CopyFile(verb, _, _, rest) =>
      p.(img := Image(p.img.root, p.img.layers + [Copied(verb, MeaningAt(s, n).value, rest)]))
    case Include(_) =>
      if StageInclude(s.w, item) then Progress(Close(p), Some(AliasAt(s, n)), MeaningAt(s, n).value, true)
      else p.(img := Build(p.env, p.img, InlineBody(s.w, item)))
    case Plain(i) =>
      if i.From? then Progress(Close(p), StageName(s.isRoot, item), Resolve(Close(p), i.base), true)
      else p.(img := Build(p.env, p.img, InlineBody(s.w, item)))
    case IncludeEnv(_, _) => p.(img := Build(p.env, p.img, InlineBody(s.w, item)))
  }

  /** What the first n instructions stand for. */
  ghost function Apart(s: Site, n: nat): Progress
    requires n <= |s.f.items|
  {
    if n == 0 then NOTHING
    else
      var p := Apart(s, n - 1);
      if StepOk(s, n - 1) && (Brings(s.w, s.f.items[n - 1]) ==> MeaningAt(s, n - 1).Some?)
      then StepProgress(s, n - 1, p)
      else p
  }

  lemma {:induction false} ApartNext(s: Site, n: nat)
    requires StepOk(s, n) && (Brings(s.w, s.f.items[n]) ==> MeaningAt(s, n).Some?)
    ensures Apart(s, n + 1) == StepProgress(s, n, Apart(s, n))
  {
  }

  lemma {:induction false} BodyProgress(s: Site, n: nat, p: Progress)
    requires StepOk(s, n) && IsBody(s.w, s.f.items[n])
    ensures StepProgress(s, n, p) == p.(img := Build(p.env, p.img, InlineBody(s.w, s.f.items[n])))
  {
  }

  ghost predicate Gathered(s: Site, n: nat)
    requires s.level <= s.w.maxDepth && n <= |s.f.items| && LinesAt(s, n).Ok?
  {
    AnchoredAt(s, n) && Kept(s, n, StagesAt(s, n), Apart(s, n))
  }

  // Body instructions

  lemma {:induction false} InlineItem(s: Site, n: nat)
    requires SiteOk(s) && StepOk(s, n) && IsBody(s.w, s.f.items[n])
    ensures BodyOk(s.w, s.ext, s.f, s.isRoot, n, InlineBody(s.w, s.f.items[n]))
  {
    assert ItemOk(s.w, s.known, s.ext, s.f, s.isRoot, n);
  }

  /** Before the first FROM nothing is built. */
  lemma {:induction false} PreambleKept(s: Site, n: nat, p: Progress)
    requires n < |s.f.items| && IsBody(s.w, s.f.items[n])
    requires Kept(s, n, [], p)
    ensures forall img :: Kept(s, n + 1, [], p.(img := img))
  {
    NoStageStarts(s.w, s.f, s.isRoot, n);
    SyntaxLater(s, n, n + 1, OwnAt(s, n), []);
    if !s.isRoot {
      PlainKeepsOrder(s, n, OwnAt(s, n), []);
    }
  }

  lemma {:induction false} FinishedOwnNames(s: Site, n: nat, u: string)
    requires n <= |s.f.items| && u in Finished(s.w, s.f, s.isRoot, n)
    ensures u in AllNames(s)
  {
    if StartsStage(s.w, s.f.items[n - 1]) {
      OwnNamesGrow(s, n - 1, u);
    } else {
      FinishedOwnNames(s, n - 1, u);
    }
  }

  lemma {:induction false} BodyRefsOwn(s: Site, n: nat, body: seq<Instr>)
    requires n <= |s.f.items| && BodyRefs(body) <= s.ext + Finished(s.w, s.f, s.isRoot, n)
    ensures OwnRefs(s, body)
  {
    forall r | r in BodyRefs(body) ensures OwnRef(s, r) {
      if r in Finished(s.w, s.f, s.isRoot, n) {
        FinishedOwnNames(s, n, r);
      }
    }
  }

  lemma {:induction false} BodyKept(s: Site, n: nat, ss: seq<Stage>, body: seq<Instr>, p: Progress)
    requires n < |s.f.items| && IsBody(s.w, s.f.items[n])
    requires ss != [] && Kept(s, n, ss, p)
    requires BodyRefs(body) <= s.ext + Finished(s.w, s.f, s.isRoot, n)
    ensures Kept(s, n + 1, Extend(ss, body), p.(img := Build(p.env, p.img, body)))
  {
    NoStageStarts(s.w, s.f, s.isRoot, n);
    BodyRuns(s, n, ss[..|ss| - 1], ss[|ss| - 1], body, p);
    BodyRefsOwn(s, n, body);
    BodyAdded(s, n, OwnAt(s, n), ss, body);
    SyntaxLater(s, n, n + 1, OwnAt(s, n), Extend(ss, body));
    ExtendNames(ss, body);
    if !s.isRoot {
      PlainKeepsOrder(s, n, OwnAt(s, n), Names(ss));
    }
    assert Extend(ss, body)[..|ss| - 1] == ss[..|ss| - 1];
  }

  lemma {:induction false} InlineKept(s: Site, n: nat, ss: seq<Stage>, p: Progress)
    requires SiteReady(s) && StepOk(s, n) && IsBody(s.w, s.f.items[n])
    requires Kept(s, n, ss, p)
    ensures ss == [] ==> Effective(InlineBody(s.w, s.f.items[n])) == []
    ensures Kept(s, n + 1, StepStages(s, n, ss), StepProgress(s, n, p))
  {
    var body := InlineBody(s.w, s.f.items[n]);
    InlineItem(s, n);
    BodyProgress(s, n, p);
    BuildEffective(p.env, p.img, body);
    if ss == [] {
      PreambleKept(s, n, p);
    } else {
      BodyKept(s, n, ss, Effective(body), p);
    }
  }

  // A new stage

  lemma {:induction false} NewName(s: Site, n: nat)
    requires SiteOk(s) && n < |s.f.items| && StartsStage(s.w, s.f.items[n])
    ensures var name := NameOf(s.w, s.isRoot, s.f.items[n]);
            && OwnAt(s, n + 1) == OwnAt(s, n) + (if name.Some? then [name.value] else [])
            && (name.Some? ==> name.value !in OwnAt(s, n) && name.value in AllNames(s))
            && (name.None? ==> s.isRoot)
  {
    var name := NameOf(s.w, s.isRoot, s.f.items[n]);
    if name.Some? {
      OwnNamesGrow(s, n + 1, name.value);
      DistinctPrefix(s.w, s.f, s.isRoot, n + 1);
      var own := OwnAt(s, n + 1);
      assert own[|own| - 1] == name.value && own[..|own| - 1] == OwnAt(s, n);
    }
  }

  lemma {:induction false} DistinctPrefix(w: World, f: File, isRoot: bool, n: nat)
    requires n <= |f.items| && Distinct(OwnNames(w, f, isRoot, |f.items|))
    ensures Distinct(OwnNames(w, f, isRoot, n))
    decreases |f.items| - n
  {
    if n < |f.items| {
      DistinctPrefix(w, f, isRoot, n + 1);
      var own, more := OwnNames(w, f, isRoot, n), OwnNames(w, f, isRoot, n + 1);
      assert forall i :: 0 <= i < |own| ==> own[i] == more[i];
    }
  }

  lemma {:induction false} OwnNamesPrefix(w: World, f: File, isRoot: bool, n: nat, m: nat)
    requires n <= m <= |f.items|
    ensures OwnNames(w, f, isRoot, n) <= OwnNames(w, f, isRoot, m)
    decreases m
  {
    if n < m {
      OwnNamesPrefix(w, f, isRoot, n, m - 1);
    }
  }

  /** A stage after the stages `done`. */
  lemma {:induction false} StageKept(s: Site, n: nat, done: seq<Stage>, x: Stage, p: Progress, img: Image)
    requires SiteReady(s) && n < |s.f.items| && StartsStage(s.w, s.f.items[n])
    requires Syntax(s, n + 1, OwnAt(s, n), done)
    requires ImagesOk(s, NameSet(OwnAt(s, n)), n + 1, EnvOf(map[], done), Close(p))
    requires AliasesIn(s, n + 1, Declared(done))
    requires NameSet(OwnAt(s, n)) <= Declared(done) * Close(p).Keys
    requires x.alias == NameOf(s.w, s.isRoot, s.f.items[n]) && ImageOf(EnvOf(map[], done), x) == img
    requires Refs(x) <= s.ext + Declared(done)
    requires !s.isRoot ==> OwnStageOk(s, n + 1, x) && InOrder(s, n + 1, OwnAt(s, n + 1), Names(done + [x]))
    ensures Kept(s, n + 1, done + [x], Progress(Close(p), x.alias, img, true))
  {
    NewName(s, n);
    OwnKnown(s, n);
    OwnStageAdded(s, n + 1, OwnAt(s, n), done, x);
    StageStarts(s, n, done, x, p, img);
  }

  /** A stage with a name of its own comes behind all names so far. */
  lemma {:induction false} OwnStageInOrder(s: Site, n: nat, done: seq<Stage>, x: Stage)
    requires SiteOk(s) && !s.isRoot && n < |s.f.items| && InOrder(s, n + 1, OwnAt(s, n), Names(done))
    requires x.alias.Some? && StageName(false, s.f.items[n]) == x.alias
    ensures InOrder(s, n + 1, OwnAt(s, n + 1), Names(done + [x]))
  {
    assert StartsStage(s.w, s.f.items[n]) && NameOf(s.w, s.isRoot, s.f.items[n]) == x.alias;
    NewName(s, n);
    OwnNamesPrefix(s.w, s.f, s.isRoot, n + 1, |s.f.items|);
    OneName(x);
    NamesConcat(done, [x]);
    OwnNameKeepsOrder(s, n + 1, OwnAt(s, n), Names(done), x.alias.value);
  }

  lemma {:induction false} OneName(x: Stage)
    requires x.alias.Some?
    ensures Names([x]) == [x.alias.value]
  {
    assert [x][..0] == [];
  }

  /** An INCLUDEd file's slug is hidden behind the INCLUDE, so nothing refers to it. */
  lemma {:induction false} AliasHidden(s: Site, i: nat, n: nat)
    requires SiteOk(s) && i < n <= |s.f.items| && StageInclude(s.w, s.f.items[i])
    ensures AliasAt(s, i) in Hidden(s.w, s.known, s.f, s.isRoot, n) && AliasAt(s, i) in OwnAt(s, n)
    decreases n
  {
    if i + 1 < n {
      AliasHidden(s, i, n - 1);
      if StartsStage(s.w, s.f.items[n - 1]) {
        NewName(s, n - 1);
      }
    }
  }

  /** What an instruction refers to is external or a stage with a name that the file gives. */
  lemma {:induction false} RefIsPlain(s: Site, n: nat, r: string)
    requires SiteOk(s) && n < |s.f.items| && r in ItemRefs(s.w, s.known, s.f.items[n]) && r in OwnAt(s, n)
    ensures PlainName(s, r) && r in AllNames(s)
  {
    assert ItemOk(s.w, s.known, s.ext, s.f, s.isRoot, n);
    OwnNamesGrow(s, n, r);
    var k := NameOrigin(s.w, s.f, s.isRoot, n, r);
    if !NamesStage(s.f, s.isRoot, k, r) {
      AliasHidden(s, k, n);
    }
  }

  lemma {:induction false} OwnBaseOk(s: Site, n: nat)
    requires SiteOk(s) && !s.isRoot && n < |s.f.items| && s.f.items[n].Plain? && s.f.items[n].instr.From?
    ensures OwnStageOk(s, n + 1, Stage(s.f.items[n].instr.base, NameOf(s.w, s.isRoot, s.f.items[n]), []))
  {
    var base := s.f.items[n].instr.base;
    assert ItemOk(s.w, s.known, s.ext, s.f, s.isRoot, n);
    assert OwnBase(s.f, base);
    if base in s.ext {
      if k: nat :| NamesStage(s.f, s.isRoot, k, base) {
        PlainNotExternal(s, k, base);
      }
    } else {
      RefIsPlain(s, n, base);
    }
  }

  lemma {:induction false} EmptyRefs(base: string, name: Option<string>)
    ensures Refs(Stage(base, name, [])) == {base}
    ensures forall e :: ImageOf(e, Stage(base, name, [])) == Resolve(e, base)
  {
  }

  lemma {:induction false} FromOrdered(s: Site, n: nat, ss: seq<Stage>, x: Stage)
    requires SiteOk(s) && !s.isRoot && n < |s.f.items| && s.f.items[n].Plain? && s.f.items[n].instr.From?
    requires InOrder(s, n, OwnAt(s, n), Names(ss)) && x.alias == NameOf(s.w, s.isRoot, s.f.items[n])
    ensures InOrder(s, n + 1, OwnAt(s, n + 1), Names(ss + [x]))
  {
    PlainKeepsOrder(s, n, OwnAt(s, n), Names(ss));
    OwnStageInOrder(s, n, ss, x);
  }

  /** The stages so far, when the next instruction brings nothing in. */
  lemma {:induction false} StageFinished(s: Site, n: nat, ss: seq<Stage>, p: Progress)
    requires SiteOk(s) && n < |s.f.items| && !Uses(s.f.items[n])
    requires Syntax(s, n, OwnAt(s, n), ss) && Semantics(s, n, ss, p)
    ensures Syntax(s, n + 1, OwnAt(s, n), ss)
    ensures ImagesOk(s, NameSet(OwnAt(s, n)), n + 1, EnvOf(map[], ss), Close(p))
    ensures AliasesIn(s, n + 1, Declared(ss)) && NameSet(OwnAt(s, n)) <= Declared(ss) * Close(p).Keys
  {
    FinishStage(s, n, ss, p);
    NothingUsed(s, NameSet(OwnAt(s, n)), n, Declared(ss), EnvOf(map[], ss), Close(p));
    SyntaxLater(s, n, n + 1, OwnAt(s, n), ss);
  }

  lemma {:induction false} BaseKnown(s: Site, n: nat, ss: seq<Stage>, p: Progress, base: string)
    requires n <= |s.f.items| && base in s.ext + NameSet(OwnAt(s, n))
    requires ImagesOk(s, NameSet(OwnAt(s, n)), n + 1, EnvOf(map[], ss), Close(p))
    requires NameSet(OwnAt(s, n)) <= Declared(ss) * Close(p).Keys
    ensures Resolve(EnvOf(map[], ss), base) == Resolve(Close(p), base) && base in s.ext + Declared(ss)
  {
  }

  lemma {:induction false} FromStage(s: Site, n: nat, ss: seq<Stage>, p: Progress, base: string, x: Stage)
    requires SiteReady(s) && n < |s.f.items| && s.f.items[n].Plain? && s.f.items[n].instr.From?
    requires x == Stage(base, NameOf(s.w, s.isRoot, s.f.items[n]), []) && base in s.ext + NameSet(OwnAt(s, n))
    requires Syntax(s, n, OwnAt(s, n), ss) && Semantics(s, n, ss, p)
    requires !s.isRoot ==> OwnStageOk(s, n + 1, x) && InOrder(s, n + 1, OwnAt(s, n + 1), Names(ss + [x]))
    ensures Kept(s, n + 1, ss + [x], Progress(Close(p), x.alias, Resolve(Close(p), base), true))
  {
    StageFinished(s, n, ss, p);
    BaseKnown(s, n, ss, p, base);
    EmptyRefs(base, x.alias);
    StageKept(s, n, ss, x, p, Resolve(Close(p), base));
  }

  lemma {:induction false} FromStep(s: Site, n: nat, ss: seq<Stage>, p: Progress)
    requires StepOk(s, n) && s.f.items[n].Plain? && s.f.items[n].instr.From?
    ensures var base, name := s.f.items[n].instr.base, NameOf(s.w, s.isRoot, s.f.items[n]);
            && StepStages(s, n, ss) == ss + [Stage(base, name, [])]
            && StepProgress(s, n, p) == Progress(Close(p), name, Resolve(Close(p), base), true)
  {
  }

  lemma {:induction false} FromKept(s: Site, n: nat, ss: seq<Stage>, p: Progress)
    requires SiteReady(s) && StepOk(s, n) && s.f.items[n].Plain? && s.f.items[n].instr.From?
    requires Kept(s, n, ss, p)
    ensures Kept(s, n + 1, StepStages(s, n, ss), StepProgress(s, n, p))
  {
    var base := s.f.items[n].instr.base;
    var x := Stage(base, NameOf(s.w, s.isRoot, s.f.items[n]), []);
    assert ItemOk(s.w, s.known, s.ext, s.f, s.isRoot, n);
    if !s.isRoot {
      OwnBaseOk(s, n);
      FromOrdered(s, n, ss, x);
    }
    FromStage(s, n, ss, p, base, x);
    FromStep(s, n, ss, p);
  }

  // FROM of a file

  lemma {:induction false} Appended(s: Site, n: nat, own: seq<string>, ss: seq<Stage>, c: seq<Stage>)
    requires SiteOk(s) && UsedAt(s, n) && Syntax(s, n + 1, own, ss) && Known(s, own) && c == Inserted(s, n)
    ensures Syntax(s, n + 1, own, ss + c)
    ensures Declared(ss + c) == Declared(ss) + Declared(c)
  {
    assert ss + [] == ss && ss + c + [] == ss + c;
    BlockInserted(s, n + 1, own, ss, n, []);
    NamesConcat(ss, c);
  }

  /** The stages of a file are added at the end, its alias stage aside if it is INCLUDEd. */
  lemma {:induction false} AppendedImages(s: Site, n: nat, ss: seq<Stage>, p: Progress, c: seq<Stage>)
    requires SiteReady(s) && UsedAt(s, n) && c == Inserted(s, n)
    requires Syntax(s, n, OwnAt(s, n), ss) && Semantics(s, n, ss, p)
    requires Uses(s.f.items[n]) ==> c == Block(s, n)
    ensures Syntax(s, n + 1, OwnAt(s, n), ss + c) && Declared(ss + c) == Declared(ss) + Declared(c)
    ensures ImagesOk(s, NameSet(OwnAt(s, n)), n + 1, EnvOf(map[], ss + c), Close(p))
    ensures AliasesIn(s, n + 1, Declared(ss + c))
    ensures NameSet(OwnAt(s, n)) <= Declared(ss + c) * Close(p).Keys
  {
    var own := OwnAt(s, n);
    OwnKnown(s, n);
    SyntaxLater(s, n, n + 1, own, ss);
    Appended(s, n, own, ss, c);
    FinishStage(s, n, ss, p);
    BlockImages(s, n, own, NameSet(own), ss, ss + c, Close(p));
  }

  lemma {:induction false} AliasIsLive(s: Site, i: nat)
    requires SiteOk(s) && UsedAt(s, i)
    ensures OwnRef(s, AliasAt(s, i)) && AliasAt(s, i) in Declared(Block(s, i)) && !PlainName(s, AliasAt(s, i))
  {
    UptoPrefix(Block(s, i), AliasAt(s, i));
    GeneratedBase(s, i, AliasAt(s, i));
  }

  lemma {:induction false} FromFileOrdered(s: Site, n: nat, ss: seq<Stage>, x: Stage)
    requires SiteOk(s) && !s.isRoot && UsedAt(s, n) && s.f.items[n].FromFile? && AllLoaded(s, n)
    requires InOrder(s, n, OwnAt(s, n), Names(ss)) && x == Stage(AliasAt(s, n), StageName(false, s.f.items[n]), [])
    ensures InOrder(s, n + 1, OwnAt(s, n + 1), Names(ss + Block(s, n) + [x])) && OwnStageOk(s, n + 1, x)
  {
    BlockAppendedInOrder(s, n, OwnAt(s, n), Names(ss));
    assert OwnAt(s, n) + [] == OwnAt(s, n);
    NamesConcat(ss, Block(s, n));
    OwnStageInOrder(s, n, ss + Block(s, n), x);
    AliasIsLive(s, n);
    assert LiveBase(s, n + 1, AliasAt(s, n));
  }

  lemma {:induction false} FromFileImages(s: Site, n: nat, done: seq<Stage>, x: Stage)
    requires SiteReady(s) && UsedAt(s, n) && Uses(s.f.items[n])
    requires Syntax(s, n + 1, OwnAt(s, n), done) && forall y :: y in Block(s, n) ==> y in done
    requires x.base == AliasAt(s, n) && x.body == []
    ensures MeaningAt(s, n) == Some(ImageOf(EnvOf(map[], done), x)) && Refs(x) <= s.ext + Declared(done)
  {
    OwnKnown(s, n);
    AliasMeans(s, n + 1, OwnAt(s, n), done, n);
    EmptyRefs(x.base, x.alias);
  }

  lemma {:induction false} FromFileStage(s: Site, n: nat, ss: seq<Stage>, p: Progress, x: Stage)
    requires SiteReady(s) && UsedAt(s, n) && s.f.items[n].FromFile?
    requires x == Stage(AliasAt(s, n), NameOf(s.w, s.isRoot, s.f.items[n]), [])
    requires Syntax(s, n, OwnAt(s, n), ss) && Semantics(s, n, ss, p)
    requires !s.isRoot ==>
               OwnStageOk(s, n + 1, x) && InOrder(s, n + 1, OwnAt(s, n + 1), Names(ss + Block(s, n) + [x]))
    ensures MeaningAt(s, n).Some?
    ensures Kept(s, n + 1, ss + Block(s, n) + [x], Progress(Close(p), x.alias, MeaningAt(s, n).value, true))
  {
    var done := ss + Block(s, n);
    AppendedImages(s, n, ss, p, Block(s, n));
    FromFileImages(s, n, done, x);
    StageKept(s, n, done, x, p, MeaningAt(s, n).value);
  }

  lemma {:induction false} FromFileStep(s: Site, n: nat, ss: seq<Stage>, p: Progress)
    requires StepOk(s, n) && s.f.items[n].FromFile? && MeaningAt(s, n).Some?
    ensures UsedAt(s, n)
    ensures var name := NameOf(s.w, s.isRoot, s.f.items[n]);
            && StepStages(s, n, ss) == ss + Block(s, n) + [Stage(AliasAt(s, n), name, [])]
            && StepProgress(s, n, p) == Progress(Close(p), name, MeaningAt(s, n).value, true)
  {
  }

  lemma {:induction false} FromFileKept(s: Site, n: nat, ss: seq<Stage>, p: Progress)
    requires SiteReady(s) && StepOk(s, n) && s.f.items[n].FromFile? && Kept(s, n, ss, p)
    requires !s.isRoot ==> AllLoaded(s, n)
    ensures MeaningAt(s, n).Some?
    ensures Kept(s, n + 1, StepStages(s, n, ss), StepProgress(s, n, p))
  {
    var x := Stage(AliasAt(s, n), NameOf(s.w, s.isRoot, s.f.items[n]), []);
    if !s.isRoot {
      FromFileOrdered(s, n, ss, x);
    }
    FromFileStage(s, n, ss, p, x);
    FromFileStep(s, n, ss, p);
  }

  // INCLUDE of a file with stages

  lemma {:induction false} IncludeOrdered(s: Site, n: nat, ss: seq<Stage>)
    requires SiteOk(s) && !s.isRoot && UsedAt(s, n) && s.f.items[n].Include? && AllLoaded(s, n)
    requires InOrder(s, n, OwnAt(s, n), Names(ss))
    ensures Block(s, n) != []
    ensures InOrder(s, n + 1, OwnAt(s, n + 1), Names(ss + Inserted(s, n) + [AliasStage(s, n)]))
    ensures OwnStageOk(s, n + 1, AliasStage(s, n))
  {
    IncludeParts(s, n);
    assert ss + Inserted(s, n) + [AliasStage(s, n)] == ss + Block(s, n);
    NamesConcat(ss, Block(s, n));
    NewName(s, n);
    BlockAppendedInOrder(s, n, OwnAt(s, n), Names(ss));
    AliasStageOk(s, n + 1, n);
  }

  lemma {:induction false} IncludeNewName(s: Site, n: nat)
    requires SiteOk(s) && UsedAt(s, n) && s.f.items[n].Include?
    ensures AliasAt(s, n) !in OwnAt(s, n) && AliasAt(s, n) in AllNames(s)
  {
    NewName(s, n);
  }

  lemma {:induction false} IncludeStage(s: Site, n: nat, ss: seq<Stage>, p: Progress)
    requires SiteReady(s) && UsedAt(s, n) && s.f.items[n].Include? && Block(s, n) != []
    requires Syntax(s, n, OwnAt(s, n), ss) && Semantics(s, n, ss, p)
    requires !s.isRoot ==>
               && OwnStageOk(s, n + 1, AliasStage(s, n))
               && InOrder(s, n + 1, OwnAt(s, n + 1), Names(ss + Inserted(s, n) + [AliasStage(s, n)]))
    ensures MeaningAt(s, n).Some?
    ensures Kept(s, n + 1, ss + Inserted(s, n) + [AliasStage(s, n)],
                 Progress(Close(p), Some(AliasAt(s, n)), MeaningAt(s, n).value, true))
  {
    var own, done := OwnAt(s, n), ss + Inserted(s, n);
    AppendedImages(s, n, ss, p, Inserted(s, n));
    OwnKnown(s, n);
    IncludeParts(s, n);
    IncludeNewName(s, n);
    AliasStageMeans(s, n, own, done);
    StageKept(s, n, done, AliasStage(s, n), p, MeaningAt(s, n).value);
  }

  lemma {:induction false} IncludeStep(s: Site, n: nat, ss: seq<Stage>, p: Progress)
    requires StepOk(s, n) && StageInclude(s.w, s.f.items[n]) && MeaningAt(s, n).Some?
    ensures UsedAt(s, n) && Block(s, n) != []
    ensures StepStages(s, n, ss) == ss + Inserted(s, n) + [AliasStage(s, n)]
    ensures StepProgress(s, n, p) == Progress(Close(p), Some(AliasAt(s, n)), MeaningAt(s, n).value, true)
  {
  }

  lemma {:induction false} IncludeKept(s: Site, n: nat, ss: seq<Stage>, p: Progress)
    requires SiteReady(s) && StepOk(s, n) && StageInclude(s.w, s.f.items[n]) && Kept(s, n, ss, p)
    requires !s.isRoot ==> AllLoaded(s, n)
    ensures MeaningAt(s, n).Some?
    ensures Kept(s, n + 1, StepStages(s, n, ss), StepProgress(s, n, p))
  {
    if !s.isRoot {
      IncludeOrdered(s, n, ss);
    }
    IncludeStage(s, n, ss, p);
    IncludeStep(s, n, ss, p);
  }

  // Copying from a file

  lemma {:induction false} CopyLineRefs(s: Site, n: nat)
    requires SiteOk(s) && UsedAt(s, n) && s.f.items[n].CopyFile?
    ensures BodyRefs([CopyLine(s, n)]) == {AliasAt(s, n)} && OwnRefs(s, [CopyLine(s, n)])
  {
    AliasIsLive(s, n);
    assert [CopyLine(s, n)][..0] == [];
  }

  lemma {:induction false} ExtendBehind(a: seq<Stage>, b: seq<Stage>, more: seq<Instr>)
    requires b != []
    ensures Extend(a + b, more) == a + Extend(b, more)
  {
  }

  lemma {:induction false} LastPart(a: seq<Stage>, b: seq<Stage>)
    requires b != []
    ensures (a + b)[..|a + b| - 1] == a + b[..|b| - 1] && (a + b)[|a + b| - 1] == b[|b| - 1]
  {
  }

  lemma {:induction false} PrefixOf(s: Site, n: nat, own: seq<string>, a: seq<Stage>, b: seq<Stage>)
    requires b != [] && Syntax(s, n, own, a + b)
    ensures Syntax(s, n, own, a + b[..|b| - 1]) && Refs(b[|b| - 1]) <= s.ext + Declared(a + b[..|b| - 1])
  {
    assert (a + b)[..|a + b| - 1] == a + b[..|b| - 1];
    SyntaxPrefix(s, n, own, a + b);
  }

  lemma {:induction false} CopyInserted(s: Site, n: nat, own: seq<string>, a: seq<Stage>, b: seq<Stage>)
    requires SiteOk(s) && StepOk(s, n) && s.f.items[n].CopyFile? && Known(s, own)
    requires b != [] && Syntax(s, n, own, a + b)
    ensures Syntax(s, n + 1, own, a + Block(s, n) + b) && AliasAt(s, n) in Declared(a + Block(s, n) + b[..|b| - 1])
    ensures Syntax(s, n + 1, own, a + Block(s, n) + b[..|b| - 1])
  {
    SyntaxLater(s, n, n + 1, own, a + b);
    BlockInserted(s, n + 1, own, a, n, b);
    PrefixOf(s, n + 1, own, a + Block(s, n), b);
    DeclaredInserted(a, Block(s, n), b[..|b| - 1]);
  }

  lemma {:induction false} CopyAliasDeclared(s: Site, n: nat, a: seq<Stage>, b: seq<Stage>, tt: seq<Stage>)
    requires UsedAt(s, n) && b != [] && tt == a + Block(s, n) + b
    requires AliasAt(s, n) in Declared(a + Block(s, n) + b[..|b| - 1])
    ensures tt != [] && tt[|tt| - 1] == b[|b| - 1] && AliasAt(s, n) in Declared(tt[..|tt| - 1])
  {
    LastPart(a + Block(s, n), b);
  }

  lemma {:induction false} CopyFileSyntax(s: Site, n: nat, own: seq<string>, tt: seq<Stage>, last: Stage)
    requires SiteOk(s) && UsedAt(s, n) && s.f.items[n].CopyFile? && Known(s, own)
    requires tt != [] && tt[|tt| - 1] == last && OwnStage(s, own, last) && Syntax(s, n + 1, own, tt)
    requires AliasAt(s, n) in Declared(tt[..|tt| - 1])
    ensures Syntax(s, n + 1, own, Extend(tt, [CopyLine(s, n)]))
  {
    CopyLineRefs(s, n);
    BodyAdded(s, n + 1, own, tt, [CopyLine(s, n)]);
  }

  lemma {:induction false} RunningLast(s: Site, n: nat, a: seq<Stage>, b: seq<Stage>, p: Progress)
    requires n <= |s.f.items| && b != [] && Semantics(s, n, a + b, p)
    ensures Running(s, n, a + b[..|b| - 1], b[|b| - 1], p)
  {
    LastPart(a, b);
  }

  lemma {:induction false} RunningExtended(s: Site, n: nat, a: seq<Stage>, b: seq<Stage>, line: Instr, p: Progress)
    requires n <= |s.f.items| && b != []
    requires Running(s, n, a + b[..|b| - 1], b[|b| - 1].(body := b[|b| - 1].body + [line]), p)
    ensures Semantics(s, n, Extend(a + b, [line]), p)
  {
    LastPart(a, b);
    var tt, more := a + b, Extend(a + b, [line]);
    assert more[..|more| - 1] == tt[..|tt| - 1] && more[|more| - 1] == b[|b| - 1].(body := b[|b| - 1].body + [line]);
  }

  lemma {:induction false} CopyFileRuns(s: Site, n: nat, a: seq<Stage>, b: seq<Stage>, p: Progress)
    requires SiteReady(s) && UsedAt(s, n) && s.f.items[n].CopyFile? && b != []
    requires Syntax(s, n, OwnAt(s, n), a + b) && Semantics(s, n, a + b, p)
    ensures MeaningAt(s, n).Some?
    ensures var layer := Copied(s.f.items[n].verb, MeaningAt(s, n).value, s.f.items[n].rest);
            Semantics(s, n + 1, Extend(a + Block(s, n) + b, [CopyLine(s, n)]),
                      p.(img := Image(p.img.root, p.img.layers + [layer])))
  {
    OwnKnown(s, n);
    PrefixOf(s, n, OwnAt(s, n), a, b);
    CopyInserted(s, n, OwnAt(s, n), a, b);
    RunningLast(s, n, a, b, p);
    CopyRuns(s, n, OwnAt(s, n), a, b[..|b| - 1], b[|b| - 1], p);
    var layer := Copied(s.f.items[n].verb, MeaningAt(s, n).value, s.f.items[n].rest);
    RunningExtended(s, n + 1, a + Block(s, n), b, CopyLine(s, n),
                    p.(img := Image(p.img.root, p.img.layers + [layer])));
  }

  lemma {:induction false} CopyFileAdded(s: Site, n: nat, a: seq<Stage>, b: seq<Stage>, p: Progress, tt: seq<Stage>)
    requires SiteReady(s) && UsedAt(s, n) && s.f.items[n].CopyFile? && b != [] && tt == a + Block(s, n) + b
    requires Syntax(s, n, OwnAt(s, n), a + b) && Semantics(s, n, a + b, p)
    ensures Syntax(s, n + 1, OwnAt(s, n), Extend(tt, [CopyLine(s, n)]))
  {
    OwnKnown(s, n);
    LastPart(a, b);
    CopyInserted(s, n, OwnAt(s, n), a, b);
    CopyAliasDeclared(s, n, a, b, tt);
    CopyFileSyntax(s, n, OwnAt(s, n), tt, b[|b| - 1]);
  }

  lemma {:induction false} CopyFileStep(s: Site, n: nat, a: seq<Stage>, b: seq<Stage>, p: Progress)
    requires StepOk(s, n) && s.f.items[n].CopyFile? && MeaningAt(s, n).Some? && b != []
    ensures UsedAt(s, n) && a + StepStages(s, n, b) == Extend(a + Block(s, n) + b, [CopyLine(s, n)])
    ensures var layer := Copied(s.f.items[n].verb, MeaningAt(s, n).value, s.f.items[n].rest);
            StepProgress(s, n, p) == p.(img := Image(p.img.root, p.img.layers + [layer]))
  {
    assert a + Block(s, n) + b == a + (Block(s, n) + b);
    ExtendBehind(a, Block(s, n) + b, [CopyLine(s, n)]);
  }

  lemma {:induction false} CopyOrdered(s: Site, n: nat, ss: seq<Stage>)
    requires SiteOk(s) && !s.isRoot && UsedAt(s, n) && s.f.items[n].CopyFile? && ss != []
    requires InOrder(s, n, OwnAt(s, n), Names(ss))
    ensures InOrder(s, n + 1, OwnAt(s, n), Names(Extend(Block(s, n) + ss, [CopyLine(s, n)])))
  {
    BlockCopiedInOrder(s, n, OwnAt(s, n), Names(ss));
    NamesConcat(Block(s, n), ss);
    ExtendNames(Block(s, n) + ss, [CopyLine(s, n)]);
  }

  lemma {:induction false} NothingInFront(a: seq<Stage>, c: seq<Stage>, b: seq<Stage>)
    requires a == []
    ensures a + b == b && a + c + b == c + b
  {
  }

  lemma {:induction false} CopyFrontOrdered(s: Site, n: nat, a: seq<Stage>, b: seq<Stage>, tt: seq<Stage>)
    requires SiteOk(s) && !s.isRoot && UsedAt(s, n) && s.f.items[n].CopyFile? && b != [] && a == []
    requires InOrder(s, n, OwnAt(s, n), Names(a + b)) && tt == a + Block(s, n) + b
    ensures InOrder(s, n + 1, OwnAt(s, n), Names(Extend(tt, [CopyLine(s, n)])))
  {
    NothingInFront(a, Block(s, n), b);
    CopyOrdered(s, n, b);
  }

  lemma {:induction false} CopyKept(s: Site, n: nat, ss: seq<Stage>, tt: seq<Stage>, p: Progress, q: Progress)
    requires n < |s.f.items| && !StartsStage(s.w, s.f.items[n]) && Kept(s, n, ss, p) && ss != [] && tt != []
    requires Syntax(s, n + 1, OwnAt(s, n), tt) && Semantics(s, n + 1, tt, q)
    requires !s.isRoot ==> InOrder(s, n + 1, OwnAt(s, n), Names(tt))
    ensures Kept(s, n + 1, tt, q)
  {
    NoStageStarts(s.w, s.f, s.isRoot, n);
  }

  /** The stages of the file come in front of the stages `b` of the file's own lines. */
  lemma {:induction false} CopyFileKept(s: Site, n: nat, a: seq<Stage>, b: seq<Stage>, p: Progress)
    requires SiteReady(s) && StepOk(s, n) && s.f.items[n].CopyFile? && (a == [] || s.isRoot)
    requires b != [] && Kept(s, n, a + b, p)
    ensures MeaningAt(s, n).Some?
    ensures Kept(s, n + 1, a + StepStages(s, n, b), StepProgress(s, n, p))
  {
    var tt := a + Block(s, n) + b;
    CopyFileRuns(s, n, a, b, p);
    CopyFileAdded(s, n, a, b, p, tt);
    if !s.isRoot {
      CopyFrontOrdered(s, n, a, b, tt);
    }
    CopyFileStep(s, n, a, b, p);
    CopyKept(s, n, a + b, a + StepStages(s, n, b), p, StepProgress(s, n, p));
  }

  // All instructions

  lemma {:induction false} CopyFirstKept(s: Site, n: nat, ss: seq<Stage>, p: Progress)
    requires SiteReady(s) && StepOk(s, n) && s.f.items[n].CopyFile? && ss != [] && Kept(s, n, ss, p)
    ensures MeaningAt(s, n).Some?
    ensures Kept(s, n + 1, StepStages(s, n, ss), StepProgress(s, n, p))
  {
    assert [] + ss == ss && [] + StepStages(s, n, ss) == StepStages(s, n, ss);
    CopyFileKept(s, n, [], ss, p);
  }

  lemma {:induction false} StepKept(s: Site, n: nat, ss: seq<Stage>, p: Progress)
    requires SiteReady(s) && StepOk(s, n) && Kept(s, n, ss, p)
    requires (s.f.items[n].CopyFile? ==> ss != []) && (!s.isRoot ==> AllLoaded(s, n))
    ensures Brings(s.w, s.f.items[n]) ==> MeaningAt(s, n).Some?
    ensures IsBody(s.w, s.f.items[n]) && ss == [] ==> Effective(InlineBody(s.w, s.f.items[n])) == []
    ensures Kept(s, n + 1, StepStages(s, n, ss), StepProgress(s, n, p))
  {
    if s.f.items[n].FromFile? {
      FromFileKept(s, n, ss, p);
    } else if s.f.items[n].CopyFile? {
      CopyFirstKept(s, n, ss, p);
    } else if StageInclude(s.w, s.f.items[n]) {
      IncludeKept(s, n, ss, p);
    } else if StartsStage(s.w, s.f.items[n]) {
      FromKept(s, n, ss, p);
    } else {
      InlineKept(s, n, ss, p);
    }
  }

  /** What an instruction that loads brings is what it stands for. */
  lemma {:induction false} TextLoaded(s: Site, n: nat)
    requires Grounded(s) && !s.flat && StepOk(s, n) && LinesAt(s, n + 1).Ok?
    ensures TextOk(s, n)
  {
    if IsBody(s.w, s.f.items[n]) && s.f.items[n].Include? {
      ChildLoaded(s, n);
      LinesOkBefore(s.w, s.f, s.level, s.chain, n, n + 1);
      var v := IncludedSnippet(s.w, s.f, s.level, s.chain, s.w.maxDepth, n, s.f.items[n].ref);
    }
  }

  /** Every instruction of a tidy file that loads has a form the steps know. */
  lemma {:induction false} TidyStep(s: Site, n: nat)
    requires SiteOk(s) && Grounded(s) && !s.flat && n < |s.f.items| && LinesAt(s, n + 1).Ok?
    ensures StepOk(s, n) && (s.f.items[n].CopyFile? ==> HasStage(s.w, s.f, n))
  {
    assert ItemOk(s.w, s.known, s.ext, s.f, s.isRoot, n);
    if Brings(s.w, s.f.items[n]) {
      ChildLoaded(s, n);
      assert UsedAt(s, n) && UseOk(s, n);
    } else if s.f.items[n].Include? {
      ChildPresent(s, n);
    }
  }

  lemma {:induction false} ChildPresent(s: Site, n: nat)
    requires Grounded(s) && !s.flat && n < |s.f.items| && RefOfItem(s.f.items[n]).Some? && LinesAt(s, n + 1).Ok?
    ensures RefOfItem(s.f.items[n]).value.path in s.w.files
  {
    ChildLoaded(s, n);
    LoadParts(s.w, RefOfItem(s.f.items[n]).value.path, ContextAt(s, n));
  }

  lemma {:induction false} LoadedBefore(s: Site, n: nat)
    requires Grounded(s) && !s.flat && n <= |s.f.items| && LinesAt(s, n).Ok?
    ensures AllLoaded(s, n)
  {
    forall i: nat | i < n && Brings(s.w, s.f.items[i]) ensures UsedAt(s, i) {
      LinesOkBefore(s.w, s.f, s.level, s.chain, i + 1, n);
      ChildLoaded(s, i);
    }
  }

  lemma {:induction false} NothingGathered(s: Site)
    requires SiteReady(s)
    ensures Kept(s, 0, [], NOTHING)
  {
    forall b ensures OrderedFor(Names([]), b) {
    }
  }

  lemma {:induction false} GatheredNext(s: Site, n: nat, ss: seq<Stage>, p: Progress)
    requires SiteReady(s) && !s.flat && n < |s.f.items| && LinesAt(s, n).Ok? && LinesAt(s, n + 1).Ok?
    requires AnchoredAt(s, n) && p == Apart(s, n) && ss == StagesAt(s, n) && Kept(s, n, ss, p)
    ensures Gathered(s, n + 1)
  {
    TidyStep(s, n);
    TextLoaded(s, n);
    LoadedBefore(s, n);
    StepKept(s, n, ss, p);
    LinesStep(s, n);
    ApartNext(s, n);
  }

  lemma {:induction false} NoneGathered(s: Site)
    requires SiteReady(s) && LinesAt(s, 0).Ok?
    ensures Gathered(s, 0)
  {
    NothingGathered(s);
    assert Shaped(s.isRoot, []) == [];
  }

  lemma {:induction false} OneMoreGathered(s: Site, n: nat)
    requires SiteReady(s) && !s.flat && n < |s.f.items| && LinesAt(s, n).Ok? && LinesAt(s, n + 1).Ok?
    requires Gathered(s, n)
    ensures Gathered(s, n + 1)
  {
    GatheredNext(s, n, StagesAt(s, n), Apart(s, n));
  }

  lemma {:induction false} LinesGathered(s: Site, n: nat)
    requires SiteReady(s) && !s.flat && n <= |s.f.items| && LinesAt(s, n).Ok?
    ensures Gathered(s, n)
    decreases n
  {
    if n == 0 {
      NoneGathered(s);
    } else {
      LinesOkBefore(s.w, s.f, s.level, s.chain, n - 1, n);
      LinesGathered(s, n - 1);
      OneMoreGathered(s, n - 1);
    }
  }
}
