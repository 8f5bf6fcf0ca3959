/** What one instruction of a file does to the stages of the lines gathered so far. */
module LineSteps {
  import opened Dockerfile
  import opened ScopeStages
  import opened PostProcessDockerfile
  import opened IncludeComments
  import opened LoadDockerfile
  import opened IncludeGuards
  import opened Interpreter
  import opened TidyTrees
  import opened Snippets
  import opened LineInvariants
  import opened LineMeaning

  /** The lines as the passes see them: those of an included file have their last stage named. */
  function Shaped(isRoot: bool, lines: seq<Instr>): seq<Instr> {
    if isRoot then lines else Defaulted(lines)
  }

  predicate AllNamed(doc: seq<Instr>) {
    forall i :: 0 <= i < |doc| && doc[i].From? ==> doc[i].alias.Some?
  }

  lemma {:induction false} ShapedConcat(isRoot: bool, a: seq<Instr>, b: seq<Instr>)
    ensures Shaped(isRoot, a + b) == Shaped(isRoot, a) + Shaped(isRoot, b)
    ensures AllNamed(b) ==> Shaped(isRoot, b) == b
  {
    assert Defaulted(a + b) == Defaulted(a) + Defaulted(b);
    if AllNamed(b) {
      assert Defaulted(b) == b;
    }
  }

  lemma {:induction false} NamesKept(ss: seq<Stage>, i: Instr, tt: seq<Stage>)
    requires tt == if i.From? then ss + [Stage(i.base, i.alias, [])]
                   else if NoOp(i) || ss == [] then ss else Extend(ss, [i])
    requires forall x :: x in tt ==> x.alias.Some?
    ensures forall x :: x in ss ==> x.alias.Some?
    ensures i.From? ==> i.alias.Some?
  {
    forall k | 0 <= k < |ss| ensures ss[k].alias.Some? {
      assert tt[k] in tt;
    }
    if i.From? {
      assert tt[|ss|] in tt;
    }
  }

  lemma {:induction false} NamedStages(doc: seq<Instr>)
    requires forall x :: x in Stages(doc) ==> x.alias.Some?
    ensures AllNamed(doc)
  {
    if doc != [] {
      var before, i := doc[..|doc| - 1], doc[|doc| - 1];
      var ss := Stages(before);
      assert doc == before + [i];
      StagesSnoc(before, i);
      NamesKept(ss, i, Stages(doc));
      NamedStages(before);
    }
  }

  // Framing comments

  lemma {:induction false} NoOpLine(i: Instr)
    requires NoOp(i)
    ensures Anchored([i]) && Stages([i]) == []
  {
    assert [i][..0] == [];
  }

  lemma {:induction false} FramedStages(text: string, display: string, kind: string, content: seq<Instr>)
    requires Anchored(content)
    ensures Anchored(Framed(text, display, kind, content))
    ensures Stages(Framed(text, display, kind, content)) == Stages(content)
    ensures AllNamed(content) ==> AllNamed(Framed(text, display, kind, content))
  {
    var start, end := Comment(StartComment(text, display, kind)), Comment(EndComment(text, display, kind));
    NoOpLine(start);
    NoOpLine(end);
    StagesConcat([start], content);
    AnchoredConcat([start], content);
    StagesConcat([start] + content, [end]);
    AnchoredConcat([start] + content, [end]);
    assert [] + Stages(content) == Stages(content);
  }

  // Sites of the tree

  /** How instruction i loads its file: an INCLUDE in the root with its INCLUDEs written out stands in a
      file below. */
  function ContextAt(s: Site, i: nat): LoadContext
    requires i < |s.f.items| && RefOfItem(s.f.items[i]).Some?
  {
    var c := ChildOf(s.w, s.f.items[i], s.level, s.chain);
    if s.flat then c.(isRootInclude := false) else c
  }

  /** The child of instruction i is what the compiler loads for it, its meaning what reading the
      file gives. */
  ghost predicate GroundedAt(s: Site, i: nat)
    requires s.level <= s.w.maxDepth && i < |s.f.items| && RefOfItem(s.f.items[i]).Some?
  {
    var item := s.f.items[i];
    && Child(s, i) == Load(s.w, RefOfItem(item).value.path, ContextAt(s, i))
    && (Brings(s.w, item) ==>
          MeaningAt(s, i) == Meaning(s.w, RefAt(s, i).path, TargetOf(item), false, s.w.maxDepth - s.level))
  }

  ghost predicate Grounded(s: Site) {
    && s.level <= s.w.maxDepth
    && forall i: nat :: i < |s.f.items| && RefOfItem(s.f.items[i]).Some? ==> GroundedAt(s, i)
  }

  function LoadOf(w: World, item: Item, flat: bool, level: nat, chain: seq<string>): Result<seq<Instr>> {
    if RefOfItem(item).None? then Ok([])
    else
      var c := ChildOf(w, item, level, chain);
      Load(w, RefOfItem(item).value.path, if flat then c.(isRootInclude := false) else c)
  }

  function MeaningOf(w: World, item: Item, level: nat): Option<Image> {
    if Brings(w, item) && level <= w.maxDepth
    then Meaning(w, RefOfItem(item).value.path, TargetOf(item), false, w.maxDepth - level)
    else None
  }

  function SiteOf(w: World, known: Outlines, ext: set<string>, f: File, isRoot: bool, flat: bool, level: nat,
                  chain: seq<string>): Site
  {
    Site(w, known, ext, f, isRoot, flat, level, chain,
         seq(|f.items|, i requires 0 <= i < |f.items| => LoadOf(w, f.items[i], flat, level, chain)),
         seq(|f.items|, i requires 0 <= i < |f.items| => MeaningOf(w, f.items[i], level)))
  }

  lemma {:induction false} SiteGrounded(w: World, known: Outlines, ext: set<string>, f: File, isRoot: bool, flat: bool,
                                        level: nat, chain: seq<string>)
    requires level <= w.maxDepth
    ensures Grounded(SiteOf(w, known, ext, f, isRoot, flat, level, chain))
  {
    var s := SiteOf(w, known, ext, f, isRoot, flat, level, chain);
    forall i: nat | i < |s.f.items| && RefOfItem(s.f.items[i]).Some? ensures GroundedAt(s, i) {
      assert s.loads[i] == LoadOf(w, f.items[i], flat, level, chain) && s.means[i] == MeaningOf(w, f.items[i], level);
    }
  }

  // One instruction

  function LinesAt(s: Site, n: nat): Result<seq<Instr>>
    requires s.level <= s.w.maxDepth && n <= |s.f.items|
  {
    Lines(s.w, s.f, s.level, s.chain, n)
  }

  function StagesAt(s: Site, n: nat): seq<Stage>
    requires s.level <= s.w.maxDepth && n <= |s.f.items| && LinesAt(s, n).Ok?
  {
    Stages(Shaped(s.isRoot, LinesAt(s, n).value))
  }

  ghost predicate AnchoredAt(s: Site, n: nat)
    requires s.level <= s.w.maxDepth && n <= |s.f.items| && LinesAt(s, n).Ok?
  {
    Anchored(Shaped(s.isRoot, LinesAt(s, n).value))
  }

  ghost predicate NamedBlock(s: Site, i: nat) {
    && UsedAt(s, i) && Anchored(Child(s, i).value)
    && (forall x :: x in Block(s, i) ==> x.alias.Some?)
    && (s.f.items[i].Include? ==> EndsWith(Block(s, i), AliasAt(s, i)))
  }

  /** Instruction n has one of the forms that a tidy file may hold. */
  ghost predicate StepOk(s: Site, n: nat) {
    n < |s.f.items| &&
    var item := s.f.items[n];
    if Brings(s.w, item) then NamedBlock(s, n)
    else if StartsStage(s.w, item) then !PathLike(item.instr.base)
    else Inline(s.w, item) && FromFree(InlineBody(s.w, item))
  }

  /** The instruction is body text. */
  predicate IsBody(w: World, item: Item) {
    !StartsStage(w, item) && !Brings(w, item)
  }

  /** What a body instruction loads is its instructions written out. */
  ghost predicate TextOk(s: Site, n: nat) {
    n < |s.f.items| && (IsBody(s.w, s.f.items[n]) ==> Stands(ItemText(s, n), InlineBody(s.w, s.f.items[n])))
  }

  /** The text that an instruction stands for. */
  function ItemText(s: Site, n: nat): seq<Instr>
    requires n < |s.f.items|
  {
    match s.f.items[n]
    case Plain(i) => [i]
    case IncludeEnv(_, content) => content
    case _ => if Child(s, n).Ok? then Child(s, n).value else []
  }

  /** Body text goes on with the last stage. */
  function WithBody(ss: seq<Stage>, body: seq<Instr>): seq<Stage> {
    if ss == [] then [] else Extend(ss, Effective(body))
  }

  /** What instruction n does to the stages so far. */
  function StepStages(s: Site, n: nat, ss: seq<Stage>): seq<Stage>
    requires StepOk(s, n) && (s.f.items[n].CopyFile? ==> ss != [])
  {
    var item := s.f.items[n];
    match item
    case FromFile(_, _, _) => ss + Block(s, n) + [Stage(AliasAt(s, n), StageName(s.isRoot, item), [])]
    case CopyFile(_, _, _, _) => Extend(Block(s, n) + ss, [CopyLine(s, n)])
    case Include(_) =>
      if StageInclude(s.w, item) then ss + Inserted(s, n) + [AliasStage(s, n)]
      else WithBody(ss, InlineBody(s.w, item))
    case Plain(i) =>
      if i.From? then ss + [Stage(i.base, StageName(s.isRoot, item), [])] else WithBody(ss, InlineBody(s.w, item))
    case IncludeEnv(_, _) => WithBody(ss, InlineBody(s.w, item))
  }

  /** The lines that instruction n adds at the end; `--from` of a file is the other case. */
  function ItemLines(s: Site, n: nat): seq<Instr>
    requires StepOk(s, n) && !s.f.items[n].CopyFile?
  {
    match s.f.items[n]
    case Plain(i) => [i]
    case IncludeEnv(text, content) => Framed(text, s.f.display, "include", content)
    case Include(ref) => Framed(ref.text, s.f.display, "include", ItemText(s, n))
    case FromFile(ref, _, alias) =>
      Framed(ref.text, s.f.display, "from", Child(s, n).value) + [From(AliasAt(s, n), Some(StageNameOf(alias)))]
  }

  /** The lines after one instruction more, when what it loads is known. */
  lemma {:induction false} LinesNext(s: Site, n: nat, v: seq<Instr>)
    requires s.level <= s.w.maxDepth && n < |s.f.items| && RefOfItem(s.f.items[n]).Some? && LinesAt(s, n).Ok?
    requires Load(s.w, RefOfItem(s.f.items[n]).value.path, ChildOf(s.w, s.f.items[n], s.level, s.chain)) == Ok(v)
    ensures var item, lines := s.f.items[n], LinesAt(s, n).value;
            LinesAt(s, n + 1) ==
            match item
            case Include(ref) => Ok(lines + Framed(ref.text, s.f.display, "include", v))
            case FromFile(ref, _, alias) =>
              Ok(lines + Framed(ref.text, s.f.display, "from", v)
                + [From(s.w.slug(ref.aliasBase), Some(StageNameOf(alias)))])
            case CopyFile(verb, ref, _, rest) =>
              Ok(Framed(ref.text, s.f.display, "fromParam", v) + lines
                + [Copy(verb, Some(s.w.slug(ref.aliasBase)), rest)])
  {
  }

  lemma {:induction false} LinesPlain(s: Site, n: nat)
    requires s.level <= s.w.maxDepth && n < |s.f.items| && LinesAt(s, n).Ok?
    ensures s.f.items[n].Plain? ==> LinesAt(s, n + 1) == Ok(LinesAt(s, n).value + [s.f.items[n].instr])
    ensures s.f.items[n].IncludeEnv? ==>
              LinesAt(s, n + 1) == Ok(LinesAt(s, n).value
                + Framed(s.f.items[n].text, s.f.display, "include", s.f.items[n].content))
  {
  }

  lemma {:induction false} ChildLoaded(s: Site, n: nat)
    requires Grounded(s) && !s.flat && n < |s.f.items| && RefOfItem(s.f.items[n]).Some? && LinesAt(s, n + 1).Ok?
    ensures Child(s, n).Ok?
    ensures Load(s.w, RefOfItem(s.f.items[n]).value.path, ChildOf(s.w, s.f.items[n], s.level, s.chain))
            == Ok(Child(s, n).value)
  {
    NextLoads(s.w, s.f, s.level, s.chain, n);
    assert GroundedAt(s, n);
  }

  lemma {:induction false} LinesAppend(s: Site, n: nat)
    requires Grounded(s) && !s.flat && StepOk(s, n) && !s.f.items[n].CopyFile?
    requires LinesAt(s, n).Ok? && LinesAt(s, n + 1).Ok?
    ensures LinesAt(s, n + 1) == Ok(LinesAt(s, n).value + ItemLines(s, n))
  {
    var item, lines := s.f.items[n], LinesAt(s, n).value;
    if RefOfItem(item).None? {
      LinesPlain(s, n);
    } else {
      ChildLoaded(s, n);
      LinesNext(s, n, Child(s, n).value);
      if item.FromFile? {
        var more := Framed(item.ref.text, s.f.display, "from", Child(s, n).value);
        var i := From(AliasAt(s, n), Some(StageNameOf(item.alias)));
        assert lines + more + [i] == lines + (more + [i]);
      }
    }
  }

  lemma {:induction false} InlineFramed(s: Site, n: nat)
    requires StepOk(s, n) && TextOk(s, n) && IsBody(s.w, s.f.items[n])
    ensures FromFree(ItemLines(s, n)) && AllNamed(ItemLines(s, n))
    ensures Effective(ItemLines(s, n)) == Effective(InlineBody(s.w, s.f.items[n]))
  {
    match s.f.items[n]
    case Plain(_) =>
    case IncludeEnv(text, content) => FramedSnippet(text, s.f.display, "include", content);
    case Include(ref) => FramedSnippet(ref.text, s.f.display, "include", ItemText(s, n));
  }

  lemma {:induction false} FromLine(isRoot: bool, i: Instr)
    requires i.From? && !PathLike(i.base)
    ensures Anchored(Shaped(isRoot, [i]))
    ensures Stages(Shaped(isRoot, [i])) == [Stage(i.base, StageName(isRoot, Item.Plain(i)), [])]
  {
    var d := Shaped(isRoot, [i]);
    assert d == [if isRoot then i else WithDefault(i)];
    assert d[..0] == [];
  }

  /** The framed text of a used file is its stages. */
  lemma {:induction false} UsedLines(s: Site, i: nat, kind: string)
    requires NamedBlock(s, i)
    ensures var more := Framed(RefAt(s, i).text, s.f.display, kind, Child(s, i).value);
            Anchored(more) && Stages(more) == Block(s, i) && AllNamed(more)
  {
    NamedStages(Child(s, i).value);
    FramedStages(RefAt(s, i).text, s.f.display, kind, Child(s, i).value);
  }

  lemma {:induction false} FromFileLines(s: Site, n: nat)
    requires StepOk(s, n) && s.f.items[n].FromFile?
    ensures Anchored(ItemLines(s, n)) && AllNamed(ItemLines(s, n))
    ensures Stages(ItemLines(s, n)) == Block(s, n) + [Stage(AliasAt(s, n), StageName(s.isRoot, s.f.items[n]), [])]
  {
    var more := Framed(RefAt(s, n).text, s.f.display, "from", Child(s, n).value);
    var i := From(AliasAt(s, n), Some(StageNameOf(s.f.items[n].alias)));
    UsedLines(s, n, "from");
    StagesSnoc(more, i);
  }

  lemma {:induction false} StagesAppended(doc: seq<Instr>, more: seq<Instr>, b: seq<Stage>, x: Stage)
    requires Anchored(doc) && Anchored(more) && Stages(more) == b + [x]
    ensures Anchored(doc + more) && Stages(doc + more) == Stages(doc) + b + [x]
  {
    StagesConcat(doc, more);
    AnchoredConcat(doc, more);
    assert Stages(doc) + (b + [x]) == Stages(doc) + b + [x];
  }

  /** The framed text of an INCLUDEd file with stages. */
  lemma {:induction false} IncludedBlockLines(s: Site, n: nat)
    requires StepOk(s, n) && StageInclude(s.w, s.f.items[n])
    ensures Anchored(ItemLines(s, n)) && AllNamed(ItemLines(s, n))
    ensures Stages(ItemLines(s, n)) == Inserted(s, n) + [AliasStage(s, n)]
  {
    UsedLines(s, n, "include");
  }

  lemma {:induction false} AppendFrom(s: Site, n: nat, doc: seq<Instr>)
    requires StepOk(s, n) && StartsStage(s.w, s.f.items[n]) && Anchored(doc)
    ensures Anchored(doc + Shaped(s.isRoot, ItemLines(s, n)))
    ensures Stages(doc + Shaped(s.isRoot, ItemLines(s, n))) == StepStages(s, n, Stages(doc))
  {
    var item, more := s.f.items[n], ItemLines(s, n);
    if item.FromFile? {
      FromFileLines(s, n);
      ShapedConcat(s.isRoot, [], more);
      StagesAppended(doc, more, Block(s, n), Stage(AliasAt(s, n), StageName(s.isRoot, item), []));
    } else if item.Include? {
      IncludedBlockLines(s, n);
      ShapedConcat(s.isRoot, [], more);
      StagesAppended(doc, more, Inserted(s, n), AliasStage(s, n));
    } else {
      FromLine(s.isRoot, item.instr);
      var x := Stage(item.instr.base, StageName(s.isRoot, item), []);
      assert [] + [x] == [x] && Stages(doc) + [] == Stages(doc);
      StagesAppended(doc, Shaped(s.isRoot, more), [], x);
    }
  }

  /** The added lines do this to any lines before them. */
  lemma {:induction false} AppendStep(s: Site, n: nat, doc: seq<Instr>)
    requires StepOk(s, n) && TextOk(s, n) && !s.f.items[n].CopyFile? && Anchored(doc)
    requires IsBody(s.w, s.f.items[n]) ==> Stages(doc) != [] || Effective(InlineBody(s.w, s.f.items[n])) == []
    ensures Anchored(doc + Shaped(s.isRoot, ItemLines(s, n)))
    ensures Stages(doc + Shaped(s.isRoot, ItemLines(s, n))) == StepStages(s, n, Stages(doc))
  {
    if StartsStage(s.w, s.f.items[n]) {
      AppendFrom(s, n, doc);
    } else {
      InlineFramed(s, n);
      ShapedConcat(s.isRoot, [], ItemLines(s, n));
      StagesInline(doc, ItemLines(s, n));
    }
  }

  lemma {:induction false} StagesAround(a: seq<Instr>, more: seq<Instr>, d: seq<Instr>, i: Instr)
    requires Anchored(a) && Anchored(more) && Anchored(d) && Stages(d) != [] && !i.From? && !NoOp(i)
    ensures Anchored(a + (more + d + [i]))
    ensures Stages(a + (more + d + [i])) == Stages(a) + Extend(Stages(more) + Stages(d), [i])
  {
    StagesConcat(more, d);
    AnchoredConcat(more, d);
    StagesSnoc(more + d, i);
    StagesConcat(a, more + d + [i]);
    AnchoredConcat(a, more + d + [i]);
  }

  /** `--from` of a file puts its stages in front of the file's own lines `d`, which may stand
      behind other lines. */
  lemma {:induction false} CopyStep(s: Site, n: nat, a: seq<Instr>, d: seq<Instr>)
    requires StepOk(s, n) && s.f.items[n].CopyFile? && Anchored(a) && Anchored(d) && Stages(d) != []
    ensures var more := Framed(RefAt(s, n).text, s.f.display, "fromParam", Child(s, n).value);
            && Anchored(a + (more + d + [CopyLine(s, n)]))
            && Stages(a + (more + d + [CopyLine(s, n)])) == Stages(a) + StepStages(s, n, Stages(d))
  {
    UsedLines(s, n, "fromParam");
    StagesAround(a, Framed(RefAt(s, n).text, s.f.display, "fromParam", Child(s, n).value), d, CopyLine(s, n));
  }

  lemma {:induction false} LinesCopy(s: Site, n: nat)
    requires Grounded(s) && !s.flat && StepOk(s, n) && s.f.items[n].CopyFile?
    requires LinesAt(s, n).Ok? && LinesAt(s, n + 1).Ok?
    ensures var more := Framed(RefAt(s, n).text, s.f.display, "fromParam", Child(s, n).value);
            && LinesAt(s, n + 1) == Ok(more + LinesAt(s, n).value + [CopyLine(s, n)])
            && Shaped(s.isRoot, LinesAt(s, n + 1).value)
               == more + Shaped(s.isRoot, LinesAt(s, n).value) + [CopyLine(s, n)]
  {
    var more := Framed(RefAt(s, n).text, s.f.display, "fromParam", Child(s, n).value);
    ChildLoaded(s, n);
    LinesNext(s, n, Child(s, n).value);
    UsedLines(s, n, "fromParam");
    ShapedConcat(s.isRoot, [], more);
    ShapedConcat(s.isRoot, more, LinesAt(s, n).value);
    ShapedConcat(s.isRoot, more + LinesAt(s, n).value, [CopyLine(s, n)]);
  }

  /** One instruction more, on the lines of its file. */
  lemma {:induction false} LinesStep(s: Site, n: nat)
    requires Grounded(s) && !s.flat && StepOk(s, n) && TextOk(s, n) && LinesAt(s, n).Ok? && LinesAt(s, n + 1).Ok?
    requires AnchoredAt(s, n)
    requires IsBody(s.w, s.f.items[n]) ==> StagesAt(s, n) != [] || Effective(InlineBody(s.w, s.f.items[n])) == []
    requires s.f.items[n].CopyFile? ==> StagesAt(s, n) != []
    ensures AnchoredAt(s, n + 1) && StagesAt(s, n + 1) == StepStages(s, n, StagesAt(s, n))
  {
    var d := Shaped(s.isRoot, LinesAt(s, n).value);
    if s.f.items[n].CopyFile? {
      LinesCopy(s, n);
      CopyStep(s, n, [], d);
      var after := Shaped(s.isRoot, LinesAt(s, n + 1).value);
      assert [] + after == after && [] + StepStages(s, n, StagesAt(s, n)) == StepStages(s, n, StagesAt(s, n));
    } else {
      LinesAppend(s, n);
      ShapedConcat(s.isRoot, LinesAt(s, n).value, ItemLines(s, n));
      AppendStep(s, n, d);
    }
  }
}
