/** What the lines gathered from a file of a tidy tree keep: which names they declare, and which
    references stay external. */
module LineInvariants {
  import opened Dockerfile
  import opened ScopeStages
  import opened ScopedOrder
  import opened PostProcessDockerfile
  import opened LoadDockerfile
  import opened IncludeGuards
  import opened TidyTrees

  /** A file being loaded: where it is, what is known of the files of the tree, the external images of
      this one, and, instruction by instruction, what the compiler loads for it and what the file it
      brings in means. If `flat`, it is the root with its INCLUDEs written out. */
  datatype Site = Site(
    w: World, known: Outlines, ext: set<string>, f: File, isRoot: bool, flat: bool, level: nat, chain: seq<string>,
    loads: seq<Result<seq<Instr>>>, means: seq<Option<Image>>)

  function Child(s: Site, i: nat): Result<seq<Instr>>
    requires i < |s.f.items|
  {
    if i < |s.loads| then s.loads[i] else Err(Missing(""))
  }

  function RefAt(s: Site, i: nat): Ref
    requires i < |s.f.items| && Brings(s.w, s.f.items[i])
  {
    RefOfItem(s.f.items[i]).value
  }

  function AliasAt(s: Site, i: nat): string
    requires i < |s.f.items| && Brings(s.w, s.f.items[i])
  {
    AliasSlug(s.w, s.f.items[i])
  }

  /** Instruction i brings in a file that loads. */
  ghost predicate UsedAt(s: Site, i: nat) {
    i < |s.f.items| && Brings(s.w, s.f.items[i]) && Child(s, i).Ok?
  }

  function Block(s: Site, i: nat): seq<Stage>
    requires UsedAt(s, i)
  {
    Stages(Child(s, i).value)
  }

  function AllNames(s: Site): seq<string> {
    OwnNames(s.w, s.f, s.isRoot, |s.f.items|)
  }

  /** What a loaded file gives its user. */
  ghost predicate BlockOk(w: World, ext: set<string>, ref: Ref, c: seq<Stage>) {
    && Uniform(c)
    && Free(c) <= ext
    && (forall x :: x in c ==> x.alias.Some? && Owned(w, ref, x.alias.value))
    && w.slug(ref.aliasBase) in Declared(c)
  }

  /** The alias and the stages it can depend on are met in order; the stages behind it, which
      nothing refers to, need not be. */
  ghost predicate BlockOrdered(w: World, ref: Ref, c: seq<Stage>) {
    && OrderedFor(Names(c), w.slug(ref.aliasBase))
    && forall x :: x in Upto(c, w.slug(ref.aliasBase)) ==> OrderedFor(Names(c), x.base)
  }

  /** The last stage is called `alias`, and no other. */
  ghost predicate EndsWith(c: seq<Stage>, alias: string) {
    c != [] && c[|c| - 1].alias == Some(alias) && alias !in Declared(c[..|c| - 1])
  }

  /** What the file that instruction i brings in gives. */
  ghost predicate UseOk(s: Site, i: nat)
    requires UsedAt(s, i)
  {
    && RefAt(s, i).path in s.w.files
    && Anchored(Child(s, i).value)
    && BlockOk(s.w, s.ext, RefAt(s, i), Block(s, i))
    && (!s.isRoot ==> BlockOrdered(s.w, RefAt(s, i), Block(s, i)))
    && (s.f.items[i].Include? ==> EndsWith(Block(s, i), AliasAt(s, i)))
  }

  /** One file is used under one slug and loads once. */
  ghost predicate UsesAgree(s: Site) {
    forall i: nat, j: nat :: UsedAt(s, i) && UsedAt(s, j) && RefAt(s, i).path == RefAt(s, j).path ==>
                               AliasAt(s, i) == AliasAt(s, j) && Child(s, i) == Child(s, j)
  }

  ghost predicate SiteOk(s: Site) {
    && FileOk(s.w, s.known, s.ext, s.f, s.isRoot)
    && (forall i: nat :: UsedAt(s, i) ==> UseOk(s, i))
    && UsesAgree(s)
  }

  /** The stages that instruction i brings in between those of the file. The alias stage of an
      INCLUDEd file is not one of them: the file goes on with it as with a stage of its own. */
  function Inserted(s: Site, i: nat): seq<Stage>
    requires UsedAt(s, i)
  {
    var c := Block(s, i);
    if s.f.items[i].Include? && c != [] then c[..|c| - 1] else c
  }

  /** The stage was brought in by the first n instructions. */
  ghost predicate FromBlock(s: Site, n: nat, x: Stage) {
    exists i: nat :: i < n && UsedAt(s, i) && x in Inserted(s, i)
  }

  /** The stages that instruction i puts in for its alias. */
  function Live(s: Site, i: nat): seq<Stage>
    requires UsedAt(s, i)
  {
    Upto(Block(s, i), AliasAt(s, i))
  }

  /** The base matters for the alias of a file that the first n instructions bring in. */
  ghost predicate LiveBase(s: Site, n: nat, b: string) {
    exists i: nat :: i < n && UsedAt(s, i) && (b == AliasAt(s, i) || exists x :: x in Live(s, i) && x.base == b)
  }

  ghost predicate PlainName(s: Site, u: string) {
    exists k: nat :: NamesStage(s.f, s.isRoot, k, u)
  }

  /** The bases that can occur in the lines of the first n instructions and matter. */
  ghost predicate InBall(s: Site, n: nat, b: string) {
    b in s.ext || (PlainName(s, b) && OrderedFor(AllNames(s), b)) || LiveBase(s, n, b)
  }

  /** What the file's own stages may refer to. */
  ghost predicate OwnRef(s: Site, r: string) {
    r in s.ext || r in AllNames(s) || exists i: nat :: UsedAt(s, i) && r in Declared(Live(s, i))
  }

  ghost predicate OwnRefs(s: Site, body: seq<Instr>) {
    forall r :: r in BodyRefs(body) ==> OwnRef(s, r)
  }

  /** Of the file's own names the scoping loop takes the base for itself. */
  ghost predicate RightBase(s: Site, b: string) {
    PlainName(s, b) ==> TakenRight(s.w.slug(s.f.display), AllNames(s), b)
  }

  ghost predicate OwnStageOk(s: Site, n: nat, x: Stage) {
    InBall(s, n, x.base) && RightBase(s, x.base) && OwnRef(s, x.base) && OwnRefs(s, x.body)
  }

  ghost predicate OwnStage(s: Site, own: seq<string>, x: Stage) {
    if x.alias.Some? then x.alias.value in own else s.isRoot
  }

  ghost predicate OwnOnce(own: seq<string>, ss: seq<Stage>) {
    forall i, j :: 0 <= i < j < |ss| && ss[i].alias.Some? && ss[i].alias.value in own ==> ss[i].alias != ss[j].alias
  }

  /** The invariant: every stage is the file's own or was brought in, own names are declared once, and
      references that nothing declares are external. */
  ghost predicate Syntax(s: Site, n: nat, own: seq<string>, ss: seq<Stage>) {
    && Free(ss) <= s.ext
    && (forall x :: x in ss ==> OwnStage(s, own, x) || FromBlock(s, n, x))
    && OwnOnce(own, ss)
    && (!s.isRoot ==> forall x :: x in ss && OwnStage(s, own, x) ==> OwnStageOk(s, n, x))
  }

  lemma {:induction false} BallLater(s: Site, n: nat, m: nat, b: string)
    requires InBall(s, n, b) && n <= m
    ensures InBall(s, m, b)
  {
  }

  lemma {:induction false} SyntaxLater(s: Site, n: nat, m: nat, own: seq<string>, ss: seq<Stage>)
    requires Syntax(s, n, own, ss) && n <= m
    ensures Syntax(s, m, own, ss)
  {
    forall x | x in ss && OwnStage(s, own, x) && !s.isRoot ensures OwnStageOk(s, m, x) {
      BallLater(s, n, m, x.base);
    }
  }

  lemma {:induction false} SyntaxPrefix(s: Site, n: nat, own: seq<string>, ss: seq<Stage>)
    requires Syntax(s, n, own, ss) && ss != []
    ensures Syntax(s, n, own, ss[..|ss| - 1])
    ensures Refs(ss[|ss| - 1]) <= s.ext + Declared(ss[..|ss| - 1])
  {
  }

  // Own names and generated names

  /** A name of the file is given to a stage, or is the slug of an INCLUDEd file. */
  lemma {:induction false} NameOrigin(w: World, f: File, isRoot: bool, n: nat, u: string) returns (k: nat)
    requires n <= |f.items| && u in OwnNames(w, f, isRoot, n)
    ensures k < n && NameOf(w, isRoot, f.items[k]) == Some(u)
    ensures NamesStage(f, isRoot, k, u) || (StageInclude(w, f.items[k]) && u == AliasSlug(w, f.items[k]))
  {
    if u in OwnNames(w, f, isRoot, n - 1) {
      k := NameOrigin(w, f, isRoot, n - 1, u);
    } else {
      k := n - 1;
    }
  }

  lemma {:induction false} RefersAt(s: Site, i: nat)
    requires i < |s.f.items| && Brings(s.w, s.f.items[i]) && RefAt(s, i).path in s.w.files
    ensures Refers(s.w, s.f, RefAt(s, i)) && NearSlug(s.w, s.f, RefAt(s, i).path, AliasAt(s, i))
  {
    assert s.f.items[i] in s.f.items;
  }

  /** Blocks of the same file are the same block. */
  lemma {:induction false} SameBlock(s: Site, i: nat, j: nat)
    requires SiteOk(s) && UsedAt(s, i) && UsedAt(s, j) && RefAt(s, i).path == RefAt(s, j).path
    ensures AliasAt(s, i) == AliasAt(s, j) && Child(s, i) == Child(s, j)
  {
  }

  lemma {:induction false} BlockNameOwned(s: Site, i: nat, n: string)
    requires SiteOk(s) && UsedAt(s, i) && n in Declared(Block(s, i))
    ensures Owned(s.w, RefAt(s, i), n)
  {
    DeclaredIff(Block(s, i), n);
  }

  lemma {:induction false} BlockNameNotExternal(s: Site, i: nat, n: string, e: string)
    requires SiteOk(s) && UsedAt(s, i) && Owned(s.w, RefAt(s, i), n) && e in s.ext
    ensures !(n <= e)
  {
    RefersAt(s, i);
    OwnedNotPrefix(s.w, s.f, RefAt(s, i), n, e);
  }

  /** A generated name starts no name that the file gives. */
  lemma {:induction false} BlockNameNotPlain(s: Site, i: nat, n: string, k: nat, u: string)
    requires SiteOk(s) && UsedAt(s, i) && Owned(s.w, RefAt(s, i), n) && NamesStage(s.f, s.isRoot, k, u)
    ensures n != u && (!s.isRoot ==> !(n <= u))
  {
    RefersAt(s, i);
    if s.isRoot {
      assert s.f.items[i] in s.f.items;
    } else {
      forall t | NearSlug(s.w, s.f, RefAt(s, i).path, t) ensures !(t <= u) {
        assert NamesStage(s.f, false, k, u);
      }
      OwnedNotPrefix(s.w, s.f, RefAt(s, i), n, u);
    }
  }

  lemma {:induction false} NamesOfFilesApart(s: Site, i: nat, j: nat, n: string, m: string)
    requires SiteOk(s) && i < |s.f.items| && Brings(s.w, s.f.items[i]) && Owned(s.w, RefAt(s, i), n)
    requires j < |s.f.items| && Brings(s.w, s.f.items[j]) && Owned(s.w, RefAt(s, j), m) && n <= m
    ensures RefAt(s, i).path == RefAt(s, j).path
  {
    RefersAt(s, i);
    RefersAt(s, j);
    OwnedApart(s.w, s.ext, s.f, RefAt(s, i), RefAt(s, j), n, m);
  }

  lemma {:induction false} BlockNameNotOwn(s: Site, i: nat, n: string, u: string)
    requires SiteOk(s) && UsedAt(s, i) && Owned(s.w, RefAt(s, i), n) && u in AllNames(s)
    requires s.f.items[i].Include? ==> n != AliasAt(s, i)
    ensures n != u
  {
    var k := NameOrigin(s.w, s.f, s.isRoot, |s.f.items|, u);
    if NamesStage(s.f, s.isRoot, k, u) {
      BlockNameNotPlain(s, i, n, k, u);
    } else if n == u {
      NamesOfFilesApart(s, i, k, n, u);
    }
  }

  lemma {:induction false} OwnNotExternal(s: Site, u: string)
    requires SiteOk(s) && u in AllNames(s)
    ensures u !in s.ext
  {
    var k := NameOrigin(s.w, s.f, s.isRoot, |s.f.items|, u);
    assert u <= u;
    if NamesStage(s.f, s.isRoot, k, u) {
    } else {
      RefersAt(s, k);
    }
  }

  /** The file a stage was brought in from, and what its name then is. */
  lemma {:induction false} BlockOf(s: Site, n: nat, x: Stage) returns (i: nat)
    requires SiteOk(s) && FromBlock(s, n, x)
    ensures i < n && UsedAt(s, i) && x in Block(s, i) && x in Inserted(s, i)
    ensures x.alias.Some? && Owned(s.w, RefAt(s, i), x.alias.value)
    ensures s.f.items[i].Include? ==> x.alias.value != AliasAt(s, i)
  {
    i :| i < n && UsedAt(s, i) && x in Inserted(s, i);
    var c := Block(s, i);
    if s.f.items[i].Include? {
      assert x in c[..|c| - 1] && x in c;
      DeclaredIff(c[..|c| - 1], AliasAt(s, i));
    }
  }

  ghost predicate Known(s: Site, own: seq<string>) {
    forall u :: u in own ==> u in AllNames(s)
  }

  /** Nothing the lines declare is external. */
  lemma {:induction false} DeclaredNotExternal(s: Site, n: nat, own: seq<string>, ss: seq<Stage>, e: string)
    requires SiteOk(s) && Syntax(s, n, own, ss) && Known(s, own) && e in s.ext
    ensures e !in Declared(ss)
  {
    DeclaredIff(ss, e);
    if x :| x in ss && x.alias == Some(e) {
      if OwnStage(s, own, x) {
        OwnNotExternal(s, e);
      } else {
        var i := BlockOf(s, n, x);
        BlockNameNotExternal(s, i, e, e);
      }
    }
  }

  lemma {:induction false} SameStage(s: Site, n: nat, x: Stage, y: Stage)
    requires SiteOk(s) && FromBlock(s, n, x) && FromBlock(s, n, y) && x.alias == y.alias
    ensures x == y
  {
    var i := BlockOf(s, n, x);
    var j := BlockOf(s, n, y);
    NamesOfFilesApart(s, i, j, x.alias.value, x.alias.value);
    SameBlock(s, i, j);
  }

  /** No stage that was brought in has an own name. */
  lemma {:induction false} BlockNotOwn(s: Site, n: nat, x: Stage, own: seq<string>)
    requires SiteOk(s) && FromBlock(s, n, x) && Known(s, own)
    ensures x.alias.Some? && !OwnStage(s, own, x)
  {
    var i := BlockOf(s, n, x);
    if x.alias.value in own {
      BlockNameNotOwn(s, i, x.alias.value, x.alias.value);
    }
  }

  lemma {:induction false} SyntaxUniform(s: Site, n: nat, own: seq<string>, ss: seq<Stage>)
    requires SiteOk(s) && Syntax(s, n, own, ss) && Known(s, own)
    ensures Uniform(ss)
  {
    forall x, y | x in ss && y in ss && x.alias.Some? && x.alias == y.alias ensures x == y {
      if x.alias.value in own {
        var i :| 0 <= i < |ss| && ss[i] == x;
        var j :| 0 <= j < |ss| && ss[j] == y;
        assert i == j;
      } else {
        SameStage(s, n, x, y);
      }
    }
  }

  // What the compiler does to the lines

  /** A new own name is no name of the stages so far. */
  lemma {:induction false} NewOwnName(s: Site, n: nat, own: seq<string>, ss: seq<Stage>, x: Stage)
    requires SiteOk(s) && Syntax(s, n, own, ss)
    requires x.alias.Some? ==> x.alias.value !in own && x.alias.value in AllNames(s)
    ensures forall y :: y in ss && y.alias.Some? ==> y.alias != x.alias
  {
    forall y | y in ss && y.alias.Some? ensures y.alias != x.alias {
      if y.alias == x.alias {
        BlockNotOwn(s, n, y, [x.alias.value]);
      }
    }
  }

  lemma {:induction false} OwnOnceSnoc(own: seq<string>, ss: seq<Stage>, x: Stage)
    requires OwnOnce(own, ss)
    requires forall y :: y in ss && y.alias.Some? ==> y.alias != x.alias
    ensures OwnOnce(own + (if x.alias.Some? then [x.alias.value] else []), ss + [x])
  {
    var tt := ss + [x];
    var own' := own + (if x.alias.Some? then [x.alias.value] else []);
    forall i, j | 0 <= i < j < |tt| && tt[i].alias.Some? && tt[i].alias.value in own'
      ensures tt[i].alias != tt[j].alias
    {
      assert tt[i] == ss[i] && ss[i] in ss;
      if j < |ss| {
        assert tt[j] == ss[j];
      }
    }
  }

  /** A stage of the file's own is added at the end. */
  lemma {:induction false} OwnStageAdded(s: Site, n: nat, own: seq<string>, ss: seq<Stage>, x: Stage)
    requires SiteOk(s) && Syntax(s, n, own, ss) && Known(s, own)
    requires Refs(x) <= s.ext + Declared(ss)
    requires if x.alias.Some? then x.alias.value !in own && x.alias.value in AllNames(s) else s.isRoot
    requires !s.isRoot ==> OwnStageOk(s, n, x)
    ensures Syntax(s, n, own + (if x.alias.Some? then [x.alias.value] else []), ss + [x])
  {
    assert (ss + [x])[..|ss|] == ss;
    NewOwnName(s, n, own, ss, x);
    OwnOnceSnoc(own, ss, x);
  }

  lemma {:induction false} OwnOnceExtended(own: seq<string>, ss: seq<Stage>, body: seq<Instr>)
    requires OwnOnce(own, ss) && ss != []
    ensures OwnOnce(own, Extend(ss, body))
  {
    var tt := Extend(ss, body);
    forall i, j | 0 <= i < j < |tt| && tt[i].alias.Some? && tt[i].alias.value in own
      ensures tt[i].alias != tt[j].alias
    {
      assert tt[i].alias == ss[i].alias && tt[j].alias == ss[j].alias;
    }
  }

  /** Body instructions are added to the last stage, which is the file's own. */
  lemma {:induction false} BodyAdded(s: Site, n: nat, own: seq<string>, ss: seq<Stage>, body: seq<Instr>)
    requires Syntax(s, n, own, ss) && ss != [] && OwnStage(s, own, ss[|ss| - 1])
    requires BodyRefs(body) <= s.ext + Declared(ss[..|ss| - 1])
    requires !s.isRoot ==> OwnRefs(s, body)
    ensures Syntax(s, n, own, Extend(ss, body))
  {
    ExtendNames(ss, body);
    OwnOnceExtended(own, ss, body);
    var before, last := ss[..|ss| - 1], ss[|ss| - 1];
    assert last in ss;
    BodyRefsConcat(last.body, body);
    forall x | x in Extend(ss, body)
      ensures OwnStage(s, own, x) || FromBlock(s, n, x)
      ensures !s.isRoot && OwnStage(s, own, x) ==> OwnStageOk(s, n, x)
    {
      assert x in before || x == last.(body := last.body + body);
      if x in before {
        assert x in ss;
      }
    }
  }

  lemma {:induction false} InsertedAt(a: seq<Stage>, c: seq<Stage>, b: seq<Stage>, j: nat)
    requires j < |a + c + b|
    ensures j < |a| ==> (a + c + b)[j] == (a + b)[j]
    ensures |a| <= j < |a| + |c| ==> (a + c + b)[j] in c
    ensures |a| + |c| <= j ==> (a + c + b)[j] == (a + b)[j - |c|]
  {
    if |a| <= j < |a| + |c| {
      assert (a + c + b)[j] == c[j - |a|];
    }
  }

  lemma {:induction false} OwnOnceInserted(own: seq<string>, a: seq<Stage>, c: seq<Stage>, b: seq<Stage>)
    requires OwnOnce(own, a + b)
    requires forall x :: x in c ==> x.alias.Some? && x.alias.value !in own
    ensures OwnOnce(own, a + c + b)
  {
    var tt := a + c + b;
    forall j, k | 0 <= j < k < |tt| && tt[j].alias.Some? && tt[j].alias.value in own
      ensures tt[j].alias != tt[k].alias
    {
      InsertedAt(a, c, b, j);
      InsertedAt(a, c, b, k);
    }
  }

  lemma {:induction false} FreeInserted(ext: set<string>, a: seq<Stage>, c: seq<Stage>, b: seq<Stage>)
    requires Free(a + b) <= ext && Free(c) <= ext
    ensures Free(a + c + b) <= ext
  {
    FreeConcat(a, b);
    FreeConcat(a, c);
    FreeConcat(a + c, b);
    NamesConcat(a, c);
  }

  lemma {:induction false} InsertedFree(s: Site, i: nat)
    requires SiteOk(s) && UsedAt(s, i)
    ensures Free(Inserted(s, i)) <= s.ext
  {
    var c := Block(s, i);
    if s.f.items[i].Include? {
      SnocFree(c);
    }
  }

  lemma {:induction false} SnocFree(c: seq<Stage>)
    requires c != []
    ensures Free(c[..|c| - 1]) <= Free(c) && Refs(c[|c| - 1]) <= Free(c) + Declared(c[..|c| - 1])
  {
  }

  /** The stages that instruction i brings in are put in front, at the end, or in between. */
  lemma {:induction false} BlockInserted(s: Site, n: nat, own: seq<string>, a: seq<Stage>, i: nat, b: seq<Stage>)
    requires SiteOk(s) && Syntax(s, n, own, a + b) && Known(s, own) && UsedAt(s, i) && i < n
    ensures Syntax(s, n, own, a + Inserted(s, i) + b)
  {
    var c := Inserted(s, i);
    InsertedFree(s, i);
    FreeInserted(s.ext, a, c, b);
    forall x | x in c ensures FromBlock(s, n, x) && x.alias.Some? && x.alias.value !in own {
      BlockNotOwn(s, n, x, own);
    }
    OwnOnceInserted(own, a, c, b);
    forall x | x in a + c + b ensures x in a + b || x in c {
    }
  }

  // The alias stage of an INCLUDEd file

  /** The stage that the file goes on with behind an INCLUDE. */
  function AliasStage(s: Site, i: nat): Stage
    requires UsedAt(s, i) && Block(s, i) != []
  {
    Block(s, i)[|Block(s, i)| - 1]
  }

  lemma {:induction false} IncludeParts(s: Site, i: nat)
    requires SiteOk(s) && UsedAt(s, i) && s.f.items[i].Include?
    ensures Block(s, i) != [] && Block(s, i) == Inserted(s, i) + [AliasStage(s, i)]
    ensures AliasStage(s, i).alias == Some(AliasAt(s, i)) && AliasAt(s, i) !in Declared(Inserted(s, i))
    ensures Refs(AliasStage(s, i)) <= s.ext + Declared(Inserted(s, i))
    ensures Live(s, i) == Block(s, i)
  {
    SnocFree(Block(s, i));
  }

  lemma {:induction false} AliasStageOk(s: Site, n: nat, i: nat)
    requires SiteOk(s) && i < n && UsedAt(s, i) && s.f.items[i].Include?
    ensures Block(s, i) != [] && OwnStageOk(s, n, AliasStage(s, i))
  {
    IncludeParts(s, i);
    var x := AliasStage(s, i);
    assert x in Live(s, i);
    NamesConcat(Inserted(s, i), [x]);
    forall r | r in Refs(x) ensures OwnRef(s, r) {
    }
    GeneratedBase(s, i, x.base);
  }

  /** What a file that was brought in refers to is no name of a plain stage. */
  lemma {:induction false} GeneratedBase(s: Site, i: nat, b: string)
    requires SiteOk(s) && UsedAt(s, i) && (b in s.ext || b in Declared(Block(s, i)))
    ensures !PlainName(s, b)
  {
    if PlainName(s, b) {
      var k: nat :| NamesStage(s.f, s.isRoot, k, b);
      if b in s.ext {
        PlainNotExternal(s, k, b);
      } else {
        BlockNameOwned(s, i, b);
        BlockNameNotPlain(s, i, b, k, b);
      }
    }
  }

  lemma {:induction false} PlainNotExternal(s: Site, k: nat, u: string)
    requires SiteOk(s) && NamesStage(s.f, s.isRoot, k, u)
    ensures u !in s.ext
  {
    assert u <= u;
  }

  /** The alias stage is added as a stage of the file. */
  lemma {:induction false} AliasStageAdded(s: Site, n: nat, own: seq<string>, ss: seq<Stage>, i: nat)
    requires SiteOk(s) && i < n && UsedAt(s, i) && s.f.items[i].Include? && Known(s, own)
    requires Syntax(s, n, own, ss) && Declared(Inserted(s, i)) <= Declared(ss)
    requires AliasAt(s, i) !in own && AliasAt(s, i) in AllNames(s)
    ensures Block(s, i) != [] && Syntax(s, n, own + [AliasAt(s, i)], ss + [AliasStage(s, i)])
  {
    IncludeParts(s, i);
    AliasStageOk(s, n, i);
    OwnStageAdded(s, n, own, ss, AliasStage(s, i));
  }
}
