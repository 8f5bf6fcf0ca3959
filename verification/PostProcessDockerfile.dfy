/** src/core/postProcessDockerfile.js: the passes over one loaded file, and the alias line that
    makes the wanted stage of an included file available to the including one. */
module PostProcessDockerfile {
  import opened Dockerfile
  import opened Renaming
  import opened ScopeStages
  import opened RebasedStages
  import opened DeduplicateStages
  import opened SanitizeStageNames

  datatype LoadError =
    | DepthExceeded(depth: nat, max: nat, chain: seq<string>)
    | Cycle(key: string, chain: seq<string>)
    | Missing(key: string)
    | TargetNotFound(target: string)

  datatype Result<+T> = Ok(value: T) | Err(error: LoadError)

  /** What the including instruction asks for. `localTarget` is the scoped target name. */
  datatype Request = Request(alias: Option<string>, localTarget: Option<string>, isRootInclude: bool)

  predicate MatchesTarget(q: Request, stageName: Option<string>) {
    q.localTarget.Some? && stageName == q.localTarget
  }

  predicate Chosen(q: Request, stageName: Option<string>, count: nat, total: nat) {
    MatchesTarget(q, stageName) || (!q.isRootInclude && q.localTarget.None? && count == total)
  }

  function FromCount(doc: seq<Instr>): nat {
    if doc == [] then 0
    else FromCount(doc[..|doc| - 1]) + (if doc[|doc| - 1].From? then 1 else 0)
  }

  function TextOf(stageName: Option<string>): string {
    if stageName.Some? then stageName.value else "undefined"
  }

  /** Every instruction, and after the FROM of a chosen stage a FROM that names it again. */
  function WithAlias(q: Request, doc: seq<Instr>, total: nat): seq<Instr> {
    if doc == [] then []
    else
      var i := doc[|doc| - 1];
      WithAlias(q, doc[..|doc| - 1], total) + [i] +
      (if i.From? && q.alias.Some? && Chosen(q, i.alias, FromCount(doc), total)
       then [From(TextOf(i.alias), q.alias)] else [])
  }

  predicate TargetDeclared(q: Request, doc: seq<Instr>) {
    exists k :: 0 <= k < |doc| && doc[k].From? && MatchesTarget(q, doc[k].alias)
  }

  /** An empty target is no target. */
  predicate IsTarget(target: Option<string>) {
    target.Some? && target.value != ""
  }

  function LocalTarget(prefix: string, target: Option<string>): Option<string> {
    if IsTarget(target) then Some(ScopedName(prefix, target.value)) else None
  }

  datatype Context = Context(
    target: Option<string>, alias: Option<string>, prefix: string, isRootFile: bool, isRootInclude: bool)

  function RequestOf(c: Context): Request {
    Request(c.alias, LocalTarget(c.prefix, c.target), c.isRootInclude)
  }

  function ScopedIfIncluded(c: Context, doc: seq<Instr>): seq<Instr> {
    if !c.isRootFile && !c.isRootInclude then Scoped(c.prefix, doc) else doc
  }

  function PostProcessed(hash: string -> string, c: Context, doc: seq<Instr>): Result<seq<Instr>> {
    var scoped := ScopedIfIncluded(c, doc);
    if IsTarget(c.target) && !TargetDeclared(RequestOf(c), scoped) then
      Err(TargetNotFound(c.target.value))
    else
      var d := Deduplicated(WithAlias(RequestOf(c), scoped, FromCount(scoped)));
      Ok(if c.isRootFile || c.isRootInclude then Sanitized(hash, d) else d)
  }

  method CountFroms(doc: array<Instr>) returns (fromCount: nat)
    ensures fromCount == FromCount(doc[..])
  {
    fromCount := 0;
    var k := 0;
    while k < doc.Length
      invariant 0 <= k <= doc.Length
      invariant fromCount == FromCount(doc[..k])
    {
      assert doc[..k + 1][..k] == doc[..k];
      if doc[k].From? {
        fromCount := fromCount + 1;
      }
      k := k + 1;
    }
    assert doc[..k] == doc[..];
  }

  method InsertAliases(q: Request, doc: array<Instr>) returns (result: seq<Instr>, stageTargetFound: bool)
    ensures result == WithAlias(q, doc[..], FromCount(doc[..]))
    ensures stageTargetFound <==> TargetDeclared(q, doc[..])
  {
    var fromCount := CountFroms(doc);
    var currentFromCount := 0;
    result, stageTargetFound := [], false;
    var k := 0;
    while k < doc.Length
      invariant 0 <= k <= doc.Length
      invariant currentFromCount == FromCount(doc[..k])
      invariant result == WithAlias(q, doc[..k], fromCount)
      invariant stageTargetFound <==> TargetDeclared(q, doc[..k])
    {
      assert doc[..k + 1][..k] == doc[..k];
      TargetDeclaredNext(q, doc[..], k);
      assert doc[..][..k] == doc[..k] && doc[..][..k + 1] == doc[..k + 1];
      result := result + [doc[k]];
      if doc[k].From? {
        currentFromCount := currentFromCount + 1;
        var matchTargetStage := q.localTarget.Some? && q.localTarget == doc[k].alias;
        if matchTargetStage {
          stageTargetFound := true;
        }
        var isLastTarget := !q.isRootInclude && q.localTarget.None? && currentFromCount == fromCount;
        if q.alias.Some? && (matchTargetStage || isLastTarget) {
          result := result + [From(TextOf(doc[k].alias), q.alias)];
        }
      }
      k := k + 1;
    }
    assert doc[..k] == doc[..];
  }

  method PostProcess(hash: string -> string, c: Context, content: seq<Instr>) returns (r: Result<seq<Instr>>)
    ensures r == PostProcessed(hash, c, content)
  {
    var doc := new Instr[|content|](k requires 0 <= k < |content| => content[k]);
    assert doc[..] == content;
    if !c.isRootFile && !c.isRootInclude {
      ScopeInstructions(doc, c.prefix);
    }
    var result, stageTargetFound := InsertAliases(RequestOf(c), doc);
    if IsTarget(c.target) && !stageTargetFound {
      return Err(TargetNotFound(c.target.value));
    }
    result := DeduplicateDocument(result);
    if c.isRootFile || c.isRootInclude {
      result := SanitizeDocument(hash, result);
    }
    r := Ok(result);
  }

  lemma {:induction false} TargetDeclaredNext(q: Request, doc: seq<Instr>, k: nat)
    requires k < |doc|
    ensures TargetDeclared(q, doc[..k + 1]) <==>
            TargetDeclared(q, doc[..k]) || (doc[k].From? && MatchesTarget(q, doc[k].alias))
  {
    assert forall j :: 0 <= j < k ==> doc[..k + 1][j] == doc[..k][j];
    assert doc[..k + 1][k] == doc[k];
    if TargetDeclared(q, doc[..k]) {
      var j :| 0 <= j < k && doc[..k][j].From? && MatchesTarget(q, doc[..k][j].alias);
      assert doc[..k + 1][j].From? && MatchesTarget(q, doc[..k + 1][j].alias);
    }
  }

  lemma {:induction false} StageNamesIff(doc: seq<Instr>, n: string)
    ensures n in StageNames(doc) <==> exists k :: 0 <= k < |doc| && doc[k].From? && doc[k].alias == Some(n)
  {
    if doc != [] {
      var before := doc[..|doc| - 1];
      StageNamesIff(before, n);
      assert forall k :: 0 <= k < |before| ==> before[k] == doc[k];
    }
  }

  /** The target is reported missing exactly when no stage of the file has its name. */
  lemma {:induction false} TargetErrorExact(hash: string -> string, c: Context, doc: seq<Instr>)
    requires !c.isRootFile && !c.isRootInclude && IsTarget(c.target)
    requires Fresh(c.prefix, StageNames(Defaulted(doc)))
    ensures PostProcessed(hash, c, doc) == Err(TargetNotFound(c.target.value))
            <==> c.target.value !in StageNames(Defaulted(doc))
  {
    var d, s, t := Defaulted(doc), Scoped(c.prefix, doc), c.target.value;
    var names := StageNames(d);
    forall k | 0 <= k < |d|
      ensures s[k].From? && MatchesTarget(RequestOf(c), s[k].alias) <==> d[k].From? && d[k].alias == Some(t)
    {
      RoundsByPart(c.prefix, names, d[k]);
      if d[k].From? && d[k].alias.Some? {
        ExactRoundsRename(c.prefix, names, d[k].alias);
        StageNamesIff(d, d[k].alias.value);
        var n := d[k].alias.value;
        assert ScopedName(c.prefix, n)[|c.prefix| + 2..] == n && ScopedName(c.prefix, t)[|c.prefix| + 2..] == t;
      } else if d[k].From? {
        ExactRoundsRename(c.prefix, names, d[k].alias);
      }
    }
    StageNamesIff(d, t);
  }

  // The alias line as an operation on stages

  /** A stage and, on top of it, a stage called `alias` that takes over its body. */
  function SplitPair(s: Stage, alias: string): seq<Stage> {
    [Stage(s.base, s.alias, []), Stage(TextOf(s.alias), Some(alias), s.body)]
  }

  function SplitStage(ss: seq<Stage>, k: nat, alias: string): seq<Stage>
    requires k < |ss|
  {
    ss[..k] + SplitPair(ss[k], alias) + ss[k + 1..]
  }

  function AliasList(ss: seq<Stage>): seq<Option<string>> {
    seq(|ss|, k requires 0 <= k < |ss| => ss[k].alias)
  }

  lemma {:induction false} StagesCount(doc: seq<Instr>)
    ensures |Stages(doc)| == FromCount(doc)
  {
    if doc != [] {
      StagesCount(doc[..|doc| - 1]);
    }
  }

  lemma {:induction false} SplitExtend(ss: seq<Stage>, k: nat, alias: string, i: Instr)
    requires k < |ss|
    ensures SplitStage(Extend(ss, [i]), k, alias) == Extend(SplitStage(ss, k, alias), [i])
  {
  }

  lemma {:induction false} SplitLast(ss: seq<Stage>, s: Stage, k: nat, alias: string)
    requires k <= |ss|
    ensures SplitStage(ss + [s], k, alias) ==
            if k < |ss| then SplitStage(ss, k, alias) + [s]
            else ss + [Stage(s.base, s.alias, []), Stage(TextOf(s.alias), Some(alias), s.body)]
  {
  }

  /** If the request chooses stage k and no other, the pass splits stage k. */
  lemma {:induction false} WithAliasSplits(q: Request, doc: seq<Instr>, total: nat, names: seq<Option<string>>, k: nat)
    requires q.alias.Some? && Anchored(doc)
    requires AliasList(Stages(doc)) <= names
    requires forall j :: 0 <= j < |names| ==> (Chosen(q, names[j], j + 1, total) <==> j == k)
    ensures Anchored(WithAlias(q, doc, total))
    ensures Stages(WithAlias(q, doc, total)) ==
            if k < |Stages(doc)| then SplitStage(Stages(doc), k, q.alias.value) else Stages(doc)
  {
    if doc != [] {
      var before, i := doc[..|doc| - 1], doc[|doc| - 1];
      var ss := Stages(before);
      AliasListSnoc(doc);
      WithAliasSplits(q, before, total, names, k);
      var done := WithAlias(q, before, total);
      StagesSnoc(done, i);
      if i.From? {
        StagesCount(doc);
        assert names[|ss|] == i.alias;
        if k <= |ss| {
          SplitLast(ss, Stage(i.base, i.alias, []), k, q.alias.value);
        }
        if Chosen(q, i.alias, |ss| + 1, total) {
          StagesSnoc(done + [i], From(TextOf(i.alias), q.alias));
        } else {
          assert WithAlias(q, doc, total) == done + [i];
        }
      } else {
        assert WithAlias(q, doc, total) == done + [i];
        if !NoOp(i) && ss != [] && k < |ss| {
          SplitExtend(ss, k, q.alias.value, i);
        }
      }
    }
  }

  lemma {:induction false} AliasListSnoc(doc: seq<Instr>)
    requires doc != []
    ensures AliasList(Stages(doc)) ==
            AliasList(Stages(doc[..|doc| - 1])) + (if doc[|doc| - 1].From? then [doc[|doc| - 1].alias] else [])
  {
  }

  // What the alias stage means

  /** Stage k is named, and no other stage has its name. */
  ghost predicate OnlyAt(ss: seq<Stage>, k: nat) {
    k < |ss| && ss[k].alias.Some? && forall j :: 0 <= j < |ss| && j != k ==> ss[j].alias != ss[k].alias
  }

  lemma {:induction false} ThreeParts(a: seq<Stage>, b: seq<Stage>, c: seq<Stage>)
    ensures Names(a + b + c) == Names(a) + Names(b) + Names(c)
    ensures Declared(a + b + c) == Declared(a) + Declared(b) + Declared(c)
    ensures Free(a + b + c) == Free(a) + (Free(b) - Declared(a)) + (Free(c) - Declared(a) - Declared(b))
    ensures forall e :: EnvOf(e, a + b + c) == EnvOf(EnvOf(EnvOf(e, a), b), c)
  {
    NamesConcat(a, b);
    NamesConcat(a + b, c);
    FreeConcat(a, b);
    FreeConcat(a + b, c);
    forall e ensures EnvOf(e, a + b + c) == EnvOf(EnvOf(EnvOf(e, a), b), c) {
      EnvConcat(e, a, b);
      EnvConcat(e, a + b, c);
    }
  }

  lemma {:induction false} OneStage(s: Stage)
    requires s.alias.Some?
    ensures Names([s]) == [s.alias.value] && Declared([s]) == {s.alias.value} && Free([s]) == Refs(s)
    ensures forall e :: EnvOf(e, [s]) == e[s.alias.value := ImageOf(e, s)]
  {
    assert [s][..0] == [];
  }

  lemma {:induction false} PairParts(s: Stage, alias: string)
    requires s.alias.Some?
    ensures var p, n := SplitPair(s, alias), s.alias.value;
            && Names(p) == [n, alias] && Declared(p) == {n, alias}
            && Free(p) <= Refs(s)
  {
    var p := SplitPair(s, alias);
    assert p == [p[0]] + [p[1]];
    OneStage(p[0]);
    OneStage(p[1]);
    NamesConcat([p[0]], [p[1]]);
    FreeConcat([p[0]], [p[1]]);
    assert BodyRefs(p[0].body) == {};
  }

  lemma {:induction false} PairEnv(s: Stage, alias: string, e: Env)
    requires s.alias.Some? && s.alias.value !in Refs(s)
    ensures Resolve(EnvOf(e, SplitPair(s, alias)), alias) == ImageOf(e, s)
  {
    var p := SplitPair(s, alias);
    assert p == [p[0]] + [p[1]];
    OneStage(p[0]);
    OneStage(p[1]);
    EnvConcat(e, [p[0]], [p[1]]);
    var e1 := e[s.alias.value := ImageOf(e, p[0])];
    BuildAgree(e, e1, ImageOf(e, p[0]), s.body);
  }

  lemma {:induction false} CutAt(ss: seq<Stage>, k: nat)
    requires OnlyAt(ss, k)
    ensures ss == ss[..k] + [ss[k]] + ss[k + 1..]
    ensures Declared(ss) == Declared(ss[..k]) + {ss[k].alias.value} + Declared(ss[k + 1..])
    ensures ss[k].alias.value !in Declared(ss[..k]) + Declared(ss[k + 1..])
    ensures Free(ss) == Free(ss[..k]) + (Refs(ss[k]) - Declared(ss[..k]))
                        + (Free(ss[k + 1..]) - Declared(ss[..k]) - {ss[k].alias.value})
  {
    var a, s, b := ss[..k], ss[k], ss[k + 1..];
    assert ss == a + [s] + b;
    OneStage(s);
    ThreeParts(a, [s], b);
    DeclaredIff(a, s.alias.value);
    DeclaredIff(b, s.alias.value);
  }

  lemma {:induction false} SplitNames(ss: seq<Stage>, k: nat, alias: string)
    requires OnlyAt(ss, k)
    ensures Names(SplitStage(ss, k, alias)) == Names(ss[..k]) + [ss[k].alias.value, alias] + Names(ss[k + 1..])
    ensures Declared(SplitStage(ss, k, alias)) == Declared(ss) + {alias}
    ensures Free(SplitStage(ss, k, alias)) <= Free(ss)
  {
    CutAt(ss, k);
    PairParts(ss[k], alias);
    ThreeParts(ss[..k], SplitPair(ss[k], alias), ss[k + 1..]);
  }

  /** The alias denotes what the split stage denoted. */
  lemma {:induction false} SplitMeaning(ss: seq<Stage>, k: nat, alias: string)
    requires OnlyAt(ss, k) && WellScoped(ss) && alias !in Declared(ss)
    ensures Resolve(EnvOf(map[], SplitStage(ss, k, alias)), alias) == ImageOf(EnvOf(map[], ss[..k]), ss[k])
  {
    CutAt(ss, k);
    var e, p := EnvOf(map[], ss[..k]), SplitPair(ss[k], alias);
    ThreeParts(ss[..k], p, ss[k + 1..]);
    EnvFrame(EnvOf(e, p), ss[k + 1..], alias);
    PairEnv(ss[k], alias, e);
  }

  lemma {:induction false} OnlyMeaning(ss: seq<Stage>, k: nat)
    requires OnlyAt(ss, k)
    ensures Resolve(EnvOf(map[], ss), ss[k].alias.value) == ImageOf(EnvOf(map[], ss[..k]), ss[k])
  {
    CutAt(ss, k);
    OneStage(ss[k]);
    ThreeParts(ss[..k], [ss[k]], ss[k + 1..]);
    EnvFrame(EnvOf(EnvOf(map[], ss[..k]), [ss[k]]), ss[k + 1..], ss[k].alias.value);
  }

  lemma {:induction false} SplitUniform(ss: seq<Stage>, k: nat, alias: string)
    requires OnlyAt(ss, k) && Uniform(ss) && alias !in Declared(ss)
    ensures Uniform(SplitStage(ss, k, alias))
  {
    var t := SplitStage(ss, k, alias);
    var p := SplitPair(ss[k], alias);
    forall x | x in t
      ensures x == p[0] || x == p[1] || (x in ss && x.alias != ss[k].alias && x.alias != Some(alias))
    {
      if x != p[0] && x != p[1] {
        assert x in ss[..k] || x in ss[k + 1..];
        DeclaredIff(ss, alias);
      }
    }
    DeclaredIff(ss, alias);
  }

  // The included file after all passes

  /** The stage the including instruction asks for: the named target, else the last stage. */
  ghost predicate Wanted(c: Context, d: seq<Stage>, k: nat) {
    && OnlyAt(d, k)
    && if IsTarget(c.target) then d[k].alias == c.target else k == |d| - 1
  }

  /** Stage k is built on stages only whose bases the scoping loop takes for themselves. */
  ghost predicate SteadyAt(prefix: string, d: seq<Stage>, k: nat) {
    k < |d| && d[k].alias.Some? && exists live :: Steady(prefix, Names(d), d, live) && d[k].alias.value in live
  }

  /** An included file whose names are told apart, and an alias that is new to it. */
  ghost predicate Includable(c: Context, doc: seq<Instr>, k: nat) {
    var d := Stages(Defaulted(doc));
    && !c.isRootFile && !c.isRootInclude && c.alias.Some?
    && Anchored(doc)
    && NamesApart(c.prefix, d) && Uniform(d)
    && Wanted(c, d, k) && SteadyAt(c.prefix, d, k)
    && c.alias.value !in Free(d)
    && forall n :: n in Declared(d) ==> ScopedName(c.prefix, n) != c.alias.value
  }

  lemma {:induction false} DefaultedAnchored(doc: seq<Instr>)
    ensures Anchored(Defaulted(doc)) == Anchored(doc)
    ensures |Stages(Defaulted(doc))| == |Stages(doc)|
  {
    if doc != [] {
      DefaultedAnchored(doc[..|doc| - 1]);
      assert Defaulted(doc)[..|doc| - 1] == Defaulted(doc[..|doc| - 1]);
    }
  }

  lemma {:induction false} RenamedOnlyAt(rho: Renaming, d: seq<Stage>, k: nat)
    requires OnlyAt(d, k) && InjectiveOn(rho, Declared(d))
    ensures OnlyAt(RenameStages(rho, d), k)
  {
    var s := RenameStages(rho, d);
    forall j | 0 <= j < |s| && j != k ensures s[j].alias != s[k].alias {
      if d[j].alias.Some? {
        DeclaredIff(d, d[j].alias.value);
        DeclaredIff(d, d[k].alias.value);
      }
    }
  }

  lemma {:induction false} ScopedApplies(prefix: string, d: seq<Stage>)
    ensures forall n :: n in Declared(d) ==> Apply(ScopeRenaming(prefix, Names(d)), n) == ScopedName(prefix, n)
  {
    forall n | n in Declared(d) ensures Apply(ScopeRenaming(prefix, Names(d)), n) == ScopedName(prefix, n) {
      DeclaredIff(d, n);
    }
  }

  lemma {:induction false} FreeUnscoped(prefix: string, d: seq<Stage>)
    requires NamesApart(prefix, d)
    ensures forall n :: n in Declared(d) ==> ScopedName(prefix, n) !in Free(d)
  {
  }

  /** Renaming brings in no new external name, and the alias stays unused. */
  lemma {:induction false} ScopedFree(c: Context, d: seq<Stage>, e: seq<Stage>, rho: Renaming)
    requires CaptureFree(rho, e) && Uniform(e) && Declared(e) == Declared(d) && Free(e) <= Free(d)
    requires forall n :: n in Declared(d) ==> Apply(rho, n) == ScopedName(c.prefix, n)
    requires c.alias.Some? && c.alias.value !in Free(d)
    requires forall n :: n in Declared(d) ==>
               ScopedName(c.prefix, n) != c.alias.value && ScopedName(c.prefix, n) !in Free(d)
    ensures var s := RenameStages(rho, e);
            && Free(s) <= Free(d) && Uniform(s) && WellScoped(s) && c.alias.value !in Declared(s) + Free(s)
  {
    var s := RenameStages(rho, e);
    RenamedFree(rho, e, Free(e));
    RenamedUniform(rho, e);
    forall n | n in Declared(s) ensures n !in Free(d) && n != c.alias.value {
      RenamedDeclares(rho, e, n);
    }
  }

  /** The scoped file: a capture-free renaming of the file as the loop takes it. */
  lemma {:induction false} ScopedFile(c: Context, doc: seq<Instr>, k: nat)
    requires Includable(c, doc, k)
    ensures var d, s := Stages(Defaulted(doc)), Stages(Scoped(c.prefix, doc));
            var e, rho := Rebased(c.prefix, Names(d), d), ScopeRenaming(c.prefix, Names(d));
            && Anchored(Scoped(c.prefix, doc))
            && CaptureFree(rho, e) && s == RenameStages(rho, e)
            && Names(e) == Names(d) && Declared(e) == Declared(d)
            && (forall n :: n in Declared(d) ==> Apply(rho, n) == ScopedName(c.prefix, n))
            && Free(s) <= Free(d) && Uniform(s) && WellScoped(d) && WellScoped(s)
            && OnlyAt(s, k) && c.alias.value !in Declared(s) + Free(s)
  {
    var d := Stages(Defaulted(doc));
    var e, rho := Rebased(c.prefix, Names(d), d), ScopeRenaming(c.prefix, Names(d));
    DefaultedAnchored(doc);
    ScopedStages(c.prefix, doc);
    ScopedApplies(c.prefix, d);
    FreeUnscoped(c.prefix, d);
    RebasedUniform(c.prefix, Names(d), d);
    ScopedFree(c, d, e, rho);
    RenamedOnlyAt(rho, e, k);
  }

  /** The aliases of the FROMs, in document order. */
  function FromAliases(doc: seq<Instr>): seq<Option<string>> {
    if doc == [] then []
    else FromAliases(doc[..|doc| - 1]) + (if doc[|doc| - 1].From? then [doc[|doc| - 1].alias] else [])
  }

  lemma {:induction false} AliasesOfStages(doc: seq<Instr>)
    ensures AliasList(Stages(doc)) == FromAliases(doc)
  {
    if doc != [] {
      AliasesOfStages(doc[..|doc| - 1]);
      AliasListSnoc(doc);
    }
  }

  lemma {:induction false} AliasesRenamed(rho: Renaming, a: seq<Instr>, b: seq<Instr>)
    requires |a| == |b|
    requires forall k :: 0 <= k < |a| ==>
               b[k].From? == a[k].From? && (a[k].From? ==> b[k].alias == ApplyOption(rho, a[k].alias))
    ensures |FromAliases(b)| == |FromAliases(a)|
    ensures forall j :: 0 <= j < |FromAliases(a)| ==> FromAliases(b)[j] == ApplyOption(rho, FromAliases(a)[j])
  {
    if a != [] {
      AliasesRenamed(rho, a[..|a| - 1], b[..|b| - 1]);
    }
  }

  /** Whatever happens to the bases, scoping gives every stage its prefixed name. */
  lemma {:induction false} ScopedAliases(prefix: string, doc: seq<Instr>)
    requires Fresh(prefix, StageNames(Defaulted(doc)))
    ensures var d, s := Stages(Defaulted(doc)), Stages(Scoped(prefix, doc));
            && |s| == |d|
            && forall j :: 0 <= j < |d| ==>
                 s[j].alias == if d[j].alias.Some? then Some(ScopedName(prefix, d[j].alias.value)) else None
  {
    var dd, ss := Defaulted(doc), Scoped(prefix, doc);
    var names := StageNames(dd);
    var rho := ScopeRenaming(prefix, names);
    forall k | 0 <= k < |dd|
      ensures ss[k].From? == dd[k].From? && (dd[k].From? ==> ss[k].alias == ApplyOption(rho, dd[k].alias))
    {
      RoundsByPart(prefix, names, dd[k]);
      if dd[k].From? {
        ExactRoundsRename(prefix, names, dd[k].alias);
      }
    }
    AliasesRenamed(rho, dd, ss);
    AliasesOfStages(dd);
    AliasesOfStages(ss);
    var d, s := Stages(dd), Stages(ss);
    assert |AliasList(s)| == |s| && |AliasList(d)| == |d|;
    StageNamesAreNames(dd);
    forall j | 0 <= j < |d|
      ensures s[j].alias == if d[j].alias.Some? then Some(ScopedName(prefix, d[j].alias.value)) else None
    {
      assert AliasList(s)[j] == s[j].alias && AliasList(d)[j] == d[j].alias;
      if d[j].alias.Some? {
        DeclaredIff(d, d[j].alias.value);
        assert d[j] in d;
      }
    }
  }

  lemma {:induction false} ScopedNameIs(prefix: string, n: string, m: string)
    ensures ScopedName(prefix, n) == ScopedName(prefix, m) ==> n == m
  {
    assert ScopedName(prefix, n)[|prefix| + 2..] == n && ScopedName(prefix, m)[|prefix| + 2..] == m;
  }

  /** What the request chooses in the scoped file is the wanted stage and no other. */
  lemma {:induction false} ChoosesWanted(c: Context, doc: seq<Instr>, k: nat)
    requires !c.isRootInclude && Wanted(c, Stages(Defaulted(doc)), k)
    requires Fresh(c.prefix, Names(Stages(Defaulted(doc))))
    ensures var s := Stages(Scoped(c.prefix, doc));
            && |s| == FromCount(Scoped(c.prefix, doc))
            && (forall j :: 0 <= j < |s| ==> (Chosen(RequestOf(c), s[j].alias, j + 1, |s|) <==> j == k))
            && (IsTarget(c.target) ==> TargetDeclared(RequestOf(c), Scoped(c.prefix, doc)))
  {
    StageNamesAreNames(Defaulted(doc));
    ScopedAliases(c.prefix, doc);
    StagesCount(Scoped(c.prefix, doc));
    var d, s := Stages(Defaulted(doc)), Stages(Scoped(c.prefix, doc));
    if IsTarget(c.target) {
      forall j | 0 <= j < |s| ensures MatchesTarget(RequestOf(c), s[j].alias) <==> j == k {
        if d[j].alias.Some? {
          ScopedNameIs(c.prefix, d[j].alias.value, c.target.value);
        }
      }
      AliasHasFrom(Scoped(c.prefix, doc), k);
    }
  }

  lemma {:induction false} AliasHasFrom(doc: seq<Instr>, k: nat)
    requires k < |Stages(doc)|
    ensures exists j :: 0 <= j < |doc| && doc[j].From? && doc[j].alias == Stages(doc)[k].alias
  {
    var before := doc[..|doc| - 1];
    if k < |Stages(before)| {
      AliasHasFrom(before, k);
      var j :| 0 <= j < |before| && before[j].From? && before[j].alias == Stages(before)[k].alias;
      assert doc[j] == before[j];
    } else {
      assert doc[|doc| - 1].From?;
    }
  }

  function Aliased(c: Context, doc: seq<Instr>): seq<Instr> {
    WithAlias(RequestOf(c), Scoped(c.prefix, doc), FromCount(Scoped(c.prefix, doc)))
  }

  lemma {:induction false} IncludableChooses(c: Context, doc: seq<Instr>, k: nat)
    requires Includable(c, doc, k)
    ensures var s := Stages(Scoped(c.prefix, doc));
            && |s| == FromCount(Scoped(c.prefix, doc))
            && (forall j :: 0 <= j < |s| ==> (Chosen(RequestOf(c), s[j].alias, j + 1, |s|) <==> j == k))
            && (IsTarget(c.target) ==> TargetDeclared(RequestOf(c), Scoped(c.prefix, doc)))
  {
    CleanIsFresh(c.prefix, Names(Stages(Defaulted(doc))));
    ChoosesWanted(c, doc, k);
  }

  lemma {:induction false} IncludedResult(hash: string -> string, c: Context, doc: seq<Instr>, k: nat)
    requires Includable(c, doc, k)
    ensures PostProcessed(hash, c, doc) == Ok(Deduplicated(Aliased(c, doc)))
  {
    IncludableChooses(c, doc, k);
  }

  lemma {:induction false} AliasedFile(c: Context, doc: seq<Instr>, k: nat)
    requires Includable(c, doc, k)
    ensures var s := Stages(Scoped(c.prefix, doc));
            && k < |s|
            && Stages(Aliased(c, doc)) == SplitStage(s, k, c.alias.value)
            && Anchored(Aliased(c, doc))
            && WellScoped(SplitStage(s, k, c.alias.value)) && Uniform(SplitStage(s, k, c.alias.value))
  {
    ScopedFile(c, doc, k);
    IncludableChooses(c, doc, k);
    var s := Stages(Scoped(c.prefix, doc));
    var alias := c.alias.value;
    WithAliasSplits(RequestOf(c), Scoped(c.prefix, doc), |s|, AliasList(s), k);
    SplitUniform(s, k, alias);
    SplitNames(s, k, alias);
  }

  /** Alias correctness. The included file is accepted, and in it the alias means the wanted
      stage as it was before the passes. */
  lemma {:induction false} IncludedFileMeaning(hash: string -> string, c: Context, doc: seq<Instr>, k: nat)
    requires Includable(c, doc, k)
    ensures var d := Stages(Defaulted(doc));
            && PostProcessed(hash, c, doc).Ok?
            && Resolve(EnvOf(map[], Stages(PostProcessed(hash, c, doc).value)), c.alias.value)
               == ImageOf(EnvOf(map[], d[..k]), d[k])
            && Resolve(EnvOf(map[], d), d[k].alias.value) == ImageOf(EnvOf(map[], d[..k]), d[k])
  {
    ScopedFile(c, doc, k);
    AliasedFile(c, doc, k);
    IncludedResult(hash, c, doc, k);
    var d, s := Stages(Defaulted(doc)), Stages(Scoped(c.prefix, doc));
    SplitMeaning(s, k, c.alias.value);
    OnlyMeaning(s, k);
    OnlyMeaning(d, k);
    DeduplicationKeepsMeaning(Aliased(c, doc));
    LiveMeaning(c, doc, k);
  }

  lemma {:induction false} LiveMeaning(c: Context, doc: seq<Instr>, k: nat)
    requires Includable(c, doc, k)
    ensures var d, s := Stages(Defaulted(doc)), Stages(Scoped(c.prefix, doc));
            && k < |s| && s[k].alias == Some(ScopedName(c.prefix, d[k].alias.value))
            && Resolve(EnvOf(map[], s), s[k].alias.value) == Resolve(EnvOf(map[], d), d[k].alias.value)
  {
    ScopedFile(c, doc, k);
    var d := Stages(Defaulted(doc));
    var live :| Steady(c.prefix, Names(d), d, live) && d[k].alias.value in live;
    DeclaredIff(d, d[k].alias.value);
    ScopingKeepsLiveMeaning(c.prefix, doc, live);
  }
}
