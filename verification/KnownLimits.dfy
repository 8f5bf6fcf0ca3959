/** Documents on which a pass changes the meaning, one for each hypothesis of the compiler's
    correctness that the source does not check. */
module KnownLimits {
  import opened Dockerfile
  import opened ScopeStages
  import opened RebasedStages
  import opened DeduplicateStages
  import opened SanitizeStageNames
  import opened PostProcessDockerfile
  import opened LoadDockerfile
  import opened IncludedFiles
  import opened IncludedReferences

  // Documents of three instructions

  lemma {:induction false} TwoStages(x: Stage, y: Stage)
    requires x.body == []
    ensures LastImage(map[], [x, y]) ==
            ImageOf(if x.alias.Some? then map[x.alias.value := Image(x.base, [])] else map[], y)
  {
    assert [x, y][..1] == [x] && [x][..0] == [];
    assert EnvOf(map[], []) == map[];
    assert ImageOf(map[], x) == Image(x.base, []);
    if x.alias.Some? {
      assert EnvOf(map[], [x]) == map[][x.alias.value := Image(x.base, [])] == map[x.alias.value := Image(x.base, [])];
    }
  }

  lemma {:induction false} OneMount(env: Env, base: string, r: Instr)
    requires r.Run? && r.mount.Some? && base !in env
    ensures ImageOf(env, Stage(base, None, [r])) == Image(base, [Mounted(Resolve(env, r.mount.value), r.command)])
  {
    assert [r][..0] == [];
    assert Build(env, Image(base, []), [r]) == Image(base, [] + [Mounted(Resolve(env, r.mount.value), r.command)]);
  }

  lemma {:induction false} ThreeChunks(c: Chunk, d: Chunk)
    requires c != d && StageChunk(c) && StageChunk(d)
    ensures Deduplicated(c + d + c) == c + d
  {
    assert [c, d, c][..2] == [c, d] && [c, d][..1] == [c] && [c][..0] == [];
    assert Flatten([]) == [] && [] + c == c;
    assert Flatten([c]) == c && Flatten([c, d]) == c + d && Flatten([c, d, c]) == c + d + c;
    ChunksOfFlatten([c, d, c]);
    assert KeepFirst([c]) == [c] && KeepFirst([c, d]) == [c, d];
    assert c in [c, d];
  }

  lemma {:induction false} ThreeFroms(f: Instr, g: Instr, h: Instr)
    requires f.From? && g.From? && h.From?
    ensures Stages([f, g]) == [Stage(f.base, f.alias, []), Stage(g.base, g.alias, [])]
    ensures Stages([f, g, h]) == Stages([f, g]) + [Stage(h.base, h.alias, [])]
    ensures StageNames([f, g, h]) == AliasOf(f) + AliasOf(g) + AliasOf(h)
  {
    StagesSnoc([], f);
    StagesSnoc([f], g);
    StagesSnoc([f, g], h);
    assert [] + [f] == [f] && [f] + [g] == [f, g] && [f, g] + [h] == [f, g, h];
    assert [f, g, h][..2] == [f, g] && [f, g][..1] == [f] && [f][..0] == [];
    assert StageNames([]) == [] && StageNames([f]) == AliasOf(f);
  }

  function AliasOf(i: Instr): seq<string> {
    if i.From? && i.alias.Some? then [i.alias.value] else []
  }

  lemma {:induction false} ThreeRounds(i: Instr)
    ensures RewriteRounds("p", ["b", "b2", "x"], i) == Rewrite("p", "x", Rewrite("p", "b2", Rewrite("p", "b", i)))
  {
    var names := ["b", "b2", "x"];
    assert names[..2] == ["b", "b2"] && ["b", "b2"][..1] == ["b"] && ["b"][..0] == [];
    assert RewriteRounds("p", ["b"], i) == Rewrite("p", "b", i);
    assert RewriteRounds("p", ["b", "b2"], i) == Rewrite("p", "b2", Rewrite("p", "b", i));
  }

  function TripleDoc(): seq<Instr> {
    [From("a", Some("b")), From("c", Some("b2")), From("b2", Some("x"))]
  }

  lemma {:induction false} TripleRead()
    ensures Defaulted(TripleDoc()) == TripleDoc() && StageNames(TripleDoc()) == ["b", "b2", "x"]
    ensures Stages(TripleDoc()) == [Stage("a", Some("b"), []), Stage("c", Some("b2"), []), Stage("b2", Some("x"), [])]
  {
    ThreeFroms(From("a", Some("b")), From("c", Some("b2")), From("b2", Some("x")));
  }

  lemma {:induction false} TripleRounds()
    ensures var p, names := "p", ["b", "b2", "x"];
            && RewriteRounds(p, names, TripleDoc()[0]) == From("a", Some("p--b"))
            && RewriteRounds(p, names, TripleDoc()[1]) == From("c", Some("p--b2"))
            && RewriteRounds(p, names, TripleDoc()[2]) == From("p--b", Some("p--x"))
  {
    assert ScopedName("p", "b") == "p--b" && ScopedName("p", "b2") == "p--b2" && ScopedName("p", "x") == "p--x";
    FromRounds("a", "b", TripleDoc()[0], "a", "p--b");
    FromRounds("c", "b2", TripleDoc()[1], "c", "p--b2");
    FromRounds("b2", "x", TripleDoc()[2], "p--b", "p--x");
  }

  lemma {:induction false} ScopedAt(doc: seq<Instr>, k: nat)
    requires Defaulted(doc) == doc && k < |doc|
    ensures |Scoped("p", doc)| == |doc| && Scoped("p", doc)[k] == RewriteRounds("p", StageNames(doc), doc[k])
  {
  }

  /** A name that starts another and is declared first takes its place: the base of the third
      stage is the second stage, and after scoping it is the first. */
  lemma {:induction false} ScopingConfusesNames()
    ensures var f, g, h := From("a", Some("b")), From("c", Some("b2")), From("b2", Some("x"));
            && Scoped("p", [f, g, h]) == [From("a", Some("p--b")), From("c", Some("p--b2")), From("p--b", Some("p--x"))]
            && Stages([f, g, h]) == [Stage("a", Some("b"), []), Stage("c", Some("b2"), []), Stage("b2", Some("x"), [])]
  {
    TripleRead();
    TripleRounds();
    ScopedAt(TripleDoc(), 0);
    ScopedAt(TripleDoc(), 1);
    ScopedAt(TripleDoc(), 2);
  }

  lemma {:induction false} FromRounds(base: string, alias: string, i: Instr, scopedBase: string, scopedAlias: string)
    requires i == From(base, Some(alias)) && alias in ["b", "b2", "x"] && base in ["a", "c", "b2"]
    requires scopedAlias == ScopedName("p", alias) && scopedBase == if base == "b2" then ScopedName("p", "b") else base
    ensures RewriteRounds("p", ["b", "b2", "x"], i) == From(scopedBase, Some(scopedAlias))
  {
    ThreeRounds(i);
    assert scopedAlias[0] == 'p' && scopedBase[0] in ['p', 'a', 'c'];
    assert "b"[0] == 'b' && "b2"[0] == 'b' && "x"[0] == 'x' && |"b"| != |"b2"|;
    assert base == "b2" ==> base[..1] == "b";
  }

  lemma {:induction false} TwoRounds(prefix: string, s: string, t: string, i: Instr)
    ensures RewriteRounds(prefix, [s, t], i) == Rewrite(prefix, t, Rewrite(prefix, s, i))
  {
    assert [s, t][..1] == [s] && [s][..0] == [];
    assert RewriteRounds(prefix, [s], i) == Rewrite(prefix, s, RewriteRounds(prefix, [], i));
  }

  /** Two named stages, scoped. */
  lemma {:induction false} PairScoped(prefix: string, f: Instr, g: Instr)
    requires f.From? && g.From? && f.alias.Some? && g.alias.Some?
    ensures var s, t := f.alias.value, g.alias.value;
            && Scoped(prefix, [f, g])
               == [Rewrite(prefix, t, Rewrite(prefix, s, f)), Rewrite(prefix, t, Rewrite(prefix, s, g))]
            && StageNames(Defaulted([f, g])) == [s, t]
  {
    var doc, s, t := [f, g], f.alias.value, g.alias.value;
    ThreeFroms(f, g, g);
    assert Defaulted(doc) == doc && doc[..1] == [f] && doc[..1][..0] == [];
    assert StageNames([]) == [] && StageNames([f]) == [s] && StageNames(doc) == [s] + [t] == [s, t];
    TwoRounds(prefix, s, t, f);
    TwoRounds(prefix, s, t, g);
    assert Scoped(prefix, doc)[0] == RewriteRounds(prefix, [s, t], f);
    assert Scoped(prefix, doc)[1] == RewriteRounds(prefix, [s, t], g);
  }

  /** What the loop takes a base for, with two names. */
  lemma {:induction false} TwoTaken(prefix: string, s: string, t: string, b: string)
    ensures Taken(prefix, [s, t], b)
            == if s <= b then (if t <= prefix then Some(t) else Some(s)) else if t <= b then Some(t) else None
  {
    assert [s, t][..1] == [s] && [s][..0] == [];
    assert Taken(prefix, [s], b) == if s <= b then Some(s) else None;
  }

  lemma {:induction false} TwoFirst(s: string, t: string, b: string)
    ensures OrderedFor([s, t], b) <==> if s <= b then s == b else t <= b ==> t == b
  {
    assert [s, t][..1] == [s] && [s][..0] == [];
    assert FirstStart([s], b) == if s <= b then Some(s) else None;
  }

  lemma {:induction false} TwoInOrder(prefix: string, s: string, t: string, b: string)
    ensures MetInOrder(prefix, [s, t], b)
            <==> if s <= b then b == (if t <= prefix then t else s) else t <= b ==> t == b
  {
    TwoTaken(prefix, s, t, b);
    TakenRightMeans(prefix, [s, t], b);
  }

  lemma {:induction false} DepsScoped()
    ensures Scoped("build1", [From("alpine", Some("deps")), From("deps", Some("build"))])
            == [From("alpine", Some("build1--deps")), From("build1--build", Some("build1--build"))]
  {
    var f, g := From("alpine", Some("deps")), From("deps", Some("build"));
    PairScoped("build1", f, g);
    assert ScopedName("build1", "deps") == "build1--deps" && ScopedName("build1", "build") == "build1--build";
    assert "alpine"[0] == 'a' && "deps"[0] == 'd' && "build"[0] == 'b' && |"deps"| == 4;
    assert "build1--deps"[..5] == "build" && "build1--deps" != "build";
  }

  lemma {:induction false} PairImage(f: Instr, g: Instr)
    requires f.From? && g.From? && f.alias.Some?
    ensures LastImage(map[], Stages([f, g]))
            == if g.base == f.alias.value then Image(f.base, []) else Image(g.base, [])
  {
    var x, y := Stage(f.base, f.alias, []), Stage(g.base, g.alias, []);
    ThreeFroms(f, g, g);
    TwoStages(x, y);
    var env: Env := map[f.alias.value := Image(f.base, [])];
    assert ImageOf(env, y) == Resolve(env, g.base);
  }

  lemma {:induction false} DepsImages()
    ensures LastImage(map[], Stages([From("alpine", Some("deps")), From("deps", Some("build"))])) == Image("alpine", [])
    ensures LastImage(map[], Stages([From("alpine", Some("build1--deps")),
                                     From("build1--build", Some("build1--build"))]))
            == Image("build1--build", [])
  {
    PairImage(From("alpine", Some("deps")), From("deps", Some("build")));
    PairImage(From("alpine", Some("build1--deps")), From("build1--build", Some("build1--build")));
    assert "build1--deps"[8] == 'd' && "build1--build"[8] == 'b';
  }

  lemma {:induction false} DepsHitAgain()
    ensures OrderedFor(["deps", "build"], "deps") && !MetInOrder("build1", ["deps", "build"], "deps")
  {
    assert "deps"[0] == 'd' && "build"[0] == 'b' && "build1"[..5] == "build";
    TwoFirst("deps", "build", "deps");
    TwoInOrder("build1", "deps", "build", "deps");
  }

  /** In a file whose slug starts with the name of a stage, a base that was rewritten is hit again: the
      stage `build` of build.dockerfile gets itself as base, and builds on an image that is not
      there. */
  lemma {:induction false} RewrittenBaseIsHitAgain()
    ensures var doc := [From("alpine", Some("deps")), From("deps", Some("build"))];
            && Scoped("build1", doc)
               == [From("alpine", Some("build1--deps")), From("build1--build", Some("build1--build"))]
            && LastImage(map[], Stages(doc)) == Image("alpine", [])
            && LastImage(map[], Stages(Scoped("build1", doc))) == Image("build1--build", [])
            && OrderedFor(["deps", "build"], "deps") && !MetInOrder("build1", ["deps", "build"], "deps")
  {
    DepsScoped();
    DepsImages();
    DepsHitAgain();
  }

  lemma {:induction false} BuildScoped()
    ensures Scoped("build1", [From("alpine", Some("build")), From("build", Some("test"))])
            == [From("alpine", Some("build1--build")), From("build1--build", Some("build1--test"))]
  {
    var f, g := From("alpine", Some("build")), From("build", Some("test"));
    PairScoped("build1", f, g);
    assert ScopedName("build1", "build") == "build1--build" && ScopedName("build1", "test") == "build1--test";
    assert "alpine"[0] == 'a' && "test"[0] == 't' && "build"[0] == 'b' && "build1--build"[0] == 'b';
  }

  /** In front of the stages that it could hit such a name does no harm. */
  lemma {:induction false} EarlyNameIsSafe()
    ensures var doc := [From("alpine", Some("build")), From("build", Some("test"))];
            && Scoped("build1", doc)
               == [From("alpine", Some("build1--build")), From("build1--build", Some("build1--test"))]
            && MetInOrder("build1", ["build", "test"], "build")
  {
    BuildScoped();
    assert "test"[0] == 't' && "build1"[0] == 'b';
    TwoInOrder("build1", "build", "test", "build");
  }

  lemma {:induction false} NamedFroms(f: Instr, g: Instr)
    requires f.From? && g.From? && f.alias.Some? && g.alias.Some?
    ensures Defaulted([f, g]) == [f, g] && Anchored([f, g])
    ensures Stages([f, g]) == [Stage(f.base, f.alias, []), Stage(g.base, g.alias, [])]
  {
    ThreeFroms(f, g, g);
    assert [f, g][..1] == [f] && [f][..0] == [];
  }

  lemma {:induction false} NamedPair(x: Stage, y: Stage)
    requires x.alias.Some? && y.alias.Some? && x.body == [] && y.body == []
    ensures Names([x, y]) == [x.alias.value, y.alias.value] && Declared([x, y]) == {x.alias.value, y.alias.value}
    ensures Free([x, y]) == {x.base} + ({y.base} - {x.alias.value})
  {
    OneStage(x);
    OneStage(y);
    assert [x, y] == [x] + [y];
    NamesConcat([x], [y]);
    FreeConcat([x], [y]);
  }

  lemma {:induction false} OtherStart(n: string, m: string)
    requires n != "" && m != "" && n[0] != m[0]
    ensures !(n <= m) && n != m
  {
  }

  lemma {:induction false} TwoNamesApart(prefix: string, x: Stage, y: Stage)
    requires x.alias.Some? && y.alias.Some? && x.body == [] && y.body == []
    requires Names([x, y]) == [x.alias.value, y.alias.value] && Declared([x, y]) == {x.alias.value, y.alias.value}
    requires Free([x, y]) <= {x.base, y.base}
    requires x.alias.value != "" && x.alias.value[0] == 'b' && y.alias.value != "" && y.alias.value[0] == 'b'
    requires prefix != "" && prefix[0] == 'p' && x.base == "a" && y.base == "c"
    ensures NamesApart(prefix, [x, y])
  {
    assert "a"[0] == 'a' && "c"[0] == 'c';
    forall n, m | n in Names([x, y]) && m in Names([x, y]) ensures !(n <= ScopedName(prefix, m)) && !(n <= prefix) {
      assert ScopedName(prefix, m)[0] == 'p';
      OtherStart(n, ScopedName(prefix, m));
      OtherStart(n, prefix);
    }
    FirstIsBackward(prefix, [x, y]);
    forall r, n | r in Free([x, y]) && n in Declared([x, y]) ensures !(n <= r) && r != ScopedName(prefix, n) {
      assert ScopedName(prefix, n)[0] == 'p';
      OtherStart(n, r);
      OtherStart(r, ScopedName(prefix, n));
    }
  }

  lemma {:induction false} PairSteady(prefix: string, x: Stage, y: Stage)
    requires x.alias.Some? && y.alias.Some? && x.alias != y.alias && y.body == []
    requires !(x.alias.value <= y.base) && !(y.alias.value <= y.base)
    requires Names([x, y]) == [x.alias.value, y.alias.value] && y.base !in Declared([x, y])
    ensures SteadyAt(prefix, [x, y], 1) && OnlyAt([x, y], 1) && Uniform([x, y])
  {
    TwoTaken(prefix, x.alias.value, y.alias.value, y.base);
    assert BodyRefs(y.body) == {} && Refs(y) == {y.base};
    assert Steady(prefix, Names([x, y]), [x, y], {y.alias.value});
  }

  function PairDoc(): seq<Instr> {
    [From("a", Some("b")), From("c", Some("b2"))]
  }

  lemma {:induction false} PairStages()
    ensures var x, y := Stage("a", Some("b"), []), Stage("c", Some("b2"), []);
            && Defaulted(PairDoc()) == PairDoc() && Anchored(PairDoc()) && Stages(PairDoc()) == [x, y]
            && Names([x, y]) == ["b", "b2"] && Declared([x, y]) == {"b", "b2"} && Free([x, y]) == {"a", "c"}
            && NamesApart("p", [x, y]) && SteadyAt("p", [x, y], 1) && OnlyAt([x, y], 1) && Uniform([x, y])
  {
    var x, y := Stage("a", Some("b"), []), Stage("c", Some("b2"), []);
    NamedFroms(From("a", Some("b")), From("c", Some("b2")));
    NamedPair(x, y);
    TwoNamesApart("p", x, y);
    assert "b"[0] == 'b' && "b2"[0] == 'b' && "c"[0] == 'c' && "p"[0] == 'p' && |"b"| != |"b2"|;
    PairSteady("p", x, y);
  }

  lemma {:induction false} PairIncludable(c: Context)
    requires !c.isRootFile && !c.isRootInclude && c.alias == Some("s") && c.prefix == "p"
    requires c.target == None || c.target == Some("b2")
    ensures Includable(c, PairDoc(), 1)
  {
    PairStages();
    assert "a"[0] == 'a' && "c"[0] == 'c' && "s"[0] == 's';
    assert ScopedName("p", "b")[0] == 'p' && ScopedName("p", "b2")[0] == 'p';
  }

  /** `FROM ./file#b2` below the root, when the file declares `b` before `b2`: the including file's
      loop takes the base of the alias line for the stage `b`. */
  lemma {:induction false} TargetTakenForOther()
    ensures var c := Context(Some("b2"), Some("s"), "p", false, false);
            && Includable(c, PairDoc(), 1)
            && TakenFor(Names(Outcome(c, PairDoc())), ScopedName("p", "b2")) != ScopedName("p", "b2")
  {
    var c := Context(Some("b2"), Some("s"), "p", false, false);
    PairIncludable(c);
    PairStages();
    TwoNamesOrder();
    NestedTargetExact(c, PairDoc(), 1);
  }

  lemma {:induction false} TwoNamesOrder()
    ensures "b" != "b2" && "b"[0] == 'b' && "b2"[0] == 'b'
    ensures OrderedFor(["b", "b2"], "c") && !OrderedFor(["b", "b2"], "b2")
  {
    assert |"b"| == 1 && |"b2"| == 2 && "c"[0] == 'c' && "b2"[..1] == "b";
    TwoFirst("b", "b2", "c");
    TwoFirst("b", "b2", "b2");
  }

  lemma {:induction false} UnnamedLast(stages: seq<Stage>, base: string)
    requires forall x :: x in stages ==> x.alias.None?
    ensures EnvOf(map[], stages) == map[]
    ensures LastImage(map[], stages + [Stage(base, None, [])]) == Image(base, [])
  {
    var all := stages + [Stage(base, None, [])];
    if stages != [] {
      assert stages[|stages| - 1] in stages;
      UnnamedLast(stages[..|stages| - 1], base);
    }
    assert all[..|all| - 1] == stages && all[|all| - 1] == Stage(base, None, []);
  }

  /** Of `FROM a`, `FROM b`, `FROM a` deduplication drops the last stage. */
  lemma {:induction false} RepeatedLastStageIsLost()
    ensures var a, b := From("a", None), From("b", None);
            && Deduplicated([a, b, a]) == [a, b]
            && LastImage(map[], Stages([a, b, a])) == Image("a", [])
            && LastImage(map[], Stages([a, b])) == Image("b", [])
  {
    var a, b := From("a", None), From("b", None);
    ThreeChunks([a], [b]);
    assert [a] + [b] == [a, b] && [a] + [b] + [a] == [a, b, a];
    ThreeFroms(a, b, a);
    var x, y := Stage("a", None, []), Stage("b", None, []);
    assert [x, y] == [x] + [y];
    UnnamedLast([x], "b");
    UnnamedLast([x, y], "a");
  }

  /** A mount of a stage whose name is not in lower case loses its stage. */
  lemma {:induction false} MountLosesStage(hash: string -> string)
    ensures var f, g, r := From("a", Some("B")), From("c", None), Run(Some("B"), "x");
            && Sanitized(hash, [f, g, r]) == [From("a", Some("b")), g, r]
            && LastImage(map[], [Stage("a", Some("B"), []), Stage("c", None, [r])])
               == Image("c", [Mounted(Image("a", []), "x")])
            && LastImage(map[], [Stage("a", Some("b"), []), Stage("c", None, [r])])
               == Image("c", [Mounted(Image("B", []), "x")])
  {
    var f, g, r := From("a", Some("B")), From("c", None), Run(Some("B"), "x");
    assert SanitizeStageName(hash, "B") == "b";
    assert [f, g, r][..2] == [f, g] && [f, g][..1] == [f] && [f][..0] == [];
    assert Aliases(hash, []) == map[] && Sanitized(hash, []) == [];
    assert Sanitized(hash, [f]) == [From("a", Some("b"))];
    assert Sanitized(hash, [f, g]) == [From("a", Some("b")), g];
    var x := Stage("c", None, [r]);
    TwoStages(Stage("a", Some("B"), []), x);
    TwoStages(Stage("a", Some("b"), []), x);
    OneMount(map["B" := Image("a", [])], "c", r);
    OneMount(map["b" := Image("a", [])], "c", r);
  }

  lemma {:induction false} OneChunk(f: Instr)
    requires f.From?
    ensures Deduplicated([f]) == [f]
  {
    assert Flatten([]) == [] && [[f]][..0] == [] && [] + [f] == [f] && Flatten([[f]]) == [f];
    ChunksOfFlatten([[f]]);
    assert KeepFirst([[f]]) == [[f]];
  }

  lemma {:induction false} SanitizedPair(hash: string -> string, a: Instr, b: Instr)
    ensures Sanitized(hash, [a]) == [SanitizeInstr(hash, map[], a)]
    ensures Sanitized(hash, [a, b]) == Sanitized(hash, [a]) + [SanitizeInstr(hash, Aliases(hash, [a]), b)]
  {
    assert Aliases(hash, []) == map[] && Sanitized(hash, []) == [] && [a][..0] == [] && [a, b][..1] == [a];
  }

  lemma {:induction false} LostNameStays(hash: string -> string)
    ensures var g, r := From("a", Some("b")), From("B", None); Sanitized(hash, [g, r]) == [g, r]
  {
    var g, r := From("a", Some("b")), From("B", None);
    SanitizedPair(hash, g, r);
    assert SanitizeStageName(hash, "b") == "b";
    assert Aliases(hash, [g]) == map["b" := "b"] by {
      assert Aliases(hash, []) == map[] && [g][..0] == [];
    }
    assert SanitizeInstr(hash, map["b" := "b"], r) == r;
  }

  /** An INCLUDEd stage whose name is not in lower case is renamed before the root refers to it:
      `FROM B` behind the INCLUDE does not find it. */
  lemma {:induction false} IncludedNameIsLost(hash: string -> string)
    ensures var f, g, r := From("a", Some("B")), From("a", Some("b")), From("B", None);
            && Sanitized(hash, Deduplicated([f])) == [g]
            && LastImage(map[], Stages([f, r])) == Image("a", [])
            && Sanitized(hash, [g, r]) == [g, r] && LastImage(map[], Stages([g, r])) == Image("B", [])
  {
    var f, g, r := From("a", Some("B")), From("a", Some("b")), From("B", None);
    OneChunk(f);
    LostNameStays(hash);
    SanitizedPair(hash, f, r);
    assert SanitizeStageName(hash, "B") == "b";
    ThreeFroms(f, r, r);
    ThreeFroms(g, r, r);
    TwoStages(Stage("a", Some("B"), []), Stage("B", None, []));
    TwoStages(Stage("a", Some("b"), []), Stage("B", None, []));
  }

  lemma {:induction false} PairBehind()
    ensures forall y :: y in Stages(Defaulted(PairDoc())) ==> y.alias.Some?
    ensures WellScoped(Stages([]) + Stages(PairDoc())) && Declared(Stages([])) !! Declared(Stages(PairDoc()))
    ensures Declared(Stages(PairDoc())) == {"b", "b2"}
  {
    PairStages();
    assert Stages([]) + Stages(PairDoc()) == Stages(PairDoc()) && "a"[0] == 'a' && "b"[0] == 'b' && "c"[0] == 'c';
  }

  lemma {:induction false} OneFree(b: string)
    ensures Free([Stage(b, None, [])]) == {b}
  {
    assert [Stage(b, None, [])][..0] == [];
  }

  /** A stage INCLUDEd below the root gets another name: `FROM b2` behind the INCLUDE does not
      find it. */
  lemma {:induction false} NestedNameIsLost(hash: string -> string, text: string, display: string)
    ensures var c, b := Context(None, Some("s"), "p", false, false), [Stage("b2", None, [])];
            && PostProcessed(hash, c, PairDoc()).Ok?
            && !SameImages(EnvOf(map[],
                                 Stages([] + Framed(text, display, "include",
                                                    PostProcessed(hash, c, PairDoc()).value))),
                           EnvOf(map[], Stages([] + PairDoc())), b)
  {
    var c, b := Context(None, Some("s"), "p", false, false), [Stage("b2", None, [])];
    PairIncludable(c);
    PairBehind();
    OneFree("b2");
    assert "b2"[0] == 'b' && "p"[0] == 'p' && "s"[0] == 's';
    NestedIncludeExact(hash, c, [], PairDoc(), 1, text, display, b);
  }
}
