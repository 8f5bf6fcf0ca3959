/** A document that names two targets of one file and gets the wrong image for the second. */
module ChainedTargets {
  import opened Dockerfile
  import opened Renaming
  import opened ScopeStages
  import opened RebasedStages
  import opened DeduplicateStages
  import opened FirstOccurrences
  import opened PostProcessDockerfile
  import opened IncludedFiles
  import opened TwoTargets
  import opened TwoLoads
  import opened LeafLoads

  const T := Other("t")
  const Z := Other("z")

  /** `a` has a body, `b` is built on it, and `c` on `b`. */
  function Chain(): seq<Instr> {
    [From("o", Some("a")), T, From("a", Some("b")), From("b", Some("c")), Z]
  }

  function ChainStages(): seq<Stage> {
    [Stage("o", Some("a"), [T]), Stage("a", Some("b"), []), Stage("b", Some("c"), [Z])]
  }

  function ScopedChain(): seq<Stage> {
    [Stage("o", Some("p--a"), [T]), Stage("p--a", Some("p--b"), []), Stage("p--b", Some("p--c"), [Z])]
  }

  function ChainContext(target: string): Context {
    Context(Some(target), Some("s"), "p", false, false)
  }

  function Between2(): seq<Instr> {
    [From("s", Some("x"))]
  }

  lemma {:induction false} ExtendLast(ss: seq<Stage>, x: Stage, i: Instr)
    ensures Extend(ss + [x], [i]) == ss + [x.(body := x.body + [i])]
  {
  }

  lemma {:induction false} ChainStarts()
    ensures var f, g := From("o", Some("a")), From("a", Some("b"));
            Anchored([f, T, g]) && Stages([f, T, g]) == [Stage("o", Some("a"), [T]), Stage("a", Some("b"), [])]
  {
    var f, g := From("o", Some("a")), From("a", Some("b"));
    assert Stages([]) == [] && Anchored([]);
    StagesSnoc([], f);
    StagesSnoc([f], T);
    StagesSnoc([f, T], g);
    ExtendLast([], Stage("o", Some("a"), []), T);
    assert [] + [f] == [f] && [f] + [T] == [f, T] && [f, T] + [g] == [f, T, g] && [] + [T] == [T];
  }

  lemma {:induction false} ChainRead()
    ensures Anchored(Chain()) && Stages(Chain()) == ChainStages()
  {
    var before, h := [From("o", Some("a")), T, From("a", Some("b"))], From("b", Some("c"));
    ChainStarts();
    StagesSnoc(before, h);
    StagesSnoc(before + [h], Z);
    ExtendLast([Stage("o", Some("a"), [T]), Stage("a", Some("b"), [])], Stage("b", Some("c"), []), Z);
    assert before + [h] + [Z] == Chain() && [] + [Z] == [Z];
  }

  lemma {:induction false} ChainDefaults()
    ensures Defaulted(Chain()) == Chain() && Building(Chain())
  {
  }

  lemma {:induction false} ThreeStages(x: Stage, y: Stage, z: Stage)
    requires x.alias.Some? && y.alias.Some? && z.alias.Some?
    ensures Names([x, y, z]) == [x.alias.value, y.alias.value, z.alias.value]
    ensures Declared([x, y, z]) == {x.alias.value, y.alias.value, z.alias.value}
    ensures Free([x, y, z]) == Refs(x) + (Refs(y) - {x.alias.value}) + (Refs(z) - {x.alias.value, y.alias.value})
  {
    OneStage(x);
    OneStage(y);
    OneStage(z);
    ThreeParts([x], [y], [z]);
    assert [x] + [y] + [z] == [x, y, z];
  }

  lemma {:induction false} ChainNames()
    ensures Names(ChainStages()) == ["a", "b", "c"] && Declared(ChainStages()) == {"a", "b", "c"}
    ensures Free(ChainStages()) == {"o"}
    ensures Names(ScopedChain()) == ["p--a", "p--b", "p--c"] && Declared(ScopedChain()) == {"p--a", "p--b", "p--c"}
    ensures Free(ScopedChain()) == {"o"} && Refs(ScopedChain()[2]) == {"p--b"}
  {
    assert [T][..0] == [] && [Z][..0] == [];
    ThreeStages(ChainStages()[0], ChainStages()[1], ChainStages()[2]);
    ThreeStages(ScopedChain()[0], ScopedChain()[1], ScopedChain()[2]);
  }

  lemma {:induction false} ChainOrder(b: string)
    requires b == "o" || b == "a" || b == "b"
    ensures TakenRight("p", ["a", "b", "c"], b)
  {
    var names := ["a", "b", "c"];
    assert names[..2] == ["a", "b"] && names[..2][..1] == ["a"] && names[..2][..1][..0] == [];
    assert "a"[0] == 'a' && "b"[0] == 'b' && "c"[0] == 'c' && "o"[0] == 'o';
    assert FirstStart(["a"], b) == if b == "a" then Some("a") else None;
    assert FirstStart(["a", "b"], b) == if b == "o" then None else Some(b);
    assert "p"[0] == 'p' && TakenFor(names, b) == b;
    TakenFirst("p", names, b);
  }

  lemma {:induction false} ChainClean(n: string, m: string, r: string)
    requires n in ["a", "b", "c"] && r == "o"
    ensures !(n <= ScopedName("p", m)) && !(n <= r) && r != ScopedName("p", m)
  {
    assert "a"[0] == 'a' && "b"[0] == 'b' && "c"[0] == 'c' && "o"[0] == 'o';
    assert ScopedName("p", m)[0] == 'p';
  }

  lemma {:induction false} ChainApart()
    ensures NamesApart("p", ChainStages()) && Uniform(ChainStages())
  {
    ChainNames();
    forall n, m | n in Names(ChainStages()) && m in Names(ChainStages()) ensures !(n <= ScopedName("p", m)) {
      ChainClean(n, m, "o");
    }
    assert "p"[0] == 'p';
    FirstIsBackward("p", ChainStages());
    forall r, n | r in Free(ChainStages()) && n in Declared(ChainStages())
      ensures !(n <= r) && r != ScopedName("p", n)
    {
      ChainClean(n, n, r);
    }
    assert "a"[0] == 'a' && "b"[0] == 'b' && "c"[0] == 'c';
  }

  lemma {:induction false} ChainLive()
    ensures Steady("p", ["a", "b", "c"], ChainStages(), {"a", "b", "c"})
  {
    ChainNames();
    ChainOrder("o");
    ChainOrder("a");
    ChainOrder("b");
  }

  lemma {:induction false} ChainOnly(k: nat)
    requires k < 3
    ensures OnlyAt(ChainStages(), k)
  {
    assert "a"[0] == 'a' && "b"[0] == 'b' && "c"[0] == 'c';
  }

  lemma {:induction false} ChainSteady(k: nat)
    requires k < 3
    ensures SteadyAt("p", ChainStages(), k)
  {
    ChainNames();
    ChainLive();
    assert ChainStages()[k].alias.value in {"a", "b", "c"};
  }

  lemma {:induction false} ChainAlias()
    ensures "s" !in Free(ChainStages()) && forall n :: n in Declared(ChainStages()) ==> ScopedName("p", n) != "s"
  {
    ChainNames();
    assert "s"[0] == 's' && "o"[0] == 'o';
    forall n | n in Declared(ChainStages()) ensures ScopedName("p", n) != "s" {
      assert ScopedName("p", n)[0] == 'p';
    }
  }

  lemma {:induction false} ChainWanted(target: string, k: nat)
    requires (target == "a" && k == 0) || (target == "c" && k == 2)
    ensures Wanted(ChainContext(target), ChainStages(), k)
  {
    ChainOnly(k);
    assert "a"[0] == 'a' && "c"[0] == 'c';
  }

  lemma {:induction false} ChainIncludable(target: string, k: nat)
    requires (target == "a" && k == 0) || (target == "c" && k == 2)
    ensures Includable(ChainContext(target), Chain(), k)
  {
    ChainRead();
    ChainDefaults();
    ChainApart();
    ChainSteady(k);
    ChainAlias();
    ChainWanted(target, k);
  }

  lemma {:induction false} ChainLeaf(target: string, k: nat)
    requires (target == "a" && k == 0) || (target == "c" && k == 2)
    ensures LeafFile(ChainContext(target), Chain(), k)
  {
    ChainRead();
    ChainDefaults();
    ChainIncludable(target, k);
  }

  lemma {:induction false} ChainRebased()
    ensures Rebased("p", ["a", "b", "c"], ChainStages()) == ChainStages()
  {
    ChainOrder("o");
    ChainOrder("a");
    ChainOrder("b");
  }

  lemma {:induction false} RenamedStage(rho: Renaming, base: string, alias: string, body: seq<Instr>)
    requires body == [T] || body == [Z] || body == []
    ensures RenameStage(rho, Stage(base, Some(alias), body)) == Stage(Apply(rho, base), Some(Apply(rho, alias)), body)
  {
  }

  lemma {:induction false} ChainApply()
    ensures var rho := ScopeRenaming("p", ["a", "b", "c"]);
            Apply(rho, "o") == "o" && Apply(rho, "a") == "p--a" && Apply(rho, "b") == "p--b"
              && Apply(rho, "c") == "p--c"
  {
    assert "o"[0] == 'o' && "a"[0] == 'a' && "b"[0] == 'b' && "c"[0] == 'c';
    assert ScopedName("p", "a") == "p--a" && ScopedName("p", "b") == "p--b" && ScopedName("p", "c") == "p--c";
  }

  lemma {:induction false} ChainRenamed()
    ensures RenameStages(ScopeRenaming("p", ["a", "b", "c"]), ChainStages()) == ScopedChain()
  {
    var rho := ScopeRenaming("p", ["a", "b", "c"]);
    ChainApply();
    RenamedStage(rho, "o", "a", [T]);
    RenamedStage(rho, "a", "b", []);
    RenamedStage(rho, "b", "c", [Z]);
  }

  lemma {:induction false} ChainScoped()
    ensures Stages(Scoped("p", Chain())) == ScopedChain()
  {
    ChainRead();
    ChainDefaults();
    ChainNames();
    ChainLeaf("a", 0);
    ScopedIs(ChainContext("a"), Chain(), 0);
    ChainRebased();
    ChainRenamed();
  }

  lemma {:induction false} ChainApartStages()
    ensures AllOnly(ScopedChain()) && KeepFirst(ScopedChain()) == ScopedChain()
    ensures At(ScopedChain(), 0) == 0 && At(ScopedChain(), 2) == 2
  {
    var d := ScopedChain();
    assert "p--a"[3] == 'a' && "p--b"[3] == 'b' && "p--c"[3] == 'c';
    KeepFirstOfApart(d);
  }

  /** Stage c depends on stage a through b, which the second load does not repeat. */
  lemma {:induction false} ChainUnsafe()
    ensures AllOnly(ScopedChain()) && !SecondSafe(ScopedChain(), 0, 2)
  {
    var d := ScopedChain();
    ChainApartStages();
    ChainNames();
    assert Touched(d, 0, 1) == {"p--a"};
    assert BodyRefs(d[1].body) == {} && Refs(d[1]) == {"p--a"};
    assert "p--a" in Refs(d[1]) * Touched(d, 0, 1);
    assert Touched(d, 0, 2) == {"p--a"} + {"p--b"};
    assert "p--b" in Refs(d[2]) * Touched(d, 0, 2);
    assert Touched(d, 0, 3) == {"p--a"} + {"p--b"} + {"p--c"};
    assert "p--a"[3] == 'a' && "p--b"[3] == 'b';
    assert "p--b" in Refs(d[2]) * (Changed(d, 0) - {"p--a"});
  }

  lemma {:induction false} BetweenRead()
    ensures Anchored(Between2()) && Building(Between2()) && Stages(Between2()) == [Stage("s", Some("x"), [])]
  {
    var i := From("s", Some("x"));
    assert Stages([]) == [] && Anchored([]);
    StagesSnoc([], i);
    assert [] + [i] == [i];
  }

  lemma {:induction false} BetweenNew()
    ensures Declared([Stage("s", Some("x"), [])]) == {"x"}
    ensures "x" !in {"p--a", "p--b", "p--c"} + {"o"} + {"s"}
  {
    OneStage(Stage("s", Some("x"), []));
    assert |"x"| == 1 && |"p--a"| == 4 && |"p--b"| == 4 && |"p--c"| == 4;
    assert "x"[0] == 'x' && "s"[0] == 's' && "o"[0] == 'o';
  }

  lemma {:induction false} ChainBetween()
    ensures OwnBetween(ChainContext("a"), Chain(), Between2())
  {
    ChainScoped();
    ChainNames();
    BetweenRead();
    BetweenNew();
  }

  lemma {:induction false} ChainFile()
    ensures FileStages("p", Chain()) == ScopedChain() && |Stages(Scoped("p", Chain()))| == 3
    ensures At(Stages(Scoped("p", Chain())), 0) == 0 && At(Stages(Scoped("p", Chain())), 2) == 2
    ensures LastHolds(ScopedChain(), 0, 2)
  {
    ChainScoped();
    ChainApartStages();
  }

  lemma {:induction false} ChainWhole()
    ensures |Stages(Defaulted(Chain()))| == 3 && Stages(Defaulted(Chain()))[2].alias == Some("c")
  {
    ChainRead();
    ChainDefaults();
  }

  /** `FROM ./file#a AS x` and then `FROM ./file#c`: the second alias does not mean stage `c`. */
  lemma {:induction false} SecondTargetIsLost(hash: string -> string, text: string, display: string)
    ensures var v := PostProcessed(hash, ChainContext("a"), Chain());
            var w := PostProcessed(hash, ChainContext("c"), Chain());
            && v.Ok? && w.Ok?
            && var lines := Twice(text, display, "from", v.value, Between2(), "from", w.value);
               Resolve(EnvOf(map[], Stages(Deduplicated(lines))), "s")
               != Resolve(EnvOf(map[], Stages(Defaulted(Chain()))), "c")
  {
    ChainLeaf("a", 0);
    ChainLeaf("c", 2);
    ChainWhole();
    ChainBetween();
    ChainFile();
    ChainUnsafe();
    SecondLeafExact(hash, ChainContext("a"), ChainContext("c"), Chain(), 0, 2, 0, 2, Between2(), text, display);
  }
}
