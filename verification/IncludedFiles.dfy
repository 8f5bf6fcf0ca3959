/** An included file of a tidy tree: its names are apart, so the passes accept it, and what they
    return keeps the demands that the including file relies on. */
module IncludedFiles {
  import opened Dockerfile
  import opened ScopeStages
  import opened RebasedStages
  import opened ScopedOrder
  import opened DeduplicateStages
  import opened PostProcessDockerfile
  import opened LoadDockerfile
  import opened TidyTrees
  import opened LineInvariants
  import opened LineOrder
  import opened LineSteps

  // The names of an included file

  /** The site is an included file found under `path`. */
  ghost predicate Here(s: Site, path: string) {
    && !s.isRoot && !s.flat && Grounded(s)
    && path in s.w.files && s.w.files[path] == s.f && path in s.chain
  }

  /** The lines of a whole included file keep the invariants. */
  ghost predicate Complete(s: Site, ss: seq<Stage>) {
    && SiteOk(s) && !s.isRoot
    && Syntax(s, |s.f.items|, AllNames(s), ss) && InOrder(s, |s.f.items|, AllNames(s), Names(ss))
  }

  lemma {:induction false} AllKnown(s: Site)
    ensures Known(s, AllNames(s))
  {
  }

  lemma {:induction false} BlockNotPrefixed(s: Site, i: nat, m: string)
    requires SiteOk(s) && !s.isRoot && UsedAt(s, i) && m in Names(Block(s, i))
    ensures !(OwnSlug(s) <= m)
  {
    DeclaredIff(Block(s, i), m);
    BlockNameOwned(s, i, m);
    RefersAt(s, i);
    var t := OwnedSlug(s.w, s.f, RefAt(s, i), m);
    if OwnSlug(s) <= m {
      PrefixesCompare(OwnSlug(s), t, m);
    }
  }

  /** The file's slug starts none of its names. */
  lemma {:induction false} NotPrefixed(s: Site, n: nat, m: string)
    requires SiteOk(s) && !s.isRoot && NameFrom(s, n, m)
    ensures !(OwnSlug(s) <= m)
  {
    if k: nat :| k < n && NamesStage(s.f, s.isRoot, k, m) {
    } else {
      var i: nat :| i < n && UsedAt(s, i) && m in Names(Block(s, i));
      BlockNotPrefixed(s, i, m);
    }
  }

  lemma {:induction false} CleanHere(s: Site, n: nat, names: seq<string>)
    requires SiteOk(s) && !s.isRoot && forall m :: m in names ==> NameFrom(s, n, m)
    ensures Clean(OwnSlug(s), names)
  {
    forall a, b | a in names && b in names && a <= ScopedName(OwnSlug(s), b) ensures a <= OwnSlug(s) {
      NotPrefixed(s, n, a);
      PrefixesCompare(a, OwnSlug(s), ScopedName(OwnSlug(s), b));
    }
  }

  // What the file's scoping loop takes its bases for

  lemma {:induction false} PlainIsOwn(s: Site, k: nat, n: nat, u: string)
    requires NamesStage(s.f, s.isRoot, k, u) && k < n <= |s.f.items|
    ensures u in OwnNames(s.w, s.f, s.isRoot, n)
    decreases n
  {
    if k + 1 < n {
      PlainIsOwn(s, k, n - 1, u);
    } else {
      assert NameOf(s.w, s.isRoot, s.f.items[k]) == Some(u);
    }
  }

  lemma {:induction false} BallBaseOnce(s: Site, ss: seq<Stage>, b: string)
    requires Complete(s, ss) && InBall(s, |s.f.items|, b) && RightBase(s, b)
    ensures TakenBy(OwnSlug(s), Names(ss), b) == TakenFor(Names(ss), b) == b
  {
    assert OrderedFor(Names(ss), b);
    if b in s.ext {
      ExternalBaseOnce(s, |s.f.items|, AllNames(s), Names(ss), b);
    } else if PlainName(s, b) {
      var k: nat :| NamesStage(s.f, s.isRoot, k, b);
      PlainIsOwn(s, k, |s.f.items|, b);
      OwnBaseOnce(s, Names(ss), b);
    } else {
      var i: nat :| UsedAt(s, i) && (b == AliasAt(s, i) || exists x :: x in Live(s, i) && x.base == b);
      LiveBaseDeclared(s, i, b);
      BroughtBaseOnce(s, Names(ss), i, b);
    }
  }

  lemma {:induction false} BlockStageOnce(s: Site, ss: seq<Stage>, i: nat, x: Stage)
    requires Complete(s, ss) && UsedAt(s, i) && x in Block(s, i)
    ensures TakenBy(OwnSlug(s), Names(ss), x.base) == TakenFor(Names(ss), x.base)
  {
    RefsOfMember(Block(s, i), x);
    assert x.base in Refs(x);
    if x.base in s.ext {
      ExternalBaseOnce(s, |s.f.items|, AllNames(s), Names(ss), x.base);
    } else {
      BlockNameOwned(s, i, x.base);
      BroughtBaseOnce(s, Names(ss), i, x.base);
    }
  }

  /** No base is taken for two names in turn. */
  lemma {:induction false} BasesOnce(s: Site, ss: seq<Stage>, x: Stage)
    requires Complete(s, ss) && x in ss
    ensures TakenBy(OwnSlug(s), Names(ss), x.base) == TakenFor(Names(ss), x.base)
  {
    if OwnStage(s, AllNames(s), x) {
      BallBaseOnce(s, ss, x.base);
    } else {
      var i := BlockOf(s, |s.f.items|, x);
      BlockStageOnce(s, ss, i, x);
    }
  }

  lemma {:induction false} BackwardHere(s: Site, ss: seq<Stage>)
    requires Complete(s, ss)
    ensures Backward(OwnSlug(s), Names(ss), ss)
  {
    forall i | 0 <= i < |ss| && ss[i].base in Declared(ss[..i])
      ensures TakenBy(OwnSlug(s), Names(ss), ss[i].base) in Declared(ss[..i])
    {
      BasesOnce(s, ss, ss[i]);
      TakenBefore(ss, i, ss[i].base);
      DeclaredIff(ss[..i], TakenFor(Names(ss), ss[i].base));
    }
  }

  /** The names of a file are apart at every level of the tree. */
  lemma {:induction false} NamesApartHere(s: Site, ss: seq<Stage>)
    requires Complete(s, ss)
    ensures NamesApart(OwnSlug(s), ss) && Uniform(ss)
  {
    AllKnown(s);
    CleanHere(s, |s.f.items|, Names(ss));
    BackwardHere(s, ss);
    SyntaxUniform(s, |s.f.items|, AllNames(s), ss);
    forall r, m | r in Free(ss) && m in Declared(ss) ensures !(m <= r) && r != ScopedName(OwnSlug(s), m) {
      ExternalBaseOnce(s, |s.f.items|, AllNames(s), Names(ss), r);
      DeclaredIff(ss, m);
      assert OwnSlug(s) <= ScopedName(OwnSlug(s), m) && !(OwnSlug(s) <= r);
    }
  }

  // Which stages scoping cannot confuse

  /** The names that the file's own stages can depend on. */
  ghost predicate LiveName(s: Site, own: seq<string>, name: string) {
    name in own || exists i: nat :: UsedAt(s, i) && name in Declared(Live(s, i))
  }

  ghost function LiveNames(s: Site, own: seq<string>, ss: seq<Stage>): set<string> {
    set name | name in Declared(ss) && LiveName(s, own, name)
  }

  lemma {:induction false} LiveNameOwned(s: Site, i: nat, name: string) returns (y: Stage)
    requires SiteOk(s) && UsedAt(s, i) && name in Declared(Live(s, i))
    ensures y in Live(s, i) && y in Block(s, i) && y.alias == Some(name) && Owned(s.w, RefAt(s, i), name)
  {
    DeclaredIff(Live(s, i), name);
    y :| y in Live(s, i) && y.alias == Some(name);
    LiveMember(s, i, y);
    DeclaredIff(Block(s, i), name);
    BlockNameOwned(s, i, name);
  }

  /** A stage that was brought in with a live name is one of those its alias can depend on. */
  lemma {:induction false} LiveStage(s: Site, n: nat, own: seq<string>, x: Stage) returns (i: nat)
    requires SiteOk(s) && FromBlock(s, n, x) && Known(s, own) && x.alias.Some? && LiveName(s, own, x.alias.value)
    ensures i < n && UsedAt(s, i) && x in Live(s, i)
  {
    BlockNotOwn(s, n, x, own);
    i := BlockOf(s, n, x);
    var j: nat :| UsedAt(s, j) && x.alias.value in Declared(Live(s, j));
    var y := LiveNameOwned(s, j, x.alias.value);
    NamesOfFilesApart(s, j, i, x.alias.value, x.alias.value);
    SameBlock(s, j, i);
    assert BlockOk(s.w, s.ext, RefAt(s, i), Block(s, i));
  }

  /** What a live stage of another file refers to is live. */
  lemma {:induction false} LiveRefs(s: Site, own: seq<string>, i: nat, x: Stage, r: string)
    requires SiteOk(s) && UsedAt(s, i) && x in Live(s, i) && r in Refs(x) && r !in s.ext
    ensures LiveName(s, own, r)
  {
    UptoPrefix(Block(s, i), AliasAt(s, i));
    RefsOfMember(Live(s, i), x);
    assert BlockOk(s.w, s.ext, RefAt(s, i), Block(s, i));
  }

  /** A live stage is built on a base that the loop takes for itself. */
  lemma {:induction false} LiveStageBase(s: Site, ss: seq<Stage>, x: Stage)
    requires Complete(s, ss) && x in ss && x.alias.Some? && LiveName(s, AllNames(s), x.alias.value)
    ensures TakenRight(OwnSlug(s), Names(ss), x.base)
  {
    if OwnStage(s, AllNames(s), x) {
      BallBaseOnce(s, ss, x.base);
    } else {
      AllKnown(s);
      var i := LiveStage(s, |s.f.items|, AllNames(s), x);
      BasesOnce(s, ss, x);
      assert LiveBase(s, |s.f.items|, x.base);
      assert OrderedFor(Names(ss), x.base);
    }
  }

  lemma {:induction false} LiveStageRefs(s: Site, ss: seq<Stage>, x: Stage, r: string)
    requires Complete(s, ss) && x in ss && x.alias.Some? && LiveName(s, AllNames(s), x.alias.value)
    requires r in Refs(x) && r in Declared(ss)
    ensures LiveName(s, AllNames(s), r)
  {
    AllKnown(s);
    if r in s.ext {
      DeclaredNotExternal(s, |s.f.items|, AllNames(s), ss, r);
    }
    if OwnStage(s, AllNames(s), x) {
      assert OwnRef(s, r);
    } else {
      var i := LiveStage(s, |s.f.items|, AllNames(s), x);
      LiveRefs(s, AllNames(s), i, x, r);
    }
  }

  /** Every own stage is built on stages only that the scoping loop does not confuse. */
  lemma {:induction false} OwnStageSteady(s: Site, ss: seq<Stage>, k: nat)
    requires Complete(s, ss) && k < |ss| && ss[k].alias.Some? && ss[k].alias.value in AllNames(s)
    ensures SteadyAt(OwnSlug(s), ss, k)
  {
    var live := LiveNames(s, AllNames(s), ss);
    forall x | x in ss && x.alias.Some? && x.alias.value in live
      ensures TakenRight(OwnSlug(s), Names(ss), x.base) && Refs(x) * Declared(ss) <= live
    {
      LiveStageBase(s, ss, x);
      forall r | r in Refs(x) && r in Declared(ss) ensures r in live {
        LiveStageRefs(s, ss, x, r);
      }
    }
    DeclaredIff(ss, ss[k].alias.value);
    assert ss[k].alias.value in live;
  }

  // What the passes return

  /** The stages of an included file after all passes. */
  function Outcome(c: Context, doc: seq<Instr>): seq<Stage> {
    Stages(Deduplicated(Aliased(c, doc)))
  }

  lemma {:induction false} SplitMember(ss: seq<Stage>, k: nat, alias: string, x: Stage)
    requires OnlyAt(ss, k) && x in SplitStage(ss, k, alias)
    ensures x.alias == Some(alias) || exists j :: 0 <= j < |ss| && x.alias == ss[j].alias
  {
    var p := SplitPair(ss[k], alias);
    if x == p[0] {
      assert x.alias == ss[k].alias;
    } else if x != p[1] {
      assert x in ss[..k] || x in ss[k + 1..];
      assert x in ss;
      var j :| 0 <= j < |ss| && ss[j] == x;
    }
  }

  lemma {:induction false} ScopedIs(c: Context, doc: seq<Instr>, k: nat)
    requires Includable(c, doc, k)
    ensures Stages(Scoped(c.prefix, doc)) == ScopedStagesOf(c.prefix, Stages(Defaulted(doc)))
  {
    ScopedFile(c, doc, k);
  }

  /** The name of a stage that comes out is the alias or a prefixed name of the file. */
  lemma {:induction false} OutcomeNames(c: Context, doc: seq<Instr>, k: nat, x: Stage)
    requires Includable(c, doc, k) && x in Outcome(c, doc)
    requires forall y :: y in Stages(Defaulted(doc)) ==> y.alias.Some?
    ensures x.alias == c.alias
            || exists n :: n in Declared(Stages(Defaulted(doc))) && x.alias == Some(ScopedName(c.prefix, n))
  {
    AliasedFile(c, doc, k);
    DeduplicationThins(Aliased(c, doc));
    ThinnedMembers(Stages(Aliased(c, doc)), Outcome(c, doc), x);
    ScopedFile(c, doc, k);
    var d, s := Stages(Defaulted(doc)), Stages(Scoped(c.prefix, doc));
    SplitMember(s, k, c.alias.value, x);
    if j :| 0 <= j < |s| && x.alias == s[j].alias {
      assert d[j] in d;
      DeclaredIff(d, d[j].alias.value);
      assert x.alias == Some(ScopedName(c.prefix, d[j].alias.value));
    }
  }

  lemma {:induction false} OutcomeKeeps(c: Context, doc: seq<Instr>, k: nat)
    requires Includable(c, doc, k)
    ensures Anchored(Deduplicated(Aliased(c, doc)))
    ensures Uniform(Outcome(c, doc))
    ensures Free(Outcome(c, doc)) <= Free(Stages(Defaulted(doc)))
    ensures c.alias.value in Declared(Outcome(c, doc))
  {
    ScopedFile(c, doc, k);
    AliasedFile(c, doc, k);
    var s := Stages(Scoped(c.prefix, doc));
    SplitNames(s, k, c.alias.value);
    DeduplicationThins(Aliased(c, doc));
    ThinnedUniform(Stages(Aliased(c, doc)), Outcome(c, doc));
    ThinnedFree(Stages(Aliased(c, doc)), Outcome(c, doc));
    ThinnedDeclares(Stages(Aliased(c, doc)), Outcome(c, doc));
  }

  lemma {:induction false} OutcomeOwned(w: World, ref: Ref, c: Context, doc: seq<Instr>, k: nat)
    requires Includable(c, doc, k) && ref.path in w.files
    requires c.prefix == w.slug(w.files[ref.path].display) && c.alias == Some(w.slug(ref.aliasBase))
    requires forall y :: y in Stages(Defaulted(doc)) ==> y.alias.Some?
    ensures forall x :: x in Outcome(c, doc) ==> x.alias.Some? && Owned(w, ref, x.alias.value)
  {
    forall x | x in Outcome(c, doc) ensures x.alias.Some? && Owned(w, ref, x.alias.value) {
      OutcomeNames(c, doc, k, x);
      if x.alias != c.alias {
        var n :| n in Declared(Stages(Defaulted(doc))) && x.alias == Some(ScopedName(c.prefix, n));
        assert c.prefix + "--" <= ScopedName(c.prefix, n);
      }
    }
  }

  /** The alias of an included file, and what it is built on, are met in order. */
  lemma {:induction false} OutcomeOrdered(c: Context, doc: seq<Instr>, k: nat)
    requires Includable(c, doc, k)
    requires forall e :: e in Free(Stages(Defaulted(doc))) ==> !(c.prefix <= e) && !(c.alias.value <= e)
    requires c.prefix <= c.alias.value ==> c.prefix == c.alias.value
    requires OrderedFor(Names(Stages(Defaulted(doc))), Stages(Defaulted(doc))[k].alias.value)
    requires forall x :: x in Stages(Defaulted(doc)) ==>
               TakenBy(c.prefix, Names(Stages(Defaulted(doc))), x.base)
               == TakenFor(Names(Stages(Defaulted(doc))), x.base)
    ensures OrderedFor(Names(Outcome(c, doc)), c.alias.value)
    ensures forall x :: x in Upto(Outcome(c, doc), c.alias.value) ==> OrderedFor(Names(Outcome(c, doc)), x.base)
  {
    ScopedFile(c, doc, k);
    ScopedIs(c, doc, k);
    AliasedFile(c, doc, k);
    DeduplicationThins(Aliased(c, doc));
    ThinnedSplitOrdered(c.prefix, c.alias.value, Stages(Defaulted(doc)), k, Outcome(c, doc));
  }

  lemma {:induction false} ThinnedEndsWith(ss: seq<Stage>, t: seq<Stage>, alias: string)
    requires Thinned(ss, t) && EndsWith(ss, alias)
    ensures EndsWith(t, alias)
  {
    var before, x := ss[..|ss| - 1], ss[|ss| - 1];
    DeclaredIff(before, alias);
    assert x !in before;
    ThinnedDeclares(before, t[..|t| - 1]);
  }

  lemma {:induction false} SplitEndsWith(ss: seq<Stage>, alias: string)
    requires ss != [] && OnlyAt(ss, |ss| - 1) && alias !in Declared(ss)
    ensures EndsWith(SplitStage(ss, |ss| - 1, alias), alias)
  {
    var k := |ss| - 1;
    var t, p := SplitStage(ss, k, alias), SplitPair(ss[k], alias);
    assert t[..|t| - 1] == ss[..k] + [p[0]] && t[|t| - 1] == p[1];
    CutAt(ss, k);
    OneStage(p[0]);
    NamesConcat(ss[..k], [p[0]]);
  }

  /** Without a target, what comes out ends with the alias. */
  lemma {:induction false} OutcomeEndsWith(c: Context, doc: seq<Instr>, k: nat)
    requires Includable(c, doc, k) && !IsTarget(c.target)
    ensures EndsWith(Outcome(c, doc), c.alias.value)
  {
    ScopedFile(c, doc, k);
    AliasedFile(c, doc, k);
    SplitEndsWith(Stages(Scoped(c.prefix, doc)), c.alias.value);
    DeduplicationThins(Aliased(c, doc));
    ThinnedEndsWith(Stages(Aliased(c, doc)), Outcome(c, doc), c.alias.value);
  }

  /** The alias line, among what comes out. */
  lemma {:induction false} AliasStageOut(c: Context, doc: seq<Instr>, k: nat)
    requires Includable(c, doc, k)
    ensures var u := Stages(Defaulted(doc))[k].alias.value;
            exists x :: x in Outcome(c, doc) && x.alias == c.alias && x.base == ScopedName(c.prefix, u)
  {
    ScopedFile(c, doc, k);
    AliasedFile(c, doc, k);
    DeduplicationThins(Aliased(c, doc));
    var d, s := Stages(Defaulted(doc)), Stages(Scoped(c.prefix, doc));
    DeclaredIff(d, d[k].alias.value);
    var x := SplitStage(s, k, c.alias.value)[k + 1];
    ThinnedMembers(Stages(Aliased(c, doc)), Outcome(c, doc), x);
  }

  /** The including file's loop takes the base of the alias line for itself exactly if the wanted
      name is met in order in the included file. */
  lemma {:induction false} NestedTargetExact(c: Context, doc: seq<Instr>, k: nat)
    requires Includable(c, doc, k)
    ensures var u := Stages(Defaulted(doc))[k].alias.value;
            && (exists x :: x in Outcome(c, doc) && x.alias == c.alias && x.base == ScopedName(c.prefix, u))
            && (OrderedFor(Names(Outcome(c, doc)), ScopedName(c.prefix, u))
               <==> OrderedFor(Names(Stages(Defaulted(doc))), u))
  {
    ScopedFile(c, doc, k);
    ScopedIs(c, doc, k);
    AliasedFile(c, doc, k);
    DeduplicationThins(Aliased(c, doc));
    AliasBaseExact(c.prefix, c.alias.value, Stages(Defaulted(doc)), k, Outcome(c, doc));
    AliasStageOut(c, doc, k);
  }
}
