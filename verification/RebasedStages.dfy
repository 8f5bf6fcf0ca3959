/** What the `startsWith` test of src/core/scopeStages.js does to stages. A base that is met too
    early by a name that starts it becomes another stage's name; the stages that do not depend on
    such a base keep their images. */
module RebasedStages {
  import opened Dockerfile
  import opened Renaming
  import opened ScopeStages

  function RebaseStage(prefix: string, names: seq<string>, s: Stage): Stage {
    s.(base := TakenBy(prefix, names, s.base))
  }

  function Rebased(prefix: string, names: seq<string>, stages: seq<Stage>): seq<Stage> {
    seq(|stages|, i requires 0 <= i < |stages| => RebaseStage(prefix, names, stages[i]))
  }

  lemma {:induction false} RebasedSnoc(prefix: string, names: seq<string>, stages: seq<Stage>)
    requires stages != []
    ensures Rebased(prefix, names, stages)[..|stages| - 1] == Rebased(prefix, names, stages[..|stages| - 1])
    ensures Rebased(prefix, names, stages)
         == Rebased(prefix, names, stages[..|stages| - 1]) + [RebaseStage(prefix, names, stages[|stages| - 1])]
  {
  }

  lemma {:induction false} ExtendRebased(prefix: string, names: seq<string>, stages: seq<Stage>, i: Instr)
    requires stages != []
    ensures Rebased(prefix, names, Extend(stages, [i])) == Extend(Rebased(prefix, names, stages), [i])
  {
  }

  lemma {:induction false} RebasedDocSnoc(prefix: string, names: seq<string>, doc: seq<Instr>)
    requires doc != []
    ensures RebasedDoc(prefix, names, doc)
            == RebasedDoc(prefix, names, doc[..|doc| - 1]) + [RebaseInstr(prefix, names, doc[|doc| - 1])]
  {
  }

  lemma {:induction false} StagesOfRebased(prefix: string, names: seq<string>, doc: seq<Instr>)
    ensures Stages(RebasedDoc(prefix, names, doc)) == Rebased(prefix, names, Stages(doc))
    ensures Anchored(RebasedDoc(prefix, names, doc)) == Anchored(doc)
  {
    if doc != [] {
      var doc', i := doc[..|doc| - 1], doc[|doc| - 1];
      StagesOfRebased(prefix, names, doc');
      RebasedDocSnoc(prefix, names, doc);
      StagesSnoc(RebasedDoc(prefix, names, doc'), RebaseInstr(prefix, names, i));
      var before := Stages(doc');
      if i.From? {
        RebasedSnoc(prefix, names, Stages(doc));
        assert Stages(doc)[..|before|] == before;
      } else if !NoOp(i) && before != [] {
        ExtendRebased(prefix, names, before, i);
      }
    }
  }

  lemma {:induction false} RebasedNames(prefix: string, names: seq<string>, stages: seq<Stage>)
    ensures Names(Rebased(prefix, names, stages)) == Names(stages)
    ensures Declared(Rebased(prefix, names, stages)) == Declared(stages)
  {
    if stages != [] {
      RebasedSnoc(prefix, names, stages);
      RebasedNames(prefix, names, stages[..|stages| - 1]);
    }
  }

  lemma {:induction false} RebasedUniform(prefix: string, names: seq<string>, stages: seq<Stage>)
    requires Uniform(stages)
    ensures Uniform(Rebased(prefix, names, stages))
  {
    var t := Rebased(prefix, names, stages);
    forall x, y | x in t && y in t && x.alias.Some? && x.alias == y.alias ensures x == y {
      var i :| 0 <= i < |t| && t[i] == x;
      var j :| 0 <= j < |t| && t[j] == y;
      assert stages[i] == stages[j];
    }
  }

  lemma {:induction false} StartDeclared(before: seq<string>, more: seq<string>, b: string)
    requires b in before
    ensures TakenFor(before + more, b) in before
  {
    FirstStartOf(before, b);
    FirstStartConcat(before, more, b);
  }

  /** No base with an earlier stage is taken for a stage that comes later. */
  ghost predicate Backward(prefix: string, names: seq<string>, stages: seq<Stage>) {
    forall i :: 0 <= i < |stages| && stages[i].base in Declared(stages[..i]) ==>
      TakenBy(prefix, names, stages[i].base) in Declared(stages[..i])
  }

  lemma {:induction false} FirstIsBackward(prefix: string, stages: seq<Stage>)
    requires forall n :: n in Names(stages) ==> !(n <= prefix)
    ensures Backward(prefix, Names(stages), stages)
  {
    forall i | 0 <= i < |stages| && stages[i].base in Declared(stages[..i])
      ensures TakenBy(prefix, Names(stages), stages[i].base) in Declared(stages[..i])
    {
      var b := stages[i].base;
      assert stages == stages[..i] + stages[i..];
      NamesConcat(stages[..i], stages[i..]);
      TakenFirst(prefix, Names(stages), b);
      DeclaredIff(stages[..i], b);
      StartDeclared(Names(stages[..i]), Names(stages[i..]), b);
      DeclaredIff(stages[..i], TakenFor(Names(stages), b));
    }
  }

  lemma {:induction false} BackwardBefore(prefix: string, names: seq<string>, before: seq<Stage>, x: Stage)
    requires Backward(prefix, names, before + [x])
    ensures Backward(prefix, names, before)
    ensures x.base in Declared(before) ==> TakenBy(prefix, names, x.base) in Declared(before)
  {
    var stages := before + [x];
    assert stages[..|before|] == before && stages[|before|] == x;
    forall i | 0 <= i < |before| && before[i].base in Declared(before[..i])
      ensures TakenBy(prefix, names, before[i].base) in Declared(before[..i])
    {
      assert stages[i] == before[i] && stages[..i] == before[..i];
    }
  }

  /** So no reference becomes external. */
  lemma {:induction false} RebasedFree(prefix: string, names: seq<string>, stages: seq<Stage>)
    requires Backward(prefix, names, stages)
    requires forall r, n :: r in Free(stages) && n in names ==> !(n <= r)
    ensures Free(Rebased(prefix, names, stages)) <= Free(stages)
    decreases |stages|
  {
    if stages != [] {
      var before, x := stages[..|stages| - 1], stages[|stages| - 1];
      RebasedSnoc(prefix, names, stages);
      SnocDecls(stages);
      BackwardBefore(prefix, names, before, x);
      RebasedFree(prefix, names, before);
      RebasedNames(prefix, names, before);
      if x.base !in Declared(before) {
        assert x.base in Free(stages);
        TakenOf(prefix, names, x.base);
      }
    }
  }

  // Which images stay

  /** The live names refer to live names and external images only, and the loop takes
      their bases for themselves. */
  ghost predicate Steady(prefix: string, names: seq<string>, stages: seq<Stage>, live: set<string>) {
    forall x :: x in stages && x.alias.Some? && x.alias.value in live ==>
      TakenRight(prefix, names, x.base) && Refs(x) * Declared(stages) <= live
  }

  lemma {:induction false} SteadyBefore(prefix: string, names: seq<string>, before: seq<Stage>, x: Stage,
                                        live: set<string>)
    requires Steady(prefix, names, before + [x], live)
    ensures Steady(prefix, names, before, live)
    ensures x.alias.Some? && x.alias.value in live ==>
              TakenBy(prefix, names, x.base) == x.base && Refs(x) * Declared(before) <= live
  {
    NamesConcat(before, [x]);
    assert x in before + [x];
    assert forall y :: y in before ==> y in before + [x];
  }

  lemma {:induction false} SteadyImages(prefix: string, names: seq<string>, stages: seq<Stage>, live: set<string>)
    requires Steady(prefix, names, stages, live)
    ensures forall n :: n in live ==>
              Resolve(EnvOf(map[], Rebased(prefix, names, stages)), n) == Resolve(EnvOf(map[], stages), n)
  {
    if stages != [] {
      var before, x := stages[..|stages| - 1], stages[|stages| - 1];
      assert stages == before + [x];
      SteadyBefore(prefix, names, before, x, live);
      SteadyImages(prefix, names, before, live);
      RebasedSnoc(prefix, names, stages);
      if x.alias.Some? && x.alias.value in live {
        SteadyStage(prefix, names, before, x, live);
      }
    }
  }

  lemma {:induction false} SteadyStage(prefix: string, names: seq<string>, before: seq<Stage>, x: Stage,
                                       live: set<string>)
    requires Refs(x) * Declared(before) <= live
    requires forall n :: n in live ==>
               Resolve(EnvOf(map[], Rebased(prefix, names, before)), n) == Resolve(EnvOf(map[], before), n)
    ensures ImageOf(EnvOf(map[], Rebased(prefix, names, before)), x) == ImageOf(EnvOf(map[], before), x)
  {
    var d, e := EnvOf(map[], before), EnvOf(map[], Rebased(prefix, names, before));
    RebasedNames(prefix, names, before);
    forall r | r in Refs(x) ensures Resolve(e, r) == Resolve(d, r) {
      EnvFrame(map[], before, r);
      EnvFrame(map[], Rebased(prefix, names, before), r);
    }
    ImageAgree(d, e, x);
  }

  // The pass on any order of names

  /** The names of the file are told apart from the prefixed ones and from its external
      references, and no base is taken for a later stage. */
  ghost predicate NamesApart(prefix: string, stages: seq<Stage>) {
    && Clean(prefix, Names(stages)) && Backward(prefix, Names(stages), stages)
    && (forall r, n :: r in Free(stages) && n in Declared(stages) ==> !(n <= r) && r != ScopedName(prefix, n))
  }

  lemma {:induction false} ApartScoped(prefix: string, d: seq<Stage>)
    requires NamesApart(prefix, d)
    ensures WellScoped(d) && forall r, n :: r in Free(d) && n in Names(d) ==> !(n <= r)
  {
    forall r, n | r in Free(d) && n in Names(d) ensures !(n <= r) {
      DeclaredIff(d, n);
    }
    forall n | n in Declared(d) ensures n !in Free(d) {
      assert n <= n;
    }
  }

  lemma {:induction false} RebasedCaptureFree(prefix: string, d: seq<Stage>, e: seq<Stage>)
    requires NamesApart(prefix, d) && WellScoped(d)
    requires Names(e) == Names(d) && Declared(e) == Declared(d) && Free(e) <= Free(d)
    ensures WellScoped(e) && CaptureFree(ScopeRenaming(prefix, Names(d)), e)
  {
    ScopeRenamingCaptureFree(prefix, e);
  }

  lemma {:induction false} RebasedApart(prefix: string, d: seq<Stage>)
    requires NamesApart(prefix, d)
    ensures var e := Rebased(prefix, Names(d), d);
            && Names(e) == Names(d) && Declared(e) == Declared(d) && Free(e) <= Free(d)
            && WellScoped(d) && WellScoped(e) && CaptureFree(ScopeRenaming(prefix, Names(d)), e)
  {
    var e := Rebased(prefix, Names(d), d);
    ApartScoped(prefix, d);
    RebasedFree(prefix, Names(d), d);
    RebasedNames(prefix, Names(d), d);
    RebasedCaptureFree(prefix, d, e);
  }

  /** Scoping as an operation on stages. */
  lemma {:induction false} ScopedStages(prefix: string, doc: seq<Instr>)
    requires NamesApart(prefix, Stages(Defaulted(doc)))
    ensures var d := Stages(Defaulted(doc));
            var e, rho := Rebased(prefix, Names(d), d), ScopeRenaming(prefix, Names(d));
            && Stages(Scoped(prefix, doc)) == RenameStages(rho, e)
            && Anchored(Scoped(prefix, doc)) == Anchored(Defaulted(doc))
            && Names(e) == Names(d) && Declared(e) == Declared(d) && Free(e) <= Free(d)
            && WellScoped(d) && WellScoped(e) && CaptureFree(rho, e)
  {
    var dd := Defaulted(doc);
    var d := Stages(dd);
    var names := Names(d);
    var rho := ScopeRenaming(prefix, names);
    StageNamesAreNames(dd);
    ScopingRebases(prefix, doc);
    StagesOfRenamed(rho, RebasedDoc(prefix, names, dd));
    StagesOfRebased(prefix, names, dd);
    RebasedApart(prefix, d);
  }

  /** On every document scoping keeps the images of the live names under their prefixed names. */
  lemma {:induction false} ScopingKeepsLiveMeaning(prefix: string, doc: seq<Instr>, live: set<string>)
    requires NamesApart(prefix, Stages(Defaulted(doc)))
    requires Steady(prefix, Names(Stages(Defaulted(doc))), Stages(Defaulted(doc)), live)
    ensures var before, after := Stages(Defaulted(doc)), Stages(Scoped(prefix, doc));
            && |after| == |before|
            && forall n :: n in live && n in Declared(before) ==>
                 Resolve(EnvOf(map[], after), ScopedName(prefix, n)) == Resolve(EnvOf(map[], before), n)
  {
    var d := Stages(Defaulted(doc));
    var names := Names(d);
    ScopedStages(prefix, doc);
    RenamingKeepsMeaning(ScopeRenaming(prefix, names), Rebased(prefix, names, d));
    SteadyImages(prefix, names, d, live);
    forall n | n in Declared(d) ensures Apply(ScopeRenaming(prefix, names), n) == ScopedName(prefix, n) {
      DeclaredIff(d, n);
    }
  }
}
