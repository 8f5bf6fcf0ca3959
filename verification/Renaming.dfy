/** Renaming stages. A renaming that confuses no two names of a document and leaves its
    external references alone changes no image. */
module Renaming {
  import opened Dockerfile

  type Renaming = map<string, string>

  function Apply(rho: Renaming, n: string): string {
    if n in rho then rho[n] else n
  }

  function ApplyOption(rho: Renaming, n: Option<string>): Option<string> {
    if n.Some? then Some(Apply(rho, n.value)) else None
  }

  function RenameInstr(rho: Renaming, i: Instr): Instr {
    match i
    case From(base, alias) => From(Apply(rho, base), ApplyOption(rho, alias))
    case Copy(verb, from, rest) => Copy(verb, ApplyOption(rho, from), rest)
    case Run(mount, command) => Run(ApplyOption(rho, mount), command)
    case _ => i
  }

  function Rename(rho: Renaming, doc: seq<Instr>): seq<Instr> {
    seq(|doc|, i requires 0 <= i < |doc| => RenameInstr(rho, doc[i]))
  }

  function RenameStage(rho: Renaming, s: Stage): Stage {
    Stage(Apply(rho, s.base), ApplyOption(rho, s.alias), Rename(rho, s.body))
  }

  function RenameStages(rho: Renaming, stages: seq<Stage>): seq<Stage> {
    seq(|stages|, i requires 0 <= i < |stages| => RenameStage(rho, stages[i]))
  }

  lemma {:induction false} RenameSnoc(rho: Renaming, doc: seq<Instr>)
    requires doc != []
    ensures Rename(rho, doc)[..|doc| - 1] == Rename(rho, doc[..|doc| - 1])
    ensures Rename(rho, doc) == Rename(rho, doc[..|doc| - 1]) + [RenameInstr(rho, doc[|doc| - 1])]
  {
  }

  lemma {:induction false} RenameStagesSnoc(rho: Renaming, stages: seq<Stage>)
    requires stages != []
    ensures RenameStages(rho, stages)[..|stages| - 1] == RenameStages(rho, stages[..|stages| - 1])
    ensures RenameStages(rho, stages)
         == RenameStages(rho, stages[..|stages| - 1]) + [RenameStage(rho, stages[|stages| - 1])]
  {
  }

  ghost predicate InjectiveOn(rho: Renaming, names: set<string>) {
    forall x, y :: x in names && y in names && Apply(rho, x) == Apply(rho, y) ==> x == y
  }

  /** The renaming merges no two names of the document and moves no external reference. */
  ghost predicate CaptureFree(rho: Renaming, stages: seq<Stage>) {
    && InjectiveOn(rho, Free(stages) + Declared(stages))
    && forall r :: r in Free(stages) ==> Apply(rho, r) == r
  }

  lemma {:induction false} ExtendRenamed(rho: Renaming, stages: seq<Stage>, i: Instr)
    requires stages != []
    ensures RenameStages(rho, Extend(stages, [i])) == Extend(RenameStages(rho, stages), [RenameInstr(rho, i)])
  {
    var last := stages[|stages| - 1];
    assert Rename(rho, last.body + [i]) == Rename(rho, last.body) + [RenameInstr(rho, i)];
  }

  /** Renaming commutes with splitting into stages. */
  lemma {:induction false} StageAdded(rho: Renaming, before: seq<Stage>, i: Instr)
    requires i.From?
    ensures RenameStages(rho, before + [Stage(i.base, i.alias, [])])
            == RenameStages(rho, before) + [Stage(Apply(rho, i.base), ApplyOption(rho, i.alias), [])]
  {
    var after := before + [Stage(i.base, i.alias, [])];
    assert after[..|before|] == before && Rename(rho, []) == [];
    RenameStagesSnoc(rho, after);
  }

  lemma {:induction false} RenamedKind(rho: Renaming, i: Instr)
    ensures RenameInstr(rho, i).From? == i.From? && NoOp(RenameInstr(rho, i)) == NoOp(i)
    ensures i.From? ==> RenameInstr(rho, i) == From(Apply(rho, i.base), ApplyOption(rho, i.alias))
  {
  }

  lemma {:induction false} RenamedMore(rho: Renaming, doc: seq<Instr>, i: Instr, a: seq<Instr>, j: Instr)
    requires Stages(a) == RenameStages(rho, Stages(doc)) && Anchored(a) == Anchored(doc) && j == RenameInstr(rho, i)
    ensures Stages(a + [j]) == RenameStages(rho, Stages(doc + [i])) && Anchored(a + [j]) == Anchored(doc + [i])
  {
    StagesSnoc(doc, i);
    StagesSnoc(a, j);
    RenamedKind(rho, i);
    if i.From? {
      StageAdded(rho, Stages(doc), i);
    } else if !NoOp(i) && Stages(doc) != [] {
      ExtendRenamed(rho, Stages(doc), i);
    }
  }

  lemma {:induction false} StagesOfRenamed(rho: Renaming, doc: seq<Instr>)
    ensures Stages(Rename(rho, doc)) == RenameStages(rho, Stages(doc))
    ensures Anchored(Rename(rho, doc)) == Anchored(doc)
  {
    if doc != [] {
      var before, i := doc[..|doc| - 1], doc[|doc| - 1];
      assert doc == before + [i];
      StagesOfRenamed(rho, before);
      RenameSnoc(rho, doc);
      RenamedMore(rho, before, i, Rename(rho, before), RenameInstr(rho, i));
    }
  }

  lemma {:induction false} NamesOfRenamed(rho: Renaming, stages: seq<Stage>)
    ensures |Names(RenameStages(rho, stages))| == |Names(stages)|
    ensures forall i :: 0 <= i < |Names(stages)| ==> Names(RenameStages(rho, stages))[i] == Apply(rho, Names(stages)[i])
  {
    if stages != [] {
      var before := stages[..|stages| - 1];
      NamesOfRenamed(rho, before);
      assert RenameStages(rho, stages)[..|stages| - 1] == RenameStages(rho, before);
    }
  }

  lemma {:induction false} LayersRenamed(rho: Renaming, e: Env, e': Env, i: Instr)
    requires RefOf(i).Some? ==> Resolve(e', Apply(rho, RefOf(i).value)) == Resolve(e, RefOf(i).value)
    ensures LayersOf(e', RenameInstr(rho, i)) == LayersOf(e, i)
  {
  }

  ghost predicate Agree(rho: Renaming, names: set<string>, e: Env, e': Env) {
    forall n :: n in names ==> Resolve(e', Apply(rho, n)) == Resolve(e, n)
  }

  lemma {:induction false} BuildRenamed(rho: Renaming, e: Env, e': Env, base: Image, body: seq<Instr>)
    requires Agree(rho, BodyRefs(body), e, e')
    ensures Build(e', base, Rename(rho, body)) == Build(e, base, body)
  {
    if body != [] {
      var before, i := body[..|body| - 1], body[|body| - 1];
      BuildRenamed(rho, e, e', base, before);
      RenameSnoc(rho, body);
      LayersRenamed(rho, e, e', i);
    }
  }

  lemma {:induction false} RenamedFrame(rho: Renaming, stages: seq<Stage>, e: Env, r: string)
    requires r !in Declared(stages) && InjectiveOn(rho, {r} + Declared(stages))
    ensures Resolve(EnvOf(e, RenameStages(rho, stages)), Apply(rho, r)) == Resolve(e, Apply(rho, r))
  {
    NamesOfRenamed(rho, stages);
    var renamed := RenameStages(rho, stages);
    DeclaredIff(renamed, Apply(rho, r));
    if Apply(rho, r) in Names(renamed) {
      var i :| 0 <= i < |Names(renamed)| && Names(renamed)[i] == Apply(rho, r);
      DeclaredIff(stages, Names(stages)[i]);
    }
    EnvFrame(e, renamed, Apply(rho, r));
  }

  /** The image of one stage after related environments. */
  lemma {:induction false} StageRenamed(rho: Renaming, before: seq<Stage>, s: Stage, e: Env, e': Env)
    requires InjectiveOn(rho, Free(before + [s]) + Declared(before))
    requires Agree(rho, Free(before + [s]), e, e')
    requires Agree(rho, Free(before) + Declared(before), EnvOf(e, before), EnvOf(e', RenameStages(rho, before)))
    ensures Free(before + [s]) == Free(before) + (Refs(s) - Declared(before))
    ensures Agree(rho, Free(before + [s]) + Declared(before), EnvOf(e, before), EnvOf(e', RenameStages(rho, before)))
    ensures ImageOf(EnvOf(e', RenameStages(rho, before)), RenameStage(rho, s)) == ImageOf(EnvOf(e, before), s)
  {
    assert (before + [s])[..|before|] == before;
    var f, f' := EnvOf(e, before), EnvOf(e', RenameStages(rho, before));
    forall r | r in Refs(s) && r !in Declared(before)
      ensures Resolve(f', Apply(rho, r)) == Resolve(f, r)
    {
      EnvFrame(e, before, r);
      RenamedFrame(rho, before, e', r);
    }
    BuildRenamed(rho, f, f', Resolve(f, s.base), s.body);
  }

  lemma {:induction false} AgreeUpdate(rho: Renaming, names: set<string>, e: Env, e': Env, n: string, img: Image)
    requires Agree(rho, names, e, e') && InjectiveOn(rho, names + {n})
    ensures Agree(rho, names + {n}, e[n := img], e'[Apply(rho, n) := img])
  {
  }

  lemma {:induction false} SnocDecls(stages: seq<Stage>)
    requires stages != []
    ensures stages == stages[..|stages| - 1] + [stages[|stages| - 1]]
    ensures var s := stages[|stages| - 1];
            Declared(stages) == Declared(stages[..|stages| - 1]) + (if s.alias.Some? then {s.alias.value} else {})
    ensures Free(stages[..|stages| - 1]) <= Free(stages)
  {
  }

  /** The general lemma: related environments and a renaming that is injective on the names
      involved give related environments. With the identity renaming it says that a document
      may be placed after others that leave its external references alone. */
  lemma {:induction false} EnvRenamed(rho: Renaming, stages: seq<Stage>, e: Env, e': Env)
    requires InjectiveOn(rho, Free(stages) + Declared(stages))
    requires Agree(rho, Free(stages), e, e')
    ensures Agree(rho, Free(stages) + Declared(stages), EnvOf(e, stages), EnvOf(e', RenameStages(rho, stages)))
  {
    if stages != [] {
      var before, s := stages[..|stages| - 1], stages[|stages| - 1];
      SnocDecls(stages);
      EnvRenamed(rho, before, e, e');
      StageRenamed(rho, before, s, e, e');
      RenameStagesSnoc(rho, stages);
      if s.alias.Some? {
        var f, f' := EnvOf(e, before), EnvOf(e', RenameStages(rho, before));
        AgreeUpdate(rho, Free(stages) + Declared(before), f, f', s.alias.value, ImageOf(f, s));
      }
    }
  }

  /** Meaning is invariant under injective, capture-free renaming: every declared name keeps
      its image, and so does the document. */
  lemma {:induction false} RenamingKeepsMeaning(rho: Renaming, stages: seq<Stage>)
    requires CaptureFree(rho, stages)
    ensures forall n :: n in Declared(stages) ==>
              Resolve(EnvOf(map[], RenameStages(rho, stages)), Apply(rho, n)) == Resolve(EnvOf(map[], stages), n)
    ensures stages != [] ==> LastImage(map[], RenameStages(rho, stages)) == LastImage(map[], stages)
  {
    EnvRenamed(rho, stages, map[], map[]);
    if stages != [] {
      var before, s := stages[..|stages| - 1], stages[|stages| - 1];
      SnocDecls(stages);
      EnvRenamed(rho, before, map[], map[]);
      StageRenamed(rho, before, s, map[], map[]);
      RenameStagesSnoc(rho, stages);
    }
  }

  // What a capture-free renaming keeps

  lemma {:induction false} RenamedDeclares(rho: Renaming, stages: seq<Stage>, n: string)
    ensures n in Declared(stages) ==> Apply(rho, n) in Declared(RenameStages(rho, stages))
    ensures n in Declared(RenameStages(rho, stages)) ==> exists m :: m in Declared(stages) && Apply(rho, m) == n
  {
    if stages != [] {
      SnocDecls(stages);
      RenameStagesSnoc(rho, stages);
      SnocDecls(RenameStages(rho, stages));
      RenamedDeclares(rho, stages[..|stages| - 1], n);
    }
  }

  lemma {:induction false} RenamedRefs(rho: Renaming, body: seq<Instr>, r: string)
    requires r in BodyRefs(Rename(rho, body))
    ensures exists q :: q in BodyRefs(body) && Apply(rho, q) == r
  {
    if body != [] {
      RenameSnoc(rho, body);
      if r in BodyRefs(Rename(rho, body[..|body| - 1])) {
        RenamedRefs(rho, body[..|body| - 1], r);
      } else {
        assert RefOf(body[|body| - 1]).Some?;
      }
    }
  }

  lemma {:induction false} RenamedFree(rho: Renaming, stages: seq<Stage>, free: set<string>)
    requires Free(stages) <= free && forall r :: r in free ==> Apply(rho, r) == r
    ensures Free(RenameStages(rho, stages)) <= free
  {
    if stages != [] {
      var before, s := stages[..|stages| - 1], stages[|stages| - 1];
      RenameStagesSnoc(rho, stages);
      RenamedFree(rho, before, free);
      forall r | r in Refs(RenameStage(rho, s)) && r !in Declared(RenameStages(rho, before))
        ensures r in free
      {
        var q := s.base;
        if r != Apply(rho, s.base) {
          RenamedRefs(rho, s.body, r);
          q :| q in BodyRefs(s.body) && Apply(rho, q) == r;
        }
        RenamedDeclares(rho, before, q);
      }
    }
  }

  lemma {:induction false} RenamedUniform(rho: Renaming, stages: seq<Stage>)
    requires Uniform(stages) && InjectiveOn(rho, Declared(stages))
    ensures Uniform(RenameStages(rho, stages))
  {
    var t := RenameStages(rho, stages);
    forall x, y | x in t && y in t && x.alias.Some? && x.alias == y.alias ensures x == y {
      var i :| 0 <= i < |t| && t[i] == x;
      var j :| 0 <= j < |t| && t[j] == y;
      DeclaredIff(stages, stages[i].alias.value);
      DeclaredIff(stages, stages[j].alias.value);
    }
  }
}
