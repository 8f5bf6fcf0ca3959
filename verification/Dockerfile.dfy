/** Parsed Dockerfiles and what a flat multi-stage Dockerfile builds.

    A document is the sequence of its instructions. `Stages` drops the lines that build
    nothing (ARG and comments) and splits the rest at FROM; every meaning below is a meaning
    of that list of stages. */
module Dockerfile {

  datatype Option<+T> = None | Some(value: T)

  datatype Verb = COPY | ADD

  datatype Instr =
    | From(base: string, alias: Option<string>)
    | Copy(verb: Verb, from: Option<string>, rest: string)
    | Run(mount: Option<string>, command: string)
    | Arg(words: seq<string>)
    | Comment(text: string)
    | Other(text: string)

  /** Lines that add nothing to an image. */
  predicate NoOp(i: Instr) {
    i.Arg? || i.Comment?
  }

  datatype Stage = Stage(base: string, alias: Option<string>, body: seq<Instr>)

  /** The last stage with more instructions at its end. */
  function Extend(stages: seq<Stage>, body: seq<Instr>): seq<Stage>
    requires stages != []
  {
    var last := stages[|stages| - 1];
    stages[..|stages| - 1] + [last.(body := last.body + body)]
  }

  function Stages(doc: seq<Instr>): seq<Stage> {
    if doc == [] then
      []
    else
      var before, i := Stages(doc[..|doc| - 1]), doc[|doc| - 1];
      if i.From? then before + [Stage(i.base, i.alias, [])]
      else if NoOp(i) || before == [] then before
      else Extend(before, [i])
  }

  /** No building instruction stands before the first FROM. */
  predicate Anchored(doc: seq<Instr>) {
    doc == [] ||
    (Anchored(doc[..|doc| - 1]) &&
     (doc[|doc| - 1].From? || NoOp(doc[|doc| - 1]) || Stages(doc[..|doc| - 1]) != []))
  }

  predicate FromFree(doc: seq<Instr>) {
    forall i :: 0 <= i < |doc| ==> !doc[i].From?
  }

  function Effective(doc: seq<Instr>): seq<Instr> {
    if doc == [] then []
    else if NoOp(doc[|doc| - 1]) then Effective(doc[..|doc| - 1])
    else Effective(doc[..|doc| - 1]) + [doc[|doc| - 1]]
  }

  lemma {:induction false} StagesSnoc(doc: seq<Instr>, i: Instr)
    ensures Stages(doc + [i]) ==
            if i.From? then Stages(doc) + [Stage(i.base, i.alias, [])]
            else if NoOp(i) || Stages(doc) == [] then Stages(doc)
            else Extend(Stages(doc), [i])
    ensures Anchored(doc + [i]) <==> Anchored(doc) && (i.From? || NoOp(i) || Stages(doc) != [])
  {
    assert (doc + [i])[..|doc|] == doc;
  }

  lemma {:induction false} ExtendConcat(a: seq<Stage>, b: seq<Stage>, body: seq<Instr>)
    requires b != []
    ensures Extend(a + b, body) == a + Extend(b, body)
  {
    assert (a + b)[..|a + b| - 1] == a + b[..|b| - 1];
  }

  lemma {:induction false} StagesConcatSnoc(a: seq<Instr>, b: seq<Instr>, i: Instr)
    requires Stages(a + b) == Stages(a) + Stages(b)
    requires i.From? || NoOp(i) || Stages(b) != []
    ensures Stages(a + b + [i]) == Stages(a) + Stages(b + [i])
  {
    StagesSnoc(a + b, i);
    StagesSnoc(b, i);
    if i.From? {
      var s := Stage(i.base, i.alias, []);
      assert (Stages(a) + Stages(b)) + [s] == Stages(a) + (Stages(b) + [s]);
    } else if !NoOp(i) {
      ExtendConcat(Stages(a), Stages(b), [i]);
    }
  }

  lemma {:induction false} StagesConcat(a: seq<Instr>, b: seq<Instr>)
    requires Anchored(b)
    ensures Stages(a + b) == Stages(a) + Stages(b)
  {
    if b == [] {
      assert a + b == a;
    } else {
      var b', i := b[..|b| - 1], b[|b| - 1];
      StagesConcat(a, b');
      StagesConcatSnoc(a, b', i);
      assert b == b' + [i] && a + b == a + b' + [i];
    }
  }

  lemma {:induction false} AnchoredConcat(a: seq<Instr>, b: seq<Instr>)
    requires Anchored(a) && Anchored(b)
    ensures Anchored(a + b)
  {
    if b == [] {
      assert a + b == a;
    } else {
      var b' := b[..|b| - 1];
      AnchoredConcat(a, b');
      StagesConcat(a, b');
      assert (a + b)[..|a + b| - 1] == a + b';
    }
  }

  lemma {:induction false} ExtendTwice(stages: seq<Stage>, a: seq<Instr>, b: seq<Instr>)
    requires stages != []
    ensures Extend(Extend(stages, a), b) == Extend(stages, a + b)
  {
    var last := stages[|stages| - 1];
    assert last.body + a + b == last.body + (a + b);
  }

  lemma {:induction false} StagesInline(a: seq<Instr>, b: seq<Instr>)
    requires FromFree(b)
    ensures Stages(a + b) == if Stages(a) == [] then [] else Extend(Stages(a), Effective(b))
    ensures Anchored(a) && (Stages(a) != [] || Effective(b) == []) ==> Anchored(a + b)
  {
    if b == [] {
      assert a + b == a;
      if Stages(a) != [] {
        var last := Stages(a)[|Stages(a)| - 1];
        assert last.body + [] == last.body;
      }
    } else {
      var b', i := b[..|b| - 1], b[|b| - 1];
      StagesInline(a, b');
      assert a + b == a + b' + [i];
      StagesSnoc(a + b', i);
      if Stages(a) != [] && !NoOp(i) {
        ExtendTwice(Stages(a), Effective(b'), [i]);
      }
    }
  }

  // What a list of stages builds

  /** An image is an external image with layers on top. */
  datatype Image = Image(root: string, layers: seq<Layer>)

  datatype Layer =
    | Plain(text: string)
    | Local(verb: Verb, rest: string)
    | Executed(command: string)
    | Copied(verb: Verb, source: Image, rest: string)
    | Mounted(source: Image, command: string)

  type Env = map<string, Image>

  /** A reference means the latest earlier stage of that name, else an external image. */
  function Resolve(env: Env, ref: string): Image {
    if ref in env then env[ref] else Image(ref, [])
  }

  function LayersOf(env: Env, i: Instr): seq<Layer> {
    match i
    case From(_, _) => []
    case Arg(_) => []
    case Comment(_) => []
    case Other(text) => [Plain(text)]
    case Copy(verb, None, rest) => [Local(verb, rest)]
    case Copy(verb, Some(ref), rest) => [Copied(verb, Resolve(env, ref), rest)]
    case Run(None, command) => [Executed(command)]
    case Run(Some(ref), command) => [Mounted(Resolve(env, ref), command)]
  }

  function Build(env: Env, base: Image, body: seq<Instr>): Image {
    if body == [] then base
    else
      var below := Build(env, base, body[..|body| - 1]);
      Image(below.root, below.layers + LayersOf(env, body[|body| - 1]))
  }

  function ImageOf(env: Env, s: Stage): Image {
    Build(env, Resolve(env, s.base), s.body)
  }

  /** The named images after building `stages` in order, starting from `env`. */
  function EnvOf(env: Env, stages: seq<Stage>): Env {
    if stages == [] then env
    else
      var before, s := EnvOf(env, stages[..|stages| - 1]), stages[|stages| - 1];
      if s.alias.Some? then before[s.alias.value := ImageOf(before, s)] else before
  }

  /** The image of the last stage: what the whole document builds. */
  function LastImage(env: Env, stages: seq<Stage>): Image
    requires stages != []
  {
    ImageOf(EnvOf(env, stages[..|stages| - 1]), stages[|stages| - 1])
  }

  lemma {:induction false} BuildConcat(env: Env, base: Image, a: seq<Instr>, b: seq<Instr>)
    ensures Build(env, base, a + b) == Build(env, Build(env, base, a), b)
  {
    if b == [] {
      assert a + b == a;
    } else {
      assert (a + b)[..|a + b| - 1] == a + b[..|b| - 1];
      BuildConcat(env, base, a, b[..|b| - 1]);
    }
  }

  /** Every body instruction but ARGs and comments adds one layer, and what is below stays. */
  lemma {:induction false} BuildCounts(env: Env, base: Image, body: seq<Instr>)
    requires FromFree(body)
    ensures var img := Build(env, base, body);
            img.root == base.root && base.layers <= img.layers && |img.layers| == |base.layers| + |Effective(body)|
  {
    if body != [] {
      BuildCounts(env, base, body[..|body| - 1]);
    }
  }

  lemma {:induction false} EnvConcat(env: Env, a: seq<Stage>, b: seq<Stage>)
    ensures EnvOf(env, a + b) == EnvOf(EnvOf(env, a), b)
  {
    if b == [] {
      assert a + b == a;
    } else {
      assert (a + b)[..|a + b| - 1] == a + b[..|b| - 1];
      EnvConcat(env, a, b[..|b| - 1]);
    }
  }

  // Names and references

  ghost predicate Distinct<T(!new)>(xs: seq<T>) {
    forall i, j :: 0 <= i < j < |xs| ==> xs[i] != xs[j]
  }

  function Names(stages: seq<Stage>): seq<string> {
    if stages == [] then []
    else
      var s := stages[|stages| - 1];
      Names(stages[..|stages| - 1]) + (if s.alias.Some? then [s.alias.value] else [])
  }

  function Declared(stages: seq<Stage>): set<string> {
    if stages == [] then {}
    else
      var s := stages[|stages| - 1];
      Declared(stages[..|stages| - 1]) + (if s.alias.Some? then {s.alias.value} else {})
  }

  function RefOf(i: Instr): Option<string> {
    match i
    case Copy(_, from, _) => from
    case Run(mount, _) => mount
    case _ => None
  }

  function BodyRefs(body: seq<Instr>): set<string> {
    if body == [] then {}
    else
      var ref := RefOf(body[|body| - 1]);
      BodyRefs(body[..|body| - 1]) + (if ref.Some? then {ref.value} else {})
  }

  function Refs(s: Stage): set<string> {
    {s.base} + BodyRefs(s.body)
  }

  /** The references that no earlier stage declares: they name external images. */
  function Free(stages: seq<Stage>): set<string> {
    if stages == [] then {}
    else
      var before := stages[..|stages| - 1];
      Free(before) + (Refs(stages[|stages| - 1]) - Declared(before))
  }

  /** Every reference to a declared name comes after a declaration of it. */
  predicate WellScoped(stages: seq<Stage>) {
    Free(stages) !! Declared(stages)
  }

  /** Stages of the same name are the same stage. */
  predicate Uniform(stages: seq<Stage>) {
    forall x, y :: x in stages && y in stages && x.alias.Some? && x.alias == y.alias ==> x == y
  }

  lemma {:induction false} NamesConcat(a: seq<Stage>, b: seq<Stage>)
    ensures Names(a + b) == Names(a) + Names(b)
    ensures Declared(a + b) == Declared(a) + Declared(b)
  {
    if b == [] {
      assert a + b == a;
    } else {
      assert (a + b)[..|a + b| - 1] == a + b[..|b| - 1];
      NamesConcat(a, b[..|b| - 1]);
    }
  }

  lemma {:induction false} FreeConcat(a: seq<Stage>, b: seq<Stage>)
    ensures Free(a + b) == Free(a) + (Free(b) - Declared(a))
  {
    if b == [] {
      assert a + b == a;
    } else {
      assert (a + b)[..|a + b| - 1] == a + b[..|b| - 1];
      FreeConcat(a, b[..|b| - 1]);
      NamesConcat(a, b[..|b| - 1]);
    }
  }

  lemma {:induction false} DeclaredIff(stages: seq<Stage>, n: string)
    ensures n in Declared(stages) <==> n in Names(stages)
    ensures n in Declared(stages) <==> exists s :: s in stages && s.alias == Some(n)
  {
    if stages != [] {
      DeclaredIff(stages[..|stages| - 1], n);
      assert stages == stages[..|stages| - 1] + [stages[|stages| - 1]];
    }
  }

  lemma {:induction false} RefsOfMember(stages: seq<Stage>, s: Stage)
    requires s in stages
    ensures Refs(s) <= Free(stages) + Declared(stages)
  {
    var before, last := stages[..|stages| - 1], stages[|stages| - 1];
    assert stages == before + [last];
    NamesConcat(before, [last]);
    if s in before {
      RefsOfMember(before, s);
    }
  }

  lemma {:induction false} EnvFrame(env: Env, stages: seq<Stage>, n: string)
    ensures n !in Declared(stages) ==>
              (n in EnvOf(env, stages) <==> n in env) && Resolve(EnvOf(env, stages), n) == Resolve(env, n)
    ensures n in Declared(stages) ==> n in EnvOf(env, stages)
  {
    if stages != [] {
      var before, s := stages[..|stages| - 1], stages[|stages| - 1];
      assert stages == before + [s];
      NamesConcat(before, [s]);
      EnvFrame(env, before, n);
    }
  }

  /** An image depends on its environment only through the references of its stage. */
  lemma {:induction false} BuildAgree(e: Env, e': Env, base: Image, body: seq<Instr>)
    requires forall r :: r in BodyRefs(body) ==> Resolve(e', r) == Resolve(e, r)
    ensures Build(e', base, body) == Build(e, base, body)
  {
    if body != [] {
      BuildAgree(e, e', base, body[..|body| - 1]);
    }
  }

  lemma {:induction false} ImageAgree(e: Env, e': Env, s: Stage)
    requires forall r :: r in Refs(s) ==> Resolve(e', r) == Resolve(e, r)
    ensures ImageOf(e', s) == ImageOf(e, s)
  {
    BuildAgree(e, e', Resolve(e, s.base), s.body);
  }

  lemma {:induction false} DeclaredSnoc(doc: seq<Instr>)
    requires doc != []
    ensures var before, i := Stages(doc[..|doc| - 1]), doc[|doc| - 1];
            && Declared(Stages(doc)) == Declared(before) + (if i.From? && i.alias.Some? then {i.alias.value} else {})
            && Free(before) <= Free(Stages(doc))
            && (i.From? ==> i.base in Free(Stages(doc)) + Declared(before))
            && (!i.From? && before != [] && RefOf(i).Some? ==>
                  RefOf(i).value in Free(Stages(doc)) + Declared(before[..|before| - 1]))
  {
    var ss, i := Stages(doc[..|doc| - 1]), doc[|doc| - 1];
    if i.From? {
      assert Stages(doc)[..|ss|] == ss;
    } else if !NoOp(i) && ss != [] {
      ExtendNames(ss, [i]);
      assert [i][..0] == [];
    }
  }

  lemma {:induction false} BodyRefsConcat(a: seq<Instr>, b: seq<Instr>)
    ensures BodyRefs(a + b) == BodyRefs(a) + BodyRefs(b)
  {
    if b == [] {
      assert a + b == a;
    } else {
      assert (a + b)[..|a + b| - 1] == a + b[..|b| - 1];
      BodyRefsConcat(a, b[..|b| - 1]);
    }
  }

  /** More body instructions add no name and at most their own references. */
  lemma {:induction false} ExtendNames(stages: seq<Stage>, body: seq<Instr>)
    requires stages != []
    ensures Names(Extend(stages, body)) == Names(stages)
    ensures Declared(Extend(stages, body)) == Declared(stages)
    ensures Free(Extend(stages, body)) == Free(stages) + (BodyRefs(body) - Declared(stages[..|stages| - 1]))
  {
    assert Extend(stages, body)[..|stages| - 1] == stages[..|stages| - 1];
    BodyRefsConcat(stages[|stages| - 1].body, body);
  }
}
