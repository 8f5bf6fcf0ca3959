/** References from behind an INCLUDE to the stages of the INCLUDEd file: when the text that the
    compiler puts in place means what the file itself would mean there, and when it does not. */
module IncludedReferences {
  import opened Dockerfile
  import opened Renaming
  import opened ScopeStages
  import opened SanitizeStageNames
  import opened PostProcessDockerfile
  import opened LoadDockerfile
  import opened LineSteps
  import opened IncludedFiles

  // An image determines what its references mean

  lemma {:induction false} LayersExact(e: Env, f: Env, i: Instr)
    ensures |LayersOf(e, i)| == |LayersOf(f, i)|
    ensures LayersOf(e, i) == LayersOf(f, i)
            <==> (RefOf(i).Some? ==> Resolve(e, RefOf(i).value) == Resolve(f, RefOf(i).value))
  {
    match i
    case Copy(verb, Some(ref), rest) =>
      assert LayersOf(e, i)[0] == Copied(verb, Resolve(e, ref), rest)
             && LayersOf(f, i)[0] == Copied(verb, Resolve(f, ref), rest);
    case Run(Some(ref), command) =>
      assert LayersOf(e, i)[0] == Mounted(Resolve(e, ref), command)
             && LayersOf(f, i)[0] == Mounted(Resolve(f, ref), command);
    case _ =>
  }

  lemma {:induction false} SplitEqual<T>(a: seq<T>, b: seq<T>, c: seq<T>, d: seq<T>)
    requires a + b == c + d && |b| == |d|
    ensures a == c && b == d
  {
    assert a == (a + b)[..|a|] && b == (a + b)[|a|..] && c == (c + d)[..|c|] && d == (c + d)[|c|..];
  }

  /** Two builds of the same instructions agree exactly if their bases and all references agree. */
  lemma {:induction false} BuildExact(e: Env, f: Env, b: Image, c: Image, body: seq<Instr>)
    ensures Build(e, b, body) == Build(f, c, body)
            <==> b == c && forall r :: r in BodyRefs(body) ==> Resolve(e, r) == Resolve(f, r)
  {
    if body != [] {
      var before, i := body[..|body| - 1], body[|body| - 1];
      var x, y := Build(e, b, before), Build(f, c, before);
      BuildExact(e, f, b, c, before);
      LayersExact(e, f, i);
      if Build(e, b, body) == Build(f, c, body) {
        SplitEqual(x.layers, LayersOf(e, i), y.layers, LayersOf(f, i));
      }
    }
  }

  lemma {:induction false} StageExact(e: Env, f: Env, s: Stage)
    ensures ImageOf(e, s) == ImageOf(f, s) <==> forall r :: r in Refs(s) ==> Resolve(e, r) == Resolve(f, r)
  {
    BuildExact(e, f, Resolve(e, s.base), Resolve(f, s.base), s.body);
  }

  /** All stages have the same image behind either environment. */
  ghost predicate SameImages(e: Env, f: Env, b: seq<Stage>) {
    forall i :: 0 <= i < |b| ==> ImageOf(EnvOf(e, b[..i]), b[i]) == ImageOf(EnvOf(f, b[..i]), b[i])
  }

  lemma {:induction false} SameImagesSnoc(e: Env, f: Env, before: seq<Stage>, x: Stage)
    ensures SameImages(e, f, before + [x])
            <==> SameImages(e, f, before) && ImageOf(EnvOf(e, before), x) == ImageOf(EnvOf(f, before), x)
  {
    var b := before + [x];
    assert b[..|before|] == before && b[|before|] == x;
    assert forall i :: 0 <= i < |before| ==> b[..i] == before[..i] && b[i] == before[i];
    if SameImages(e, f, before) && ImageOf(EnvOf(e, before), x) == ImageOf(EnvOf(f, before), x) {
      forall i | 0 <= i < |b| ensures ImageOf(EnvOf(e, b[..i]), b[i]) == ImageOf(EnvOf(f, b[..i]), b[i]) {
      }
    }
    if SameImages(e, f, b) {
      assert ImageOf(EnvOf(e, b[..|before|]), b[|before|]) == ImageOf(EnvOf(f, b[..|before|]), b[|before|]);
      forall i | 0 <= i < |before|
        ensures ImageOf(EnvOf(e, before[..i]), before[i]) == ImageOf(EnvOf(f, before[..i]), before[i])
      {
        assert b[..i] == before[..i];
      }
    }
  }

  lemma {:induction false} EnvLast(e: Env, before: seq<Stage>, x: Stage)
    ensures var m := EnvOf(e, before);
            EnvOf(e, before + [x]) == if x.alias.Some? then m[x.alias.value := ImageOf(m, x)] else m
    ensures Declared(before + [x]) == Declared(before) + (if x.alias.Some? then {x.alias.value} else {})
  {
    assert (before + [x])[..|before|] == before;
  }

  lemma {:induction false} AgreeBehind(e: Env, f: Env, b: seq<Stage>, r: string)
    requires SameImages(e, f, b) && (r !in Declared(b) ==> Resolve(e, r) == Resolve(f, r))
    ensures Resolve(EnvOf(e, b), r) == Resolve(EnvOf(f, b), r)
  {
    if b != [] {
      var before, x := b[..|b| - 1], b[|b| - 1];
      assert b == before + [x];
      SameImagesSnoc(e, f, before, x);
      EnvLast(e, before, x);
      EnvLast(f, before, x);
      if x.alias != Some(r) {
        AgreeBehind(e, f, before, r);
      }
    }
  }

  lemma {:induction false} FreeLast(before: seq<Stage>, x: Stage)
    ensures Free(before + [x]) == Free(before) + (Refs(x) - Declared(before))
  {
    assert (before + [x])[..|before|] == before;
  }

  /** All stages have the same image exactly if their free references mean the same. */
  lemma {:induction false} StagesExact(e: Env, f: Env, b: seq<Stage>)
    ensures SameImages(e, f, b) <==> forall r :: r in Free(b) ==> Resolve(e, r) == Resolve(f, r)
  {
    if b != [] {
      var before, x := b[..|b| - 1], b[|b| - 1];
      assert b == before + [x];
      SameImagesSnoc(e, f, before, x);
      FreeLast(before, x);
      StagesExact(e, f, before);
      StageExact(EnvOf(e, before), EnvOf(f, before), x);
      if SameImages(e, f, before) {
        forall r | r in Refs(x)
          ensures Resolve(EnvOf(e, before), r) == Resolve(EnvOf(f, before), r)
                  <==> (r !in Declared(before) ==> Resolve(e, r) == Resolve(f, r))
        {
          EnvFrame(e, before, r);
          EnvFrame(f, before, r);
          if r in Declared(before) {
            AgreeBehind(e, f, before, r);
          }
        }
      }
    }
  }

  // What a lost reference means

  /** The root of a named image is one of the external references. */
  lemma {:induction false} RootIsFree(ss: seq<Stage>, n: string)
    requires n in Declared(ss)
    ensures Resolve(EnvOf(map[], ss), n).root in Free(ss)
  {
    var before, x := ss[..|ss| - 1], ss[|ss| - 1];
    if x.alias == Some(n) {
      EnvFrame(map[], before, x.base);
      if x.base in Declared(before) {
        RootIsFree(before, x.base);
      }
      BuildRoot(EnvOf(map[], before), Resolve(EnvOf(map[], before), x.base), x.body);
    } else {
      RootIsFree(before, n);
    }
  }

  lemma {:induction false} BuildRoot(e: Env, b: Image, body: seq<Instr>)
    ensures Build(e, b, body).root == b.root
  {
    if body != [] {
      BuildRoot(e, b, body[..|body| - 1]);
    }
  }

  /** Behind `a` and text that does not declare r, the reference r means what it means behind `a`
      and `g` exactly if `g` does not declare it either. */
  lemma {:induction false} ReferenceExact(a: seq<Stage>, g: seq<Stage>, v: seq<Stage>, r: string)
    requires WellScoped(a + g) && r !in Declared(v) && (r in Declared(g) ==> r !in Declared(a))
    ensures Resolve(EnvOf(map[], a + v), r) == Resolve(EnvOf(map[], a + g), r) <==> r !in Declared(g)
  {
    EnvConcat(map[], a, v);
    EnvConcat(map[], a, g);
    EnvFrame(EnvOf(map[], a), v, r);
    EnvFrame(EnvOf(map[], a), g, r);
    NamesConcat(a, g);
    if r in Declared(g) {
      EnvFrame(map[], a, r);
      RootIsFree(a + g, r);
    }
  }

  // INCLUDE below the root

  lemma {:induction false} NestedDeclares(hash: string -> string, c: Context, g: seq<Instr>, k: nat, r: string)
    requires Includable(c, g, k) && forall y :: y in Stages(Defaulted(g)) ==> y.alias.Some?
    requires !(c.prefix <= r) && c.alias != Some(r)
    ensures PostProcessed(hash, c, g).Ok? && Anchored(PostProcessed(hash, c, g).value)
    ensures r !in Declared(Stages(PostProcessed(hash, c, g).value))
  {
    IncludedResult(hash, c, g, k);
    OutcomeKeeps(c, g, k);
    DeclaredIff(Outcome(c, g), r);
    forall x | x in Outcome(c, g) ensures x.alias != Some(r) {
      OutcomeNames(c, g, k, x);
      if x.alias != c.alias {
        var n :| n in Declared(Stages(Defaulted(g))) && x.alias == Some(ScopedName(c.prefix, n));
        assert c.prefix <= ScopedName(c.prefix, n);
      }
    }
  }

  lemma {:induction false} PlacedStages(a: seq<Instr>, text: string, display: string, v: seq<Instr>)
    requires Anchored(v)
    ensures Stages(a + Framed(text, display, "include", v)) == Stages(a) + Stages(v)
  {
    FramedStages(text, display, "include", v);
    StagesConcat(a, Framed(text, display, "include", v));
  }

  /** INCLUDE of a file with stages below the root: the compiler gives its stages other names. The
      stages that follow are built as if the file stood there exactly if none of them refers to one
      of its stages. */
  lemma {:induction false} NestedIncludeExact(hash: string -> string, c: Context, a: seq<Instr>, g: seq<Instr>, k: nat,
                                              text: string, display: string, b: seq<Stage>)
    requires Includable(c, g, k) && forall y :: y in Stages(Defaulted(g)) ==> y.alias.Some?
    requires WellScoped(Stages(a) + Stages(g)) && Declared(Stages(a)) !! Declared(Stages(g))
    requires forall r :: r in Free(b) ==> !(c.prefix <= r) && c.alias != Some(r)
    ensures PostProcessed(hash, c, g).Ok?
    ensures var there := EnvOf(map[], Stages(a + Framed(text, display, "include", PostProcessed(hash, c, g).value)));
            SameImages(there, EnvOf(map[], Stages(a + g)), b) <==> Free(b) !! Declared(Stages(g))
  {
    IncludedResult(hash, c, g, k);
    var v := PostProcessed(hash, c, g).value;
    OutcomeKeeps(c, g, k);
    PlacedStages(a, text, display, v);
    StagesConcat(a, g);
    var there, place := EnvOf(map[], Stages(a) + Stages(v)), EnvOf(map[], Stages(a) + Stages(g));
    StagesExact(there, place, b);
    forall r | r in Free(b) ensures Resolve(there, r) == Resolve(place, r) <==> r !in Declared(Stages(g)) {
      NestedDeclares(hash, c, g, k, r);
      ReferenceExact(Stages(a), Stages(g), Stages(v), r);
    }
  }

  // INCLUDE at the root

  /** Sanitised on its own, the text declares r exactly if r is one of its names and sanitised. */
  lemma {:induction false} SanitizedDeclares(hash: string -> string, d: seq<Instr>, r: string)
    requires HexDigest(hash) && Anchored(d) && WellScoped(Stages(d)) && SanitizeSafe(hash, d)
    requires r in Declared(Stages(d)) || forall m :: m in Declared(Stages(d)) ==> SanitizeStageName(hash, m) != r
    ensures r in Declared(Stages(Sanitized(hash, d))) <==> r in Declared(Stages(d)) && SanitizeStageName(hash, r) == r
    ensures Anchored(Sanitized(hash, d))
  {
    var rho := SanitizeRenaming(hash, Declared(Stages(d)));
    SanitizingIsRenaming(hash, d, Declared(Stages(d)));
    StagesOfRenamed(rho, d);
    RenamedDeclares(rho, Stages(d), r);
    if r in Declared(Stages(Sanitized(hash, d))) {
      var m :| m in Declared(Stages(d)) && Apply(rho, m) == r;
      SanitizedNameForm(hash, m);
    }
  }

  lemma {:induction false} FixedKeepsImage(hash: string -> string, a: seq<Stage>, d: seq<Instr>, r: string)
    requires Anchored(d) && WellScoped(Stages(d)) && SanitizeSafe(hash, d)
    requires r in Declared(Stages(d)) && SanitizeStageName(hash, r) == r
    ensures Resolve(EnvOf(map[], a + Stages(Sanitized(hash, d))), r) == Resolve(EnvOf(map[], a + Stages(d)), r)
  {
    var rho, e := SanitizeRenaming(hash, Declared(Stages(d))), EnvOf(map[], a);
    SanitizingIsRenaming(hash, d, Declared(Stages(d)));
    StagesOfRenamed(rho, d);
    EnvRenamed(rho, Stages(d), e, e);
    EnvConcat(map[], a, Stages(d));
    EnvConcat(map[], a, Stages(Sanitized(hash, d)));
    assert Apply(rho, r) == r;
  }

  /** Behind an INCLUDE of the root, a reference means what it means behind the file's own text
      exactly if it is no name that sanitising changed. */
  lemma {:induction false} RootReferenceExact(hash: string -> string, a: seq<Stage>, d: seq<Instr>, r: string)
    requires HexDigest(hash) && Anchored(d) && WellScoped(Stages(d)) && SanitizeSafe(hash, d)
    requires WellScoped(a + Stages(d)) && Declared(a) !! Declared(Stages(d))
    requires r in Declared(Stages(d)) || forall m :: m in Declared(Stages(d)) ==> SanitizeStageName(hash, m) != r
    ensures Resolve(EnvOf(map[], a + Stages(Sanitized(hash, d))), r) == Resolve(EnvOf(map[], a + Stages(d)), r)
            <==> (r in Declared(Stages(d)) ==> SanitizeStageName(hash, r) == r)
  {
    SanitizedDeclares(hash, d, r);
    if r in Declared(Stages(d)) && SanitizeStageName(hash, r) == r {
      FixedKeepsImage(hash, a, d, r);
    } else {
      ReferenceExact(a, Stages(d), Stages(Sanitized(hash, d)), r);
    }
  }

  /** INCLUDE of a file with stages at the root: the stages that follow are built as if the file
      stood there exactly if none of them refers to a stage whose name sanitising changed. */
  lemma {:induction false} RootIncludeExact(hash: string -> string, a: seq<Instr>, d: seq<Instr>, text: string,
                                            display: string, b: seq<Stage>)
    requires HexDigest(hash) && Anchored(d) && WellScoped(Stages(d)) && SanitizeSafe(hash, d)
    requires WellScoped(Stages(a) + Stages(d)) && Declared(Stages(a)) !! Declared(Stages(d))
    requires forall r, m :: r in Free(b) && m in Declared(Stages(d)) && SanitizeStageName(hash, m) == r ==>
               r in Declared(Stages(d))
    ensures var there := EnvOf(map[], Stages(a + Framed(text, display, "include", Sanitized(hash, d))));
            SameImages(there, EnvOf(map[], Stages(a + d)), b)
            <==> forall r :: r in Free(b) && r in Declared(Stages(d)) ==> SanitizeStageName(hash, r) == r
  {
    SanitizingIsRenaming(hash, d, Declared(Stages(d)));
    StagesOfRenamed(SanitizeRenaming(hash, Declared(Stages(d))), d);
    PlacedStages(a, text, display, Sanitized(hash, d));
    StagesConcat(a, d);
    var there, place := EnvOf(map[], Stages(a) + Stages(Sanitized(hash, d))), EnvOf(map[], Stages(a) + Stages(d));
    StagesExact(there, place, b);
    forall r | r in Free(b)
      ensures Resolve(there, r) == Resolve(place, r) <==> (r in Declared(Stages(d)) ==> SanitizeStageName(hash, r) == r)
    {
      RootReferenceExact(hash, Stages(a), d, r);
    }
  }
}
