/** Where equal names mean equal stages and references go backwards, an image depends on the set
    of stages only: not on their order, and not on how often a stage is repeated. */
module StageSets {
  import opened Dockerfile

  /** Building a member of the list again gives the image its name already has. */
  ghost predicate Settled(env: Env, stages: seq<Stage>) {
    forall x :: x in stages && x.alias.Some? ==>
      x.alias.value in env && ImageOf(env, x) == env[x.alias.value]
  }

  lemma {:induction false} UniformSettles(s: seq<Stage>)
    requires WellScoped(s) && Uniform(s)
    ensures Settled(EnvOf(map[], s), s)
  {
    if s != [] {
      var before, last := s[..|s| - 1], s[|s| - 1];
      assert s == before + [last];
      NamesConcat(before, [last]);
      FreeConcat(before, [last]);
      UniformSettles(before);
      var e := EnvOf(map[], before);
      if last.alias.Some? {
        var n := last.alias.value;
        EnvFrame(map[], before, n);
        DeclaredIff(before, n);
        if n in Declared(before) {
          var x :| x in before && x.alias == Some(n);
          assert x == last;
          assert EnvOf(map[], s) == e;
        } else {
          forall x | x in s && x.alias.Some?
            ensures ImageOf(e[n := ImageOf(e, last)], x) == ImageOf(e, x)
          {
            NotYetReferred(s, x);
            ImageAgree(e, e[n := ImageOf(e, last)], x);
          }
        }
      }
    }
  }

  /** Before its first declaration a name is referred to by no stage. */
  lemma {:induction false} NotYetReferred(s: seq<Stage>, x: Stage)
    requires s != [] && x in s && WellScoped(s)
    requires s[|s| - 1].alias.Some? && s[|s| - 1].alias.value !in Declared(s[..|s| - 1])
    ensures s[|s| - 1].alias.value !in Refs(x)
  {
    var before, last := s[..|s| - 1], s[|s| - 1];
    assert s == before + [last];
    if x in before {
      RefsOfMember(before, x);
    }
  }

  /** The last stage means the same before and after it is declared. */
  lemma {:induction false} LastSettles(s: seq<Stage>)
    requires s != [] && WellScoped(s) && Uniform(s)
    ensures LastImage(map[], s) == ImageOf(EnvOf(map[], s), s[|s| - 1])
  {
    var before, last := s[..|s| - 1], s[|s| - 1];
    assert s == before + [last];
    UniformSettles(s);
    if last.alias.Some? && last.alias.value in Refs(last) {
      var n := last.alias.value;
      NamesConcat(before, [last]);
      FreeConcat(before, [last]);
      UniformSettles(before);
      DeclaredIff(before, n);
      var x :| x in before && x.alias == Some(n);
      assert x == last;
      assert EnvOf(map[], before)[n] == ImageOf(EnvOf(map[], before), last);
      assert EnvOf(map[], s) == EnvOf(map[], before);
    } else {
      ImageAgree(EnvOf(map[], before), EnvOf(map[], s), last);
    }
  }

  /** More stages, in another order or repeated, change no image. */
  lemma {:induction false} MoreStagesSameImage(s: seq<Stage>, t: seq<Stage>, n: string)
    requires WellScoped(s) && WellScoped(t) && Uniform(t)
    requires (forall x :: x in s ==> x in t) && Free(s) !! Declared(t)
    ensures n in Declared(s) ==> n in Declared(t) && Resolve(EnvOf(map[], t), n) == Resolve(EnvOf(map[], s), n)
    decreases |s|, 0
  {
    if n in Declared(s) {
      var before, x := s[..|s| - 1], s[|s| - 1];
      assert s == before + [x];
      NamesConcat(before, [x]);
      FreeConcat(before, [x]);
      if x.alias == Some(n) {
        UniformSettles(t);
        DeclaredIff(t, n);
        SameStageImage(before, t, x);
      } else {
        MoreStagesSameImage(before, t, n);
      }
    }
  }

  /** A stage after `before` has the image it has after all of `t`. */
  lemma {:induction false} SameStageImage(before: seq<Stage>, t: seq<Stage>, x: Stage)
    requires WellScoped(before) && WellScoped(t) && Uniform(t)
    requires (forall y :: y in before ==> y in t) && Free(before) !! Declared(t)
    requires Refs(x) - Declared(before) !! Declared(t)
    ensures ImageOf(EnvOf(map[], t), x) == ImageOf(EnvOf(map[], before), x)
    decreases |before|, 1
  {
    forall r | r in Refs(x) ensures Resolve(EnvOf(map[], t), r) == Resolve(EnvOf(map[], before), r) {
      if r in Declared(before) {
        MoreStagesSameImage(before, t, r);
      } else {
        EnvFrame(map[], t, r);
        EnvFrame(map[], before, r);
      }
    }
    ImageAgree(EnvOf(map[], before), EnvOf(map[], t), x);
  }
}
