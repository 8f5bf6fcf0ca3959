/** Dropping repeats behind the root's lines keeps their invariant and all they build, if the last
    stage stays last. */
module ThinnedLines {
  import opened Dockerfile
  import opened StageSets
  import opened DeduplicateStages
  import opened TidyTrees
  import opened Interpreter
  import opened LineInvariants
  import opened LineMeaning
  import opened GatheredLines

  // Dropping repeats behind the root's lines

  lemma {:induction false} OwnOnceThinned(own: seq<string>, b: seq<Stage>, t: seq<Stage>)
    requires Thinned(b, t) && OwnOnce(own, b)
    ensures OwnOnce(own, t)
  {
    if b != [] {
      var before, x := b[..|b| - 1], b[|b| - 1];
      assert OwnOnce(own, before);
      if t != [] && t[|t| - 1] == x && Thinned(before, t[..|t| - 1]) {
        OwnOnceThinned(own, before, t[..|t| - 1]);
        forall i | 0 <= i < |t| - 1 && t[i].alias.Some? && t[i].alias.value in own ensures t[i].alias != x.alias {
          ThinnedMembers(before, t[..|t| - 1], t[i]);
          assert t[i] in t[..|t| - 1];
          var k :| 0 <= k < |before| && before[k] == t[i];
          assert b[k] == t[i];
        }
        OwnOnceLast(own, t);
      } else {
        OwnOnceThinned(own, before, t);
      }
    }
  }

  lemma {:induction false} OwnOnceLast(own: seq<string>, t: seq<Stage>)
    requires t != [] && OwnOnce(own, t[..|t| - 1])
    requires forall i :: 0 <= i < |t| - 1 && t[i].alias.Some? && t[i].alias.value in own ==>
               t[i].alias != t[|t| - 1].alias
    ensures OwnOnce(own, t)
  {
    forall i, j | 0 <= i < j < |t| && t[i].alias.Some? && t[i].alias.value in own ensures t[i].alias != t[j].alias {
      if j < |t| - 1 {
        assert t[i] == t[..|t| - 1][i] && t[j] == t[..|t| - 1][j];
      }
    }
  }

  lemma {:induction false} OwnOnceBehind(own: seq<string>, a: seq<Stage>, b: seq<Stage>, t: seq<Stage>)
    requires OwnOnce(own, a + b) && Thinned(b, t)
    ensures OwnOnce(own, a + t)
  {
    assert OwnOnce(own, b) by {
      forall i, j | 0 <= i < j < |b| && b[i].alias.Some? && b[i].alias.value in own ensures b[i].alias != b[j].alias {
        assert (a + b)[|a| + i] == b[i] && (a + b)[|a| + j] == b[j];
      }
    }
    OwnOnceThinned(own, b, t);
    forall i, j | 0 <= i < j < |a + t| && (a + t)[i].alias.Some? && (a + t)[i].alias.value in own
      ensures (a + t)[i].alias != (a + t)[j].alias
    {
      if j < |a| {
        assert (a + b)[i] == a[i] && (a + b)[j] == a[j];
      } else if i < |a| {
        ThinnedMembers(b, t, t[j - |a|]);
        var k :| 0 <= k < |b| && b[k] == t[j - |a|];
        assert (a + b)[i] == a[i] && (a + b)[|a| + k] == b[k];
      } else {
        assert (a + t)[i] == t[i - |a|] && (a + t)[j] == t[j - |a|];
      }
    }
  }

  lemma {:induction false} SyntaxThinned(s: Site, n: nat, own: seq<string>, a: seq<Stage>, b: seq<Stage>, t: seq<Stage>)
    requires Syntax(s, n, own, a + b) && Thinned(b, t) && s.isRoot
    ensures Syntax(s, n, own, a + t)
    ensures forall x :: x in a + t <==> x in a + b
    ensures Declared(a + t) == Declared(a + b)
  {
    FreeConcat(a, b);
    FreeConcat(a, t);
    NamesConcat(a, b);
    NamesConcat(a, t);
    ThinnedFree(b, t);
    ThinnedDeclares(b, t);
    OwnOnceBehind(own, a, b, t);
    forall x ensures x in a + t <==> x in a + b {
      ThinnedMembers(b, t, x);
    }
  }

  // The same stages, with the same last one

  /** The name is declared before the last stage in either order. */
  lemma {:induction false} DeclaredBefore(own: seq<string>, before: seq<Stage>, cur: Stage, other: seq<Stage>,
                                          u: string)
    requires Declared(before + [cur]) == Declared(other + [cur]) && u in Declared(before)
    requires cur.alias == Some(u) ==> u in own && OwnOnce(own, before + [cur])
    ensures u in Declared(other)
  {
    NamesConcat(before, [cur]);
    NamesConcat(other, [cur]);
    assert [cur][..0] == [];
    DeclaredIff(before, u);
    var x :| x in before && x.alias == Some(u);
    var k :| 0 <= k < |before| && before[k] == x;
    var all := before + [cur];
    assert all[k] == x && all[|before|] == cur;
  }

  lemma {:induction false} LastImageStays(s: Site, n: nat, own: seq<string>, before: seq<Stage>, cur: Stage,
                                          other: seq<Stage>)
    requires SiteOk(s) && Known(s, own) && Syntax(s, n, own, before + [cur]) && Syntax(s, n, own, other + [cur])
    requires (forall x :: x in before + [cur] ==> x in other + [cur])
    requires (forall x :: x in other + [cur] ==> x in before + [cur])
    ensures ImageOf(EnvOf(map[], other), cur) == ImageOf(EnvOf(map[], before), cur)
  {
    var ss, tt := before + [cur], other + [cur];
    SyntaxScoped(s, n, own, ss);
    SyntaxScoped(s, n, own, tt);
    LastSettles(ss);
    LastSettles(tt);
    assert ss[..|ss| - 1] == before && tt[..|tt| - 1] == other;
    RefsOfMember(ss, cur);
    StageImageKept(s, n, own, ss, n, tt, cur);
  }

  lemma {:induction false} ResolveStays(s: Site, n: nat, own: seq<string>, before: seq<Stage>, cur: Stage,
                                        other: seq<Stage>, r: string)
    requires SiteOk(s) && Known(s, own) && Syntax(s, n, own, before + [cur]) && Syntax(s, n, own, other + [cur])
    requires forall x :: x in before + [cur] ==> x in other + [cur]
    requires r in s.ext || (r in Declared(before) && r in Declared(other))
    ensures Resolve(EnvOf(map[], other), r) == Resolve(EnvOf(map[], before), r)
  {
    var ss, tt := before + [cur], other + [cur];
    assert ss[..|ss| - 1] == before && tt[..|tt| - 1] == other;
    SyntaxPrefix(s, n, own, ss);
    SyntaxPrefix(s, n, own, tt);
    NamesConcat(before, [cur]);
    ImageStays(s, n, own, before, n, ss, r);
    ImageStays(s, n, own, ss, n, tt, r);
    ImageStays(s, n, own, other, n, tt, r);
  }

  lemma {:induction false} FinishedOwn(s: Site, n: nat, before: seq<Stage>, cur: Stage, p: Progress, u: string)
    requires n <= |s.f.items| && Running(s, n, before, cur, p) && u in Finished(s.w, s.f, s.isRoot, n)
    ensures u in OwnAt(s, n) && u in Declared(before)
  {
    assert u in NameSet(OwnAt(s, n));
  }

  lemma {:induction false} CurNotAlias(s: Site, n: nat, before: seq<Stage>, cur: Stage, p: Progress, i: nat)
    requires SiteOk(s) && n <= |s.f.items| && Running(s, n, before, cur, p)
    requires UsedAt(s, i) && Uses(s.f.items[i])
    ensures cur.alias != Some(AliasAt(s, i))
  {
    if cur.alias.Some? {
      OwnNamesGrow(s, n, cur.alias.value);
      AliasNotOwn(s, i, cur.alias.value);
    }
  }

  lemma {:induction false} RunningReordered(s: Site, n: nat, before: seq<Stage>, cur: Stage, other: seq<Stage>,
                                            p: Progress)
    requires SiteOk(s) && n <= |s.f.items| && Running(s, n, before, cur, p)
    requires Syntax(s, n, OwnAt(s, n), before + [cur]) && Syntax(s, n, OwnAt(s, n), other + [cur])
    requires (forall x :: x in before + [cur] ==> x in other + [cur])
    requires (forall x :: x in other + [cur] ==> x in before + [cur])
    requires Declared(before + [cur]) == Declared(other + [cur])
    ensures Running(s, n, other, cur, p)
  {
    var own := OwnAt(s, n);
    OwnKnown(s, n);
    LastImageStays(s, n, own, before, cur, other);
    forall u | u in Finished(s.w, s.f, s.isRoot, n) ensures u in Declared(before) && u in Declared(other) {
      FinishedOwn(s, n, before, cur, p, u);
      DeclaredBefore(own, before, cur, other, u);
    }
    forall i: nat | i < n && UsedAt(s, i) && Uses(s.f.items[i]) ensures AliasAt(s, i) in Declared(other) {
      CurNotAlias(s, n, before, cur, p, i);
      DeclaredBefore(own, before, cur, other, AliasAt(s, i));
    }
    ImagesReordered(s, n, before, cur, other, p);
  }

  lemma {:induction false} ImagesReordered(s: Site, n: nat, before: seq<Stage>, cur: Stage, other: seq<Stage>,
                                           p: Progress)
    requires SiteOk(s) && n <= |s.f.items|
    requires AliasesIn(s, n, Declared(before)) && AliasesIn(s, n, Declared(other))
    requires ImagesOk(s, Finished(s.w, s.f, s.isRoot, n), n, EnvOf(map[], before), p.env)
    requires Syntax(s, n, OwnAt(s, n), before + [cur]) && Syntax(s, n, OwnAt(s, n), other + [cur])
    requires forall x :: x in before + [cur] ==> x in other + [cur]
    requires Finished(s.w, s.f, s.isRoot, n) <= Declared(before) * Declared(other)
    ensures ImagesOk(s, Finished(s.w, s.f, s.isRoot, n), n, EnvOf(map[], other), p.env)
  {
    var own := OwnAt(s, n);
    OwnKnown(s, n);
    forall r | r in s.ext + Finished(s.w, s.f, s.isRoot, n)
      ensures Resolve(EnvOf(map[], other), r) == Resolve(p.env, r)
    {
      ResolveStays(s, n, own, before, cur, other, r);
    }
    forall i: nat | i < n && UsedAt(s, i) && Uses(s.f.items[i])
      ensures MeaningAt(s, i) == Some(Resolve(EnvOf(map[], other), AliasAt(s, i)))
    {
      ResolveStays(s, n, own, before, cur, other, AliasAt(s, i));
    }
  }

  lemma {:induction false} LastBehind(a: seq<Stage>, b: seq<Stage>)
    requires b != []
    ensures (a + b[..|b| - 1]) + [b[|b| - 1]] == a + b
    ensures (a + b)[..|a + b| - 1] == a + b[..|b| - 1] && (a + b)[|a + b| - 1] == b[|b| - 1]
  {
  }

  /** Dropping repeats among the stages `b` behind `a` loses nothing if the last one stays last. */
  lemma {:induction false} KeptThinned(s: Site, n: nat, a: seq<Stage>, b: seq<Stage>, t: seq<Stage>, p: Progress)
    requires SiteReady(s) && s.isRoot && n <= |s.f.items| && Kept(s, n, a + b, p)
    requires Thinned(b, t) && b != [] && t != [] && t[|t| - 1] == b[|b| - 1]
    ensures Kept(s, n, a + t, p)
  {
    LastBehind(a, b);
    LastBehind(a, t);
    SyntaxThinned(s, n, OwnAt(s, n), a, b, t);
    RunningReordered(s, n, a + b[..|b| - 1], b[|b| - 1], a + t[..|t| - 1], p);
  }
}
