/** One file used for two targets. Both loads give the same stages, except that each cuts its own
    target in two, and both call their target by the same alias. */
module TwoTargets {
  import opened Dockerfile
  import opened StageSets
  import opened DeduplicateStages
  import opened FirstOccurrences
  import opened PostProcessDockerfile
  import opened IncludedReferences

  // The stages of a file

  /** All stages are named, and no two alike. */
  ghost predicate AllOnly(d: seq<Stage>) {
    && (forall i :: 0 <= i < |d| ==> d[i].alias.Some?)
    && forall i, j :: 0 <= i < j < |d| ==> d[i].alias != d[j].alias
  }

  function NameAt(d: seq<Stage>, k: nat): string
    requires k < |d|
  {
    TextOf(d[k].alias)
  }

  /** The names, among the first n stages, of stage k and of the stages that are built on it. */
  ghost function Touched(d: seq<Stage>, k: nat, n: nat): set<string>
    requires AllOnly(d) && k < n <= |d|
  {
    if n == k + 1 then {NameAt(d, k)}
    else
      var t := Touched(d, k, n - 1);
      t + (if Refs(d[n - 1]) !! t then {} else {NameAt(d, n - 1)})
  }

  lemma {:induction false} TouchedLater(d: seq<Stage>, k: nat, n: nat, r: string)
    requires AllOnly(d) && k < n <= |d| && r in Touched(d, k, n)
    ensures exists i :: k <= i < n && NameAt(d, i) == r
  {
    if n > k + 1 && r in Touched(d, k, n - 1) {
      TouchedLater(d, k, n - 1, r);
      var i :| k <= i < n - 1 && NameAt(d, i) == r;
    } else {
      assert NameAt(d, n - 1) == r;
    }
  }

  /** The body of stage k is not empty, so cutting it off leaves another image. */
  lemma {:induction false} BodyAdds(e: Env, b: Image, body: seq<Instr>)
    requires body != [] && forall i :: 0 <= i < |body| ==> !NoOp(body[i]) && !body[i].From?
    ensures |Build(e, b, body).layers| > |b.layers|
  {
    var before, i := body[..|body| - 1], body[|body| - 1];
    assert body[|body| - 1] == i;
    if before != [] {
      BodyAdds(e, b, before);
    }
    assert |LayersOf(e, i)| == 1;
  }

  /** Two environments differ on exactly these names. */
  ghost predicate DifferOn(e: Env, f: Env, names: set<string>, alias: string) {
    forall r :: r != alias ==> (Resolve(e, r) != Resolve(f, r) <==> r in names)
  }

  lemma {:induction false} DifferNext(e: Env, f: Env, names: set<string>, alias: string, x: Stage)
    requires DifferOn(e, f, names, alias) && x.alias.Some? && x.alias.value !in names + {alias} && alias !in Refs(x)
    ensures DifferOn(e[x.alias.value := ImageOf(e, x)], f[x.alias.value := ImageOf(f, x)],
                     names + (if Refs(x) !! names then {} else {x.alias.value}), alias)
  {
    StageExact(e, f, x);
  }

  lemma {:induction false} EnvNext(d: seq<Stage>, e: Env, k: nat, m: nat)
    requires k < m < |d| && d[m].alias.Some?
    ensures var before := EnvOf(e, d[k + 1..m]);
            EnvOf(e, d[k + 1..m + 1]) == before[NameAt(d, m) := ImageOf(before, d[m])]
  {
    assert d[k + 1..m + 1][..m - k - 1] == d[k + 1..m];
  }

  lemma {:induction false} TouchedNext(d: seq<Stage>, k: nat, m: nat)
    requires AllOnly(d) && k < m < |d|
    ensures Touched(d, k, m + 1) ==
            Touched(d, k, m) + (if Refs(d[m]) !! Touched(d, k, m) then {} else {NameAt(d, m)})
  {
  }

  lemma {:induction false} NewName(d: seq<Stage>, k: nat, m: nat, alias: string)
    requires AllOnly(d) && k < m < |d| && alias !in Declared(d) + Free(d)
    ensures d[m].alias == Some(NameAt(d, m)) && NameAt(d, m) !in Touched(d, k, m) + {alias} && alias !in Refs(d[m])
  {
    var x := d[m];
    assert x in d;
    RefsOfMember(d, x);
    DeclaredIff(d, x.alias.value);
    if x.alias.value in Touched(d, k, m) {
      TouchedLater(d, k, m, x.alias.value);
    }
  }

  lemma {:induction false} NothingBehind(d: seq<Stage>, k: nat, e: Env)
    requires AllOnly(d) && k < |d|
    ensures EnvOf(e, d[k + 1..k + 1]) == e && Touched(d, k, k + 1) == {NameAt(d, k)}
  {
  }

  lemma {:induction false} DifferStep(d: seq<Stage>, k: nat, m: nat, alias: string, e: Env, f: Env, e': Env, f': Env)
    requires AllOnly(d) && k < m < |d| && alias !in Declared(d) + Free(d)
    requires DifferOn(e, f, Touched(d, k, m), alias)
    requires e' == e[NameAt(d, m) := ImageOf(e, d[m])] && f' == f[NameAt(d, m) := ImageOf(f, d[m])]
    ensures DifferOn(e', f', Touched(d, k, m + 1), alias)
  {
    NewName(d, k, m, alias);
    DifferNext(e, f, Touched(d, k, m), alias, d[m]);
    TouchedNext(d, k, m);
  }

  /** Behind the cut the images differ of exactly the stages built on it. */
  ghost predicate DifferUpto(d: seq<Stage>, k: nat, n: nat, alias: string, e: Env, f: Env)
    requires AllOnly(d) && k < n <= |d|
  {
    DifferOn(EnvOf(e, d[k + 1..n]), EnvOf(f, d[k + 1..n]), Touched(d, k, n), alias)
  }

  lemma {:induction false} DifferMore(d: seq<Stage>, k: nat, m: nat, alias: string, e: Env, f: Env)
    requires AllOnly(d) && k < m < |d| && alias !in Declared(d) + Free(d)
    requires DifferUpto(d, k, m, alias, e, f)
    ensures DifferUpto(d, k, m + 1, alias, e, f)
  {
    EnvNext(d, e, k, m);
    EnvNext(d, f, k, m);
    DifferStep(d, k, m, alias, EnvOf(e, d[k + 1..m]), EnvOf(f, d[k + 1..m]),
               EnvOf(e, d[k + 1..m + 1]), EnvOf(f, d[k + 1..m + 1]));
  }

  lemma {:induction false} DifferFirst(d: seq<Stage>, k: nat, alias: string, e: Env, f: Env)
    requires AllOnly(d) && k < |d| && DifferOn(e, f, {NameAt(d, k)}, alias)
    ensures DifferUpto(d, k, k + 1, alias, e, f)
  {
    NothingBehind(d, k, e);
    NothingBehind(d, k, f);
  }

  lemma {:induction false} DifferBehind(d: seq<Stage>, k: nat, n: nat, alias: string, e: Env, f: Env)
    requires AllOnly(d) && k < n <= |d| && alias !in Declared(d) + Free(d)
    requires DifferOn(e, f, {NameAt(d, k)}, alias)
    ensures DifferUpto(d, k, n, alias, e, f)
  {
    if n == k + 1 {
      DifferFirst(d, k, alias, e, f);
    } else {
      var m := n - 1;
      DifferBehind(d, k, m, alias, e, f);
      DifferMore(d, k, m, alias, e, f);
    }
  }

  // The first target

  /** Body instructions that all add a layer. */
  predicate PlainBodies(d: seq<Stage>) {
    forall x, i :: x in d && 0 <= i < |x.body| ==> !NoOp(x.body[i]) && !x.body[i].From?
  }

  /** The names whose images the cut changes. */
  ghost function Changed(d: seq<Stage>, k: nat): set<string>
    requires AllOnly(d) && k < |d|
  {
    if d[k].body == [] then {} else Touched(d, k, |d|)
  }

  lemma {:induction false} CutDiffers(e: Env, x: Stage, alias: string)
    requires x.alias.Some? && x.alias != Some(alias)
    requires forall i :: 0 <= i < |x.body| ==> !NoOp(x.body[i]) && !x.body[i].From?
    ensures DifferOn(EnvOf(e, SplitPair(x, alias)), e[x.alias.value := ImageOf(e, x)],
                     if x.body == [] then {} else {x.alias.value}, alias)
  {
    var p := SplitPair(x, alias);
    assert p == [p[0]] + [p[1]];
    OneStage(p[0]);
    OneStage(p[1]);
    EnvConcat(e, [p[0]], [p[1]]);
    if x.body != [] {
      BodyAdds(e, Resolve(e, x.base), x.body);
    }
  }

  lemma {:induction false} NothingDiffers(e: Env, f: Env, b: seq<Stage>, alias: string)
    requires DifferOn(e, f, {}, alias) && alias !in Free(b)
    ensures DifferOn(EnvOf(e, b), EnvOf(f, b), {}, alias)
  {
    StagesExact(e, f, b);
    forall r | r != alias ensures Resolve(EnvOf(e, b), r) == Resolve(EnvOf(f, b), r) {
      AgreeBehind(e, f, b, r);
    }
  }

  lemma {:induction false} OnlyAtOf(d: seq<Stage>, k: nat)
    requires AllOnly(d) && k < |d|
    ensures OnlyAt(d, k) && NameAt(d, k) == d[k].alias.value && NameAt(d, k) in Declared(d)
  {
    assert d[k] in d;
    DeclaredIff(d, NameAt(d, k));
  }

  lemma {:induction false} EnvAround(d: seq<Stage>, k: nat, p: seq<Stage>)
    requires k < |d| && d[k].alias.Some?
    ensures EnvOf(map[], d[..k] + p + d[k + 1..]) == EnvOf(EnvOf(EnvOf(map[], d[..k]), p), d[k + 1..])
    ensures EnvOf(map[], d) == var e := EnvOf(map[], d[..k]);
                               EnvOf(e[NameAt(d, k) := ImageOf(e, d[k])], d[k + 1..])
  {
    assert d == d[..k] + [d[k]] + d[k + 1..];
    OneStage(d[k]);
    ThreeParts(d[..k], [d[k]], d[k + 1..]);
    ThreeParts(d[..k], p, d[k + 1..]);
  }

  lemma {:induction false} FreeBehind(d: seq<Stage>, k: nat, alias: string)
    requires AllOnly(d) && k < |d| && alias !in Declared(d) + Free(d)
    ensures alias !in Free(d[k + 1..]) && NameAt(d, k) != alias
  {
    OnlyAtOf(d, k);
    CutAt(d, k);
  }

  lemma {:induction false} CutBehind(d: seq<Stage>, k: nat, alias: string, cut: Env, whole: Env)
    requires AllOnly(d) && k < |d| && alias !in Declared(d) + Free(d)
    requires DifferOn(cut, whole, if d[k].body == [] then {} else {NameAt(d, k)}, alias)
    ensures DifferOn(EnvOf(cut, d[k + 1..]), EnvOf(whole, d[k + 1..]), Changed(d, k), alias)
  {
    if d[k].body == [] {
      FreeBehind(d, k, alias);
      NothingDiffers(cut, whole, d[k + 1..], alias);
    } else {
      assert d[k + 1..|d|] == d[k + 1..];
      DifferBehind(d, k, |d|, alias, cut, whole);
    }
  }

  /** What the first load changes against the file itself. */
  lemma {:induction false} FirstDiffers(d: seq<Stage>, k: nat, alias: string)
    requires AllOnly(d) && PlainBodies(d) && k < |d| && alias !in Declared(d) + Free(d)
    ensures DifferOn(EnvOf(map[], SplitStage(d, k, alias)), EnvOf(map[], d), Changed(d, k), alias)
  {
    var e, x := EnvOf(map[], d[..k]), d[k];
    FreeBehind(d, k, alias);
    assert x in d;
    CutDiffers(e, x, alias);
    CutBehind(d, k, alias, EnvOf(e, SplitPair(x, alias)), e[NameAt(d, k) := ImageOf(e, x)]);
    EnvAround(d, k, SplitPair(x, alias));
  }

  // What the second load adds

  ghost predicate Between(d: seq<Stage>, alias: string, u: seq<Stage>) {
    Declared(u) !! Declared(d) + Free(d) + {alias}
  }

  lemma {:induction false} SplitMembers(d: seq<Stage>, k: nat, alias: string, x: Stage)
    requires k < |d|
    ensures var p := SplitPair(d[k], alias);
            x in SplitStage(d, k, alias) <==> x == p[0] || x == p[1] || exists j :: 0 <= j < |d| && j != k && d[j] == x
  {
    var t := SplitStage(d, k, alias);
    forall j | 0 <= j < |d| && j != k ensures d[j] in t {
      assert d[j] == if j < k then t[j] else t[j + 1];
    }
    assert t[k] in t && t[k + 1] in t;
    if x in d[..k] {
      var i :| 0 <= i < k && d[..k][i] == x;
      assert d[i] == x;
    }
    if x in d[k + 1..] {
      var i :| 0 <= i < |d| - k - 1 && d[k + 1..][i] == x;
      assert d[k + 1 + i] == x;
    }
  }

  lemma {:induction false} InFirst(d: seq<Stage>, k: nat, alias: string, u: seq<Stage>, i: nat, x: Stage)
    requires AllOnly(d) && k < |d| && i < |d| && alias !in Declared(d) && Between(d, alias, u)
    requires x.alias == d[i].alias
    ensures x in SplitStage(d, k, alias) + u <==> x == if i == k then SplitPair(d[k], alias)[0] else d[i]
  {
    OnlyAtOf(d, i);
    DeclaredIff(u, NameAt(d, i));
    SplitMembers(d, k, alias, x);
  }

  lemma {:induction false} AliasNotInFirst(d: seq<Stage>, k: nat, m: nat, alias: string, u: seq<Stage>)
    requires AllOnly(d) && k < |d| && m < |d| && k != m && alias !in Declared(d) && Between(d, alias, u)
    ensures SplitPair(d[m], alias)[1] !in SplitStage(d, k, alias) + u
  {
    DeclaredIff(u, alias);
    DeclaredIff(d, alias);
    OnlyAtOf(d, k);
    SplitMembers(d, k, alias, SplitPair(d[m], alias)[1]);
  }

  /** The whole first target, if it was cut, in its place. */
  function Restored(d: seq<Stage>, k: nat, here: bool): seq<Stage>
    requires k < |d|
  {
    if here && d[k].body != [] then [d[k]] else []
  }

  function Cut(x: Stage, alias: string): seq<Stage> {
    (if x.body == [] then [] else [SplitPair(x, alias)[0]]) + [SplitPair(x, alias)[1]]
  }

  lemma {:induction false} PartBefore(d: seq<Stage>, k: nat, m: nat, alias: string, u: seq<Stage>)
    requires AllOnly(d) && k < |d| && m < |d| && k != m && alias !in Declared(d) && Between(d, alias, u)
    ensures Newer(SplitStage(d, k, alias) + u, d[..m]) == Restored(d, k, k < m)
  {
    var z := SplitStage(d, k, alias) + u;
    forall i | 0 <= i < m && i != k ensures d[..m][i] in z {
      InFirst(d, k, alias, u, i, d[i]);
    }
    InFirst(d, k, alias, u, k, d[k]);
    NewerOnly(z, d[..m], k);
  }

  lemma {:induction false} PartCut(d: seq<Stage>, k: nat, m: nat, alias: string, u: seq<Stage>)
    requires AllOnly(d) && k < |d| && m < |d| && k != m && alias !in Declared(d) && Between(d, alias, u)
    ensures Newer(SplitStage(d, k, alias) + u + d[..m], SplitPair(d[m], alias)) == Cut(d[m], alias)
  {
    var z, p := SplitStage(d, k, alias) + u, SplitPair(d[m], alias);
    InFirst(d, k, alias, u, m, p[0]);
    AliasNotInFirst(d, k, m, alias, u);
    forall i | 0 <= i < m ensures d[..m][i] != p[0] && d[..m][i] != p[1] {
      OnlyAtOf(d, i);
    }
    assert p[0] in z + d[..m] <==> p[0] in z;
    assert p[1] !in z + d[..m];
    var x := z + d[..m];
    NewerSnoc(x, [], p[0]);
    NewerSnoc(x, [p[0]], p[1]);
    assert [] + [p[0]] == [p[0]] && [p[0]] + [p[1]] == p;
    OnlyAtOf(d, m);
  }

  lemma {:induction false} PartBehind(d: seq<Stage>, k: nat, m: nat, alias: string, u: seq<Stage>)
    requires AllOnly(d) && k < |d| && m < |d| && k != m && alias !in Declared(d) && Between(d, alias, u)
    ensures Newer(SplitStage(d, k, alias) + u + d[..m] + SplitPair(d[m], alias), d[m + 1..]) == Restored(d, k, k > m)
  {
    var z, p := SplitStage(d, k, alias) + u, SplitPair(d[m], alias);
    forall i | 0 <= i < |d| && i != m && i != k ensures d[i] in z {
      InFirst(d, k, alias, u, i, d[i]);
    }
    InFirst(d, k, alias, u, k, d[k]);
    var y, all := d[m + 1..], z + d[..m] + p;
    forall i | 0 <= i < |y| && i != k - m - 1 ensures y[i] in all {
      assert y[i] == d[m + 1 + i];
    }
    if k > m {
      forall i | 0 <= i < m ensures d[..m][i] != d[k] {
      }
      OnlyAtOf(d, k);
      assert d[k] in all <==> d[k] in z;
      NewerOnly(all, y, k - m - 1);
    } else {
      NewerOnly(all, y, |y|);
    }
  }

  lemma {:induction false} SecondAdds(d: seq<Stage>, k: nat, m: nat, alias: string, u: seq<Stage>)
    requires AllOnly(d) && k < |d| && m < |d| && k != m && alias !in Declared(d) && Between(d, alias, u)
    ensures Newer(SplitStage(d, k, alias) + u, SplitStage(d, m, alias))
            == Restored(d, k, k < m) + Cut(d[m], alias) + Restored(d, k, k > m)
  {
    var z, p := SplitStage(d, k, alias) + u, SplitPair(d[m], alias);
    PartBefore(d, k, m, alias, u);
    PartCut(d, k, m, alias, u);
    PartBehind(d, k, m, alias, u);
    NewerConcat(z, d[..m], p);
    NewerConcat(z, d[..m] + p, d[m + 1..]);
    assert z + (d[..m] + p) == z + d[..m] + p;
  }

  /** The document after deduplication: the first load, what stands between, and what is new. */
  lemma {:induction false} BothLoads(d: seq<Stage>, k: nat, m: nat, alias: string, u: seq<Stage>)
    returns (v: seq<Stage>)
    requires AllOnly(d) && k < |d| && m < |d| && k != m && alias !in Declared(d) && Between(d, alias, u)
    ensures Between(d, alias, v)
    ensures KeepFirst(SplitStage(d, k, alias) + u + SplitStage(d, m, alias))
            == SplitStage(d, k, alias) + v + (Restored(d, k, k < m) + Cut(d[m], alias) + Restored(d, k, k > m))
  {
    var first := SplitStage(d, k, alias);
    v := Newer(first, u);
    SplitApart(d, k, alias);
    KeepFirstOfApart(first);
    KeepFirstConcat(first, u);
    KeepFirstConcat(first + u, SplitStage(d, m, alias));
    SecondAdds(d, k, m, alias, u);
    forall n | n in Declared(v) ensures n in Declared(u) {
      DeclaredIff(v, n);
      DeclaredIff(u, n);
      forall x ensures x in v ==> x in u {
        NewerMembers(first, u, x);
      }
    }
  }

  lemma {:induction false} SplitApart(d: seq<Stage>, k: nat, alias: string)
    requires AllOnly(d) && k < |d| && alias !in Declared(d)
    ensures forall i, j :: 0 <= i < j < |SplitStage(d, k, alias)| ==>
              SplitStage(d, k, alias)[i] != SplitStage(d, k, alias)[j]
  {
    var t, p := SplitStage(d, k, alias), SplitPair(d[k], alias);
    forall i, j | 0 <= i < j < |t| ensures t[i] != t[j] {
      SplitAliasAt(d, k, alias, i);
      SplitAliasAt(d, k, alias, j);
    }
  }

  lemma {:induction false} SplitAliasAt(d: seq<Stage>, k: nat, alias: string, i: nat)
    requires AllOnly(d) && k < |d| && alias !in Declared(d) && i <= |d|
    ensures SplitStage(d, k, alias)[i].alias
            == if i == k + 1 then Some(alias) else if i <= k then d[i].alias else d[i - 1].alias
    ensures i != k + 1 ==> SplitStage(d, k, alias)[i].alias != Some(alias)
  {
    OnlyAtOf(d, if i <= k then i else i - 1);
  }

  // The second target

  /** A name keeps its image over text that does not declare it. */
  lemma {:induction false} DifferAfter(e: Env, f: Env, names: set<string>, alias: string, v: seq<Stage>, r: string)
    requires DifferOn(e, f, names, alias) && r != alias && r !in Declared(v)
    ensures Resolve(EnvOf(e, v), r) != Resolve(f, r) <==> r in names
  {
    EnvFrame(e, v, r);
  }

  lemma {:induction false} RefsBefore(d: seq<Stage>, m: nat, r: string)
    requires AllOnly(d) && WellScoped(d) && m < |d| && r in Refs(d[m])
    ensures r in Free(d) || exists i :: 0 <= i < m && NameAt(d, i) == r
  {
    OnlyAtOf(d, m);
    CutAt(d, m);
    if r in Declared(d[..m]) {
      DeclaredIff(d[..m], r);
      var x :| x in d[..m] && x.alias == Some(r);
      var i :| 0 <= i < m && d[..m][i] == x;
      assert NameAt(d, i) == r;
    }
  }

  /** What a stage before the cut, or the cut stage itself, refers to is not changed. */
  lemma {:induction false} EarlierUnchanged(d: seq<Stage>, k: nat, m: nat, r: string)
    requires AllOnly(d) && WellScoped(d) && m <= k < |d| && r in Refs(d[m])
    ensures r !in Changed(d, k)
  {
    RefsBefore(d, m, r);
    if r in Changed(d, k) {
      TouchedLater(d, k, |d|, r);
      var j :| k <= j < |d| && NameAt(d, j) == r;
      OnlyAtOf(d, j);
    }
  }

  lemma {:induction false} RefKnown(d: seq<Stage>, alias: string, u: seq<Stage>, m: nat, r: string)
    requires AllOnly(d) && m < |d| && alias !in Declared(d) + Free(d) && Between(d, alias, u) && r in Refs(d[m])
    ensures r != alias && r !in Declared(u)
  {
    assert d[m] in d;
    RefsOfMember(d, d[m]);
  }

  lemma {:induction false} WholeImage(d: seq<Stage>, m: nat)
    requires AllOnly(d) && WellScoped(d) && m < |d|
    ensures Resolve(EnvOf(map[], d), NameAt(d, m)) == ImageOf(EnvOf(map[], d), d[m])
  {
    OnlyAtOf(d, m);
    assert Uniform(d);
    UniformSettles(d);
    assert d[m] in d;
  }

  /** Behind the first load, the restored stage has its own image again. */
  lemma {:induction false} RestoredDiffers(d: seq<Stage>, k: nat, m: nat, g: Env, r: string)
    requires AllOnly(d) && WellScoped(d) && k < |d| && m < |d| && k != m && r in Refs(d[m])
    requires forall q :: q in Refs(d[m]) + Refs(d[k]) ==>
                           (Resolve(g, q) != Resolve(EnvOf(map[], d), q) <==> q in Changed(d, k))
    ensures Resolve(EnvOf(g, Restored(d, k, k < m)), r) != Resolve(EnvOf(map[], d), r)
            <==> r in Changed(d, k) - {NameAt(d, k)}
  {
    var whole := EnvOf(map[], d);
    assert [d[k]][..0] == [];
    OnlyAtOf(d, k);
    if m < k {
      EarlierUnchanged(d, k, m, r);
    } else if d[k].body != [] {
      OneStage(d[k]);
      forall q | q in Refs(d[k]) ensures Resolve(g, q) == Resolve(whole, q) {
        EarlierUnchanged(d, k, k, q);
      }
      StageExact(g, whole, d[k]);
      WholeImage(d, k);
    }
  }

  /** Stage m does not depend on stage k through a stage that the second load does not repeat. */
  ghost predicate SecondSafe(d: seq<Stage>, k: nat, m: nat)
    requires AllOnly(d) && k < |d| && m < |d|
  {
    if d[m].body == [] then NameAt(d, m) !in Changed(d, k)
    else Refs(d[m]) !! Changed(d, k) - {NameAt(d, k)}
  }

  lemma {:induction false} AliasImage(e: Env, x: Stage, alias: string, more: seq<Stage>)
    requires x.alias.Some? && x.alias.value !in Refs(x) && alias !in Declared(more)
    ensures Resolve(EnvOf(e, Cut(x, alias) + more), alias)
            == if x.body == [] then Resolve(e, x.alias.value) else ImageOf(e, x)
  {
    EnvConcat(e, Cut(x, alias), more);
    EnvFrame(EnvOf(e, Cut(x, alias)), more, alias);
    if x.body == [] {
      assert Cut(x, alias) == [SplitPair(x, alias)[1]];
      OneStage(SplitPair(x, alias)[1]);
    } else {
      assert Cut(x, alias) == SplitPair(x, alias);
      PairEnv(x, alias, e);
    }
  }

  lemma {:induction false} OwnNameNotRef(d: seq<Stage>, m: nat)
    requires AllOnly(d) && WellScoped(d) && m < |d|
    ensures NameAt(d, m) !in Refs(d[m])
  {
    OnlyAtOf(d, m);
    if NameAt(d, m) in Refs(d[m]) {
      RefsBefore(d, m, NameAt(d, m));
    }
  }

  lemma {:induction false} RestoredNames(d: seq<Stage>, k: nat, here: bool, r: string)
    requires AllOnly(d) && k < |d| && r != NameAt(d, k)
    ensures r !in Declared(Restored(d, k, here))
  {
    OnlyAtOf(d, k);
    OneStage(d[k]);
  }

  /** The image the alias has in the end, in terms of what stands behind the first load. */
  lemma {:induction false} SecondAlias(d: seq<Stage>, k: nat, m: nat, alias: string, g: Env)
    requires AllOnly(d) && WellScoped(d) && k < |d| && m < |d| && k != m && alias !in Declared(d) + Free(d)
    ensures var h := EnvOf(g, Restored(d, k, k < m));
            Resolve(EnvOf(g, Restored(d, k, k < m) + Cut(d[m], alias) + Restored(d, k, k > m)), alias)
            == if d[m].body == [] then Resolve(g, NameAt(d, m)) else ImageOf(h, d[m])
  {
    var x, y := Restored(d, k, k < m), Restored(d, k, k > m);
    OnlyAtOf(d, k);
    OnlyAtOf(d, m);
    OwnNameNotRef(d, m);
    RestoredNames(d, k, k > m, alias);
    RestoredNames(d, k, k < m, NameAt(d, m));
    AliasImage(EnvOf(g, x), d[m], alias, y);
    EnvFrame(g, x, NameAt(d, m));
    EnvConcat(g, x, Cut(d[m], alias) + y);
    assert x + Cut(d[m], alias) + y == x + (Cut(d[m], alias) + y);
  }

  /** Behind any g that differs from the file where the first load does, the alias of the second
      load means its target exactly under this condition. */
  lemma {:induction false} SecondBehind(d: seq<Stage>, k: nat, m: nat, alias: string, g: Env)
    requires AllOnly(d) && WellScoped(d) && k < |d| && m < |d| && k != m && alias !in Declared(d) + Free(d)
    requires forall q :: q in Refs(d[m]) + Refs(d[k]) + {NameAt(d, m)} ==>
                           (Resolve(g, q) != Resolve(EnvOf(map[], d), q) <==> q in Changed(d, k))
    ensures Resolve(EnvOf(g, Restored(d, k, k < m) + Cut(d[m], alias) + Restored(d, k, k > m)), alias)
            == Resolve(EnvOf(map[], d), NameAt(d, m))
            <==> SecondSafe(d, k, m)
  {
    SecondAlias(d, k, m, alias, g);
    if d[m].body != [] {
      var h := EnvOf(g, Restored(d, k, k < m));
      WholeImage(d, m);
      StageExact(h, EnvOf(map[], d), d[m]);
      forall r | r in Refs(d[m])
        ensures Resolve(h, r) != Resolve(EnvOf(map[], d), r) <==> r in Changed(d, k) - {NameAt(d, k)}
      {
        RestoredDiffers(d, k, m, g, r);
      }
    }
  }

  /** The stages k and m of one file, both used: after deduplication the alias means stage m
      exactly if stage m does not depend on stage k through a stage that is not repeated. */
  lemma {:induction false} SecondTargetStages(d: seq<Stage>, k: nat, m: nat, alias: string, u: seq<Stage>)
    requires AllOnly(d) && WellScoped(d) && PlainBodies(d) && k < |d| && m < |d| && k != m
    requires alias !in Declared(d) + Free(d) && Between(d, alias, u)
    ensures Resolve(EnvOf(map[], KeepFirst(SplitStage(d, k, alias) + u + SplitStage(d, m, alias))), alias)
            == Resolve(EnvOf(map[], d), NameAt(d, m))
            <==> SecondSafe(d, k, m)
  {
    var first := SplitStage(d, k, alias);
    var v := BothLoads(d, k, m, alias, u);
    var g := EnvOf(EnvOf(map[], first), v);
    FirstDiffers(d, k, alias);
    forall q | q in Refs(d[m]) + Refs(d[k]) + {NameAt(d, m)}
      ensures Resolve(g, q) != Resolve(EnvOf(map[], d), q) <==> q in Changed(d, k)
    {
      QueryKnown(d, k, m, alias, v, q);
      DifferAfter(EnvOf(map[], first), EnvOf(map[], d), Changed(d, k), alias, v, q);
    }
    SecondBehind(d, k, m, alias, g);
    ThreeParts(first, v, Restored(d, k, k < m) + Cut(d[m], alias) + Restored(d, k, k > m));
  }

  lemma {:induction false} QueryKnown(d: seq<Stage>, k: nat, m: nat, alias: string, v: seq<Stage>, q: string)
    requires AllOnly(d) && k < |d| && m < |d| && alias !in Declared(d) + Free(d) && Between(d, alias, v)
    requires q in Refs(d[m]) + Refs(d[k]) + {NameAt(d, m)}
    ensures q != alias && q !in Declared(v)
  {
    OnlyAtOf(d, m);
    if q in Refs(d[m]) {
      RefKnown(d, alias, v, m, q);
    } else if q in Refs(d[k]) {
      RefKnown(d, alias, v, k, q);
    }
  }
}
