/** The order of the names that come out of an included file: it was scoped, one stage was split,
    and repeats were dropped. The including file scopes the result again, so the alias and all that
    it is built on have to be met in order; the stages behind the alias need not be. */
module ScopedOrder {
  import opened Dockerfile
  import opened Renaming
  import opened ScopeStages
  import opened RebasedStages
  import opened DeduplicateStages
  import opened PostProcessDockerfile

  // The stages that an alias can depend on

  /** The stages up to the first that is called n. */
  function Upto(c: seq<Stage>, n: string): seq<Stage> {
    if c == [] then []
    else if n in Declared(c[..|c| - 1]) then Upto(c[..|c| - 1], n)
    else c
  }

  lemma {:induction false} UptoPrefix(c: seq<Stage>, n: string)
    ensures Upto(c, n) <= c
    ensures n in Declared(c) ==> n in Declared(Upto(c, n))
    ensures Free(Upto(c, n)) <= Free(c) && Declared(Upto(c, n)) <= Declared(c)
  {
    if c != [] && n in Declared(c[..|c| - 1]) {
      UptoPrefix(c[..|c| - 1], n);
    }
  }

  lemma {:induction false} UptoWithin(c: seq<Stage>, n: string, m: nat)
    requires m <= |c| && n in Declared(c[..m])
    ensures Upto(c, n) <= c[..m]
  {
    if m == |c| {
      UptoPrefix(c, n);
      assert c[..m] == c;
    } else {
      var before := c[..|c| - 1];
      assert before[..m] == c[..m];
      DeclaredPrefix(before, m);
      UptoWithin(before, n, m);
    }
  }

  lemma {:induction false} DeclaredPrefix(c: seq<Stage>, m: nat)
    requires m <= |c|
    ensures Declared(c[..m]) <= Declared(c)
  {
    assert c == c[..m] + c[m..];
    NamesConcat(c[..m], c[m..]);
  }

  lemma {:induction false} UptoThinned(s: seq<Stage>, t: seq<Stage>, n: string, x: Stage)
    requires Thinned(s, t) && x in Upto(t, n)
    ensures x in Upto(s, n)
  {
    if s != [] {
      var before := s[..|s| - 1];
      UptoPrefix(t, n);
      ThinnedMembers(s, t, x);
      if t != [] && t[|t| - 1] == s[|s| - 1] && Thinned(before, t[..|t| - 1]) {
        ThinnedDeclares(before, t[..|t| - 1]);
        if n in Declared(before) {
          UptoThinned(before, t[..|t| - 1], n, x);
        }
      } else if n in Declared(before) {
        UptoThinned(before, t, n, x);
      }
    }
  }

  // Inserting a name

  lemma {:induction false} InsertOrdered(a: seq<string>, m: string, b: seq<string>, x: string)
    requires OrderedFor(a + b, x)
    requires x in a || (m <= x ==> m == x)
    ensures OrderedFor(a + [m] + b, x)
  {
    FirstStartConcat(a, b, x);
    FirstStartConcat(a, [m], x);
    FirstStartConcat(a + [m], b, x);
    FirstStartOf(a, x);
    assert [m][..0] == [];
    FirstStartOf(b, x);
  }

  // Scoping

  lemma {:induction false} ScopedStarts(prefix: string, n: string, u: string)
    ensures ScopedName(prefix, n) <= ScopedName(prefix, u) <==> n <= u
    ensures ScopedName(prefix, n) <= u ==> prefix <= u && prefix != u
  {
    var m, v := ScopedName(prefix, n), ScopedName(prefix, u);
    assert m[|prefix| + 2..] == n && v[|prefix| + 2..] == u;
    if m <= v {
      assert v[..|m|][|prefix| + 2..] == u[..|n|];
    }
    if n <= u {
      assert v[..|m|] == prefix + "--" + u[..|n|];
    }
    if m <= u {
      assert m[..|prefix|] == u[..|prefix|];
    }
  }

  function ScopedNames(prefix: string, names: seq<string>): seq<string> {
    seq(|names|, i requires 0 <= i < |names| => ScopedName(prefix, names[i]))
  }

  lemma {:induction false} ScopedNamesSnoc(prefix: string, names: seq<string>)
    requires names != []
    ensures ScopedNames(prefix, names)
         == ScopedNames(prefix, names[..|names| - 1]) + [ScopedName(prefix, names[|names| - 1])]
  {
  }

  lemma {:induction false} FirstStartScoped(prefix: string, names: seq<string>, u: string)
    ensures FirstStart(ScopedNames(prefix, names), ScopedName(prefix, u)) ==
            match FirstStart(names, u) case Some(n) => Some(ScopedName(prefix, n)) case None => None
  {
    if names != [] {
      var before, s := names[..|names| - 1], names[|names| - 1];
      FirstStartScoped(prefix, before, u);
      ScopedNamesSnoc(prefix, names);
      var more := ScopedNames(prefix, before) + [ScopedName(prefix, s)];
      assert more[..|more| - 1] == ScopedNames(prefix, before);
      ScopedStarts(prefix, s, u);
    }
  }

  lemma {:induction false} ScopedOrdered(prefix: string, names: seq<string>, u: string)
    requires OrderedFor(names, u)
    ensures OrderedFor(ScopedNames(prefix, names), ScopedName(prefix, u))
  {
    FirstStartScoped(prefix, names, u);
  }

  /** Nothing scoped starts a string that the prefix does not start. */
  lemma {:induction false} ScopedElsewhere(prefix: string, names: seq<string>, e: string)
    requires prefix <= e ==> prefix == e
    ensures OrderedFor(ScopedNames(prefix, names), e)
    ensures forall n :: n in ScopedNames(prefix, names) ==> !(n <= e)
  {
    forall n | n in ScopedNames(prefix, names) ensures !(n <= e) {
      var i :| 0 <= i < |names| && n == ScopedName(prefix, names[i]);
      ScopedStarts(prefix, names[i], e);
    }
    NoneStarts(ScopedNames(prefix, names), e);
  }

  /** The stages of a file after scoping. */
  function ScopedStagesOf(prefix: string, d: seq<Stage>): seq<Stage> {
    RenameStages(ScopeRenaming(prefix, Names(d)), Rebased(prefix, Names(d), d))
  }

  /** The names of some of its stages. */
  lemma {:induction false} NamesOfPart(prefix: string, names: seq<string>, part: seq<Stage>)
    requires forall n :: n in Names(part) ==> n in names
    ensures Names(RenameStages(ScopeRenaming(prefix, names), Rebased(prefix, names, part)))
         == ScopedNames(prefix, Names(part))
  {
    var rho, was := ScopeRenaming(prefix, names), Names(part);
    RebasedNames(prefix, names, part);
    NamesOfRenamed(rho, Rebased(prefix, names, part));
    forall i | 0 <= i < |was| ensures Apply(rho, was[i]) == ScopedName(prefix, was[i]) {
      assert was[i] in was;
    }
  }

  lemma {:induction false} BaseRenamed(prefix: string, d: seq<Stage>, i: nat)
    requires i < |d|
    ensures |ScopedStagesOf(prefix, d)| == |d|
    ensures ScopedStagesOf(prefix, d)[i].base
            == Apply(ScopeRenaming(prefix, Names(d)), TakenBy(prefix, Names(d), d[i].base))
  {
  }

  /** A base with an earlier stage is taken for one of the stages before. */
  lemma {:induction false} TakenBefore(d: seq<Stage>, i: nat, b: string)
    requires i < |d| && b in Declared(d[..i])
    ensures var u := TakenFor(Names(d), b); u in Names(d[..i]) && u in Names(d) && OrderedFor(Names(d), u)
  {
    assert d == d[..i] + d[i..];
    NamesConcat(d[..i], d[i..]);
    DeclaredIff(d[..i], b);
    StartDeclared(Names(d[..i]), Names(d[i..]), b);
    TakenIsOrdered(Names(d), b);
  }

  /** The base of stage i after scoping: external, or one of the names before. */
  lemma {:induction false} ScopedBase(prefix: string, d: seq<Stage>, i: nat)
    requires NamesApart(prefix, d) && i < |d| && TakenBy(prefix, Names(d), d[i].base) == TakenFor(Names(d), d[i].base)
    ensures var b := ScopedStagesOf(prefix, d)[i].base;
            || b in Free(d)
            || exists u :: u in Names(d[..i]) && b == ScopedName(prefix, u) && OrderedFor(Names(d), u)
  {
    BaseRenamed(prefix, d, i);
    if d[i].base in Declared(d[..i]) {
      TakenBefore(d, i, d[i].base);
    } else {
      BaseFree(d, i);
      FreeTaken(d, d[i].base);
    }
  }

  lemma {:induction false} FreeTaken(d: seq<Stage>, r: string)
    requires r in Free(d) && forall n :: n in Declared(d) ==> !(n <= r)
    ensures TakenFor(Names(d), r) == r && r !in Names(d)
  {
    forall n | n in Names(d) ensures !(n <= r) {
      DeclaredIff(d, n);
    }
    NoneStarts(Names(d), r);
    assert r <= r;
  }

  lemma {:induction false} BaseFree(d: seq<Stage>, i: nat)
    requires i < |d| && d[i].base !in Declared(d[..i])
    ensures d[i].base in Free(d)
  {
    assert d == d[..i + 1] + d[i + 1..];
    FreeConcat(d[..i + 1], d[i + 1..]);
    assert d[..i + 1][..i] == d[..i];
  }

  // The split file

  /** What the lemmas below assume of an included file, its prefix and its alias: no base is taken
      for two names in turn, and the wanted name is met in order. */
  ghost predicate Splittable(prefix: string, alias: string, d: seq<Stage>, k: nat) {
    && NamesApart(prefix, d) && OnlyAt(ScopedStagesOf(prefix, d), k)
    && (forall x :: x in d ==> TakenBy(prefix, Names(d), x.base) == TakenFor(Names(d), x.base))
    && (forall e :: e in Free(d) ==> !(prefix <= e) && !(alias <= e))
    && (prefix <= alias ==> prefix == alias)
    && OrderedFor(Names(d), d[k].alias.value)
  }

  function NamesTo(prefix: string, d: seq<Stage>, k: nat): seq<string>
    requires k < |d|
  {
    ScopedNames(prefix, Names(d[..k + 1]))
  }

  lemma {:induction false} NamesCut(d: seq<Stage>, k: nat)
    requires k < |d|
    ensures Names(d) == Names(d[..k + 1]) + Names(d[k + 1..])
    ensures d[k].alias.Some? ==> Names(d[..k + 1]) == Names(d[..k]) + [d[k].alias.value]
  {
    assert d == d[..k + 1] + d[k + 1..];
    NamesConcat(d[..k + 1], d[k + 1..]);
    assert d[..k + 1][..k] == d[..k] && d[..k + 1][k] == d[k];
  }

  lemma {:induction false} PartsRenamed(rho: Renaming, prefix: string, names: seq<string>, d: seq<Stage>, k: nat)
    requires k < |d|
    ensures var s := RenameStages(rho, Rebased(prefix, names, d));
            && s[..k + 1] == RenameStages(rho, Rebased(prefix, names, d[..k + 1]))
            && s[k + 1..] == RenameStages(rho, Rebased(prefix, names, d[k + 1..]))
  {
  }

  lemma {:induction false} ScopedParts(prefix: string, d: seq<Stage>, k: nat)
    requires k < |d|
    ensures Names(ScopedStagesOf(prefix, d)[..k + 1]) == NamesTo(prefix, d, k)
    ensures Names(ScopedStagesOf(prefix, d)[k + 1..]) == ScopedNames(prefix, Names(d[k + 1..]))
  {
    var names := Names(d);
    NamesCut(d, k);
    PartsRenamed(ScopeRenaming(prefix, names), prefix, names, d, k);
    NamesOfPart(prefix, names, d[..k + 1]);
    NamesOfPart(prefix, names, d[k + 1..]);
  }

  lemma {:induction false} ScopedNamesConcat(prefix: string, a: seq<string>, b: seq<string>)
    ensures ScopedNames(prefix, a + b) == ScopedNames(prefix, a) + ScopedNames(prefix, b)
  {
  }

  lemma {:induction false} TwoThenMore(a: seq<string>, x: string, y: string, b: seq<string>)
    ensures a + [x, y] + b == (a + [x]) + [y] + b
  {
  }

  lemma {:induction false} SplitNamesOf(prefix: string, alias: string, d: seq<Stage>, k: nat)
    requires OnlyAt(ScopedStagesOf(prefix, d), k)
    ensures var more := ScopedNames(prefix, Names(d[k + 1..]));
            && ScopedNames(prefix, Names(d)) == NamesTo(prefix, d, k) + more
            && Names(SplitStage(ScopedStagesOf(prefix, d), k, alias)) == NamesTo(prefix, d, k) + [alias] + more
  {
    var s := ScopedStagesOf(prefix, d);
    SplitNames(s, k, alias);
    NamesCut(s, k);
    TwoThenMore(Names(s[..k]), s[k].alias.value, alias, Names(s[k + 1..]));
    NamesCut(d, k);
    ScopedNamesConcat(prefix, Names(d[..k + 1]), Names(d[k + 1..]));
    ScopedParts(prefix, d, k);
  }

  /** A name up to the split stage, if it was met in order, is met in order afterwards. */
  lemma {:induction false} EarlierOrdered(prefix: string, alias: string, d: seq<Stage>, k: nat, u: string)
    requires Splittable(prefix, alias, d, k) && u in Names(d[..k + 1]) && OrderedFor(Names(d), u)
    ensures OrderedFor(Names(SplitStage(ScopedStagesOf(prefix, d), k, alias)), ScopedName(prefix, u))
  {
    SplitNamesOf(prefix, alias, d, k);
    ScopedOrdered(prefix, Names(d), u);
    var i :| 0 <= i < |Names(d[..k + 1])| && Names(d[..k + 1])[i] == u;
    assert NamesTo(prefix, d, k)[i] == ScopedName(prefix, u);
    InsertOrdered(NamesTo(prefix, d, k), alias, ScopedNames(prefix, Names(d[k + 1..])), ScopedName(prefix, u));
  }

  lemma {:induction false} ElsewhereOrdered(prefix: string, alias: string, d: seq<Stage>, k: nat, e: string)
    requires Splittable(prefix, alias, d, k) && (prefix <= e ==> prefix == e) && (alias <= e ==> alias == e)
    ensures OrderedFor(Names(SplitStage(ScopedStagesOf(prefix, d), k, alias)), e)
  {
    SplitNamesOf(prefix, alias, d, k);
    ScopedElsewhere(prefix, Names(d), e);
    InsertOrdered(NamesTo(prefix, d, k), alias, ScopedNames(prefix, Names(d[k + 1..])), e);
  }

  lemma {:induction false} NamesGrow(d: seq<Stage>, i: nat, m: nat, u: string)
    requires i <= m <= |d| && u in Names(d[..i])
    ensures u in Names(d[..m])
  {
    assert d[..m] == d[..i] + d[i..m];
    NamesConcat(d[..i], d[i..m]);
  }

  lemma {:induction false} ScopedBaseOrdered(prefix: string, alias: string, d: seq<Stage>, k: nat, i: nat)
    requires Splittable(prefix, alias, d, k) && i <= k
    ensures OrderedFor(Names(SplitStage(ScopedStagesOf(prefix, d), k, alias)), ScopedStagesOf(prefix, d)[i].base)
  {
    var b := ScopedStagesOf(prefix, d)[i].base;
    assert d[i] in d;
    ScopedBase(prefix, d, i);
    if b in Free(d) {
      ElsewhereOrdered(prefix, alias, d, k, b);
    } else {
      var u :| u in Names(d[..i]) && b == ScopedName(prefix, u) && OrderedFor(Names(d), u);
      NamesGrow(d, i, k + 1, u);
      EarlierOrdered(prefix, alias, d, k, u);
    }
  }

  /** Up to the alias there are the stages before the split and the two of the split. */
  lemma {:induction false} SplitBefore(s: seq<Stage>, k: nat, alias: string)
    requires k < |s| && s[k].alias.Some?
    ensures forall x :: x in Upto(SplitStage(s, k, alias), alias) ==> x in s[..k] || x in SplitPair(s[k], alias)
    ensures forall x :: x in SplitPair(s[k], alias) ==>
              x == SplitPair(s[k], alias)[0] || x.base == TextOf(s[k].alias)
    ensures SplitPair(s[k], alias)[0].base == s[k].base
  {
    var t, p := SplitStage(s, k, alias), SplitPair(s[k], alias);
    assert t[..k + 2] == s[..k] + p;
    NamesConcat(s[..k], p);
    PairParts(s[k], alias);
    UptoWithin(t, alias, k + 2);
  }

  /** The alias and every stage up to it are met in order. */
  lemma {:induction false} SplitOrdered(prefix: string, alias: string, d: seq<Stage>, k: nat, x: Stage)
    requires Splittable(prefix, alias, d, k) && x in Upto(SplitStage(ScopedStagesOf(prefix, d), k, alias), alias)
    ensures OrderedFor(Names(SplitStage(ScopedStagesOf(prefix, d), k, alias)), x.base)
  {
    var s := ScopedStagesOf(prefix, d);
    SplitBefore(s, k, alias);
    if x in s[..k] {
      var i :| 0 <= i < k && s[i] == x;
      ScopedBaseOrdered(prefix, alias, d, k, i);
    } else if x == SplitPair(s[k], alias)[0] {
      ScopedBaseOrdered(prefix, alias, d, k, k);
    } else {
      LastNameOrdered(prefix, alias, d, k);
    }
  }

  lemma {:induction false} LastNameOrdered(prefix: string, alias: string, d: seq<Stage>, k: nat)
    requires Splittable(prefix, alias, d, k)
    ensures OrderedFor(Names(SplitStage(ScopedStagesOf(prefix, d), k, alias)),
                       TextOf(ScopedStagesOf(prefix, d)[k].alias))
  {
    var u := d[k].alias.value;
    NamesCut(d, k);
    assert u in Names(d[..k + 1]) && u in Names(d);
    EarlierOrdered(prefix, alias, d, k, u);
  }

  lemma {:induction false} OneNameMore(ss: seq<Stage>, x: Stage, b: string)
    ensures FirstStart(Names(ss + [x]), b) ==
            if FirstStart(Names(ss), b).Some? then FirstStart(Names(ss), b) else FirstStart(Names([x]), b)
  {
    NamesConcat(ss, [x]);
    FirstStartConcat(Names(ss), Names([x]), b);
  }

  lemma {:induction false} KnownNameLater(ss: seq<Stage>, x: Stage, b: string)
    requires x in ss
    ensures FirstStart(Names(ss + [x]), b) == FirstStart(Names(ss), b)
  {
    OneNameMore(ss, x, b);
    FirstStartOf(Names(ss), b);
    FirstStartOf(Names([x]), b);
    assert [x][..0] == [];
    if x.alias.Some? {
      DeclaredIff(ss, x.alias.value);
    }
  }

  lemma {:induction false} ThinnedFirst(s: seq<Stage>, t: seq<Stage>, b: string)
    requires Thinned(s, t)
    ensures FirstStart(Names(t), b) == FirstStart(Names(s), b)
  {
    if s != [] {
      var before, x := s[..|s| - 1], s[|s| - 1];
      assert s == before + [x];
      if t != [] && t[|t| - 1] == x && Thinned(before, t[..|t| - 1]) {
        var less := t[..|t| - 1];
        assert t == less + [x];
        ThinnedFirst(before, less, b);
        OneNameMore(before, x, b);
        OneNameMore(less, x, b);
      } else {
        ThinnedFirst(before, t, b);
        KnownNameLater(before, x, b);
      }
    }
  }

  /** The base of the alias line is met in order in what comes out exactly if the name of the
      wanted stage is met in order in the file. */
  lemma {:induction false} AliasBaseExact(prefix: string, alias: string, d: seq<Stage>, k: nat, r: seq<Stage>)
    requires OnlyAt(ScopedStagesOf(prefix, d), k) && Thinned(SplitStage(ScopedStagesOf(prefix, d), k, alias), r)
    ensures OrderedFor(Names(r), ScopedName(prefix, d[k].alias.value)) <==> OrderedFor(Names(d), d[k].alias.value)
  {
    var u, more := d[k].alias.value, ScopedNames(prefix, Names(d[k + 1..]));
    var a, b := NamesTo(prefix, d, k), ScopedName(prefix, u);
    SplitNamesOf(prefix, alias, d, k);
    ThinnedFirst(SplitStage(ScopedStagesOf(prefix, d), k, alias), r, b);
    FirstStartConcat(a, [alias], b);
    FirstStartConcat(a + [alias], more, b);
    NamesCut(d, k);
    FirstStartScoped(prefix, Names(d[..k + 1]), u);
    FirstStartOf(Names(d[..k + 1]), u);
    assert u in Names(d[..k + 1]);
    FirstStartConcat(Names(d[..k + 1]), Names(d[k + 1..]), u);
    var n := TakenFor(Names(d), u);
    assert ScopedName(prefix, n)[|prefix| + 2..] == n && b[|prefix| + 2..] == u;
  }

  /** What an including file gets is met in order, as far as the alias depends on it. */
  lemma {:induction false} ThinnedSplitOrdered(prefix: string, alias: string, d: seq<Stage>, k: nat, r: seq<Stage>)
    requires Splittable(prefix, alias, d, k)
    requires Thinned(SplitStage(ScopedStagesOf(prefix, d), k, alias), r)
    ensures OrderedFor(Names(r), alias)
    ensures forall x :: x in Upto(r, alias) ==> OrderedFor(Names(r), x.base)
  {
    var t := SplitStage(ScopedStagesOf(prefix, d), k, alias);
    ElsewhereOrdered(prefix, alias, d, k, alias);
    ThinnedOrdered(t, r, {alias});
    forall x | x in Upto(r, alias) ensures OrderedFor(Names(r), x.base) {
      UptoThinned(t, r, alias, x);
      SplitOrdered(prefix, alias, d, k, x);
      ThinnedOrdered(t, r, {x.base});
    }
  }
}
