/** The order in which the lines of an included file declare names. The scoping loop of the file reads
    them in this order, so a name that starts another one, or the file's own slug, has to stand in
    the right place. */
module LineOrder {
  import opened Dockerfile
  import opened ScopeStages
  import opened ScopedOrder
  import opened LoadDockerfile
  import opened IncludeGuards
  import opened TidyTrees
  import opened LineInvariants

  function OwnSlug(s: Site): string {
    s.w.slug(s.f.display)
  }

  ghost predicate BallOrdered(s: Site, n: nat, names: seq<string>) {
    forall b :: InBall(s, n, b) ==> OrderedFor(names, b)
  }

  ghost predicate NameFrom(s: Site, n: nat, m: string) {
    || (exists k: nat :: k < n && NamesStage(s.f, s.isRoot, k, m))
    || (exists i: nat :: i < n && UsedAt(s, i) && m in Names(Block(s, i)))
  }

  ghost predicate BlockIn(s: Site, i: nat, names: seq<string>)
    requires UsedAt(s, i)
  {
    forall m :: m in Names(Block(s, i)) ==> m in names
  }

  ghost predicate NoneBrought(s: Site, n: nat)
    requires n <= |s.f.items|
  {
    forall i :: 0 <= i < n ==> !Brings(s.w, s.f.items[i])
  }

  /** Up to a name that starts the file's slug there are only names of the file itself. */
  ghost predicate Early(s: Site, own: seq<string>, names: seq<string>) {
    forall j :: 0 <= j < |names| && names[j] <= OwnSlug(s) ==> names[..j + 1] <= own
  }

  /** The invariant: bases that matter are met in order, and what is declared before a name that
      starts the file's slug is the file's own. */
  ghost predicate InOrder(s: Site, n: nat, own: seq<string>, names: seq<string>)
    requires n <= |s.f.items|
  {
    && BallOrdered(s, n, names)
    && (forall m :: m in names ==> NameFrom(s, n, m))
    && (forall i: nat :: i < n && UsedAt(s, i) ==> BlockIn(s, i, names))
    && (forall u :: u in own ==> u in names)
    && (NoneBrought(s, n) ==> names == own)
    && Early(s, own, names)
  }

  /** What the instructions so far bring in has loaded. */
  ghost predicate AllLoaded(s: Site, n: nat)
    requires n <= |s.f.items|
  {
    forall i: nat :: i < n && Brings(s.w, s.f.items[i]) ==> UsedAt(s, i)
  }

  // Live bases

  lemma {:induction false} LiveMember(s: Site, i: nat, x: Stage)
    requires UsedAt(s, i) && x in Live(s, i)
    ensures x in Block(s, i)
  {
    UptoPrefix(Block(s, i), AliasAt(s, i));
  }

  lemma {:induction false} LiveBaseDeclared(s: Site, i: nat, b: string)
    requires SiteOk(s) && UsedAt(s, i) && b !in s.ext
    requires b == AliasAt(s, i) || exists x :: x in Live(s, i) && x.base == b
    ensures b in Names(Block(s, i)) && Owned(s.w, RefAt(s, i), b)
  {
    if b != AliasAt(s, i) {
      var x :| x in Live(s, i) && x.base == b;
      LiveMember(s, i, x);
      RefsOfMember(Block(s, i), x);
      assert b in Refs(x);
    }
    BlockNameOwned(s, i, b);
    DeclaredIff(Block(s, i), b);
  }

  lemma {:induction false} LiveBaseOrdered(s: Site, i: nat, b: string)
    requires SiteOk(s) && !s.isRoot && UsedAt(s, i)
    requires b == AliasAt(s, i) || exists x :: x in Live(s, i) && x.base == b
    ensures OrderedFor(Names(Block(s, i)), b)
  {
    assert BlockOrdered(s.w, RefAt(s, i), Block(s, i));
  }

  /** A name of a block starts no external image, no plain name and no name of another file. */
  lemma {:induction false} BlockNameElsewhere(s: Site, i: nat, n: string, b: string, j: nat)
    requires SiteOk(s) && !s.isRoot && UsedAt(s, i) && n in Names(Block(s, i))
    requires b in s.ext || PlainName(s, b)
             || (UsedAt(s, j) && Owned(s.w, RefAt(s, j), b) && RefAt(s, j).path != RefAt(s, i).path)
    ensures !(n <= b)
  {
    DeclaredIff(Block(s, i), n);
    BlockNameOwned(s, i, n);
    if b in s.ext {
      BlockNameNotExternal(s, i, n, b);
    } else if PlainName(s, b) {
      var k: nat :| NamesStage(s.f, s.isRoot, k, b);
      BlockNameNotPlain(s, i, n, k, b);
    } else if n <= b {
      NamesOfFilesApart(s, i, j, n, b);
    }
  }

  lemma {:induction false} BlockBaseOrdered(s: Site, i: nat, n: nat, b: string)
    requires SiteOk(s) && !s.isRoot && UsedAt(s, i) && InBall(s, n, b)
    ensures OrderedFor(Names(Block(s, i)), b)
  {
    var j: nat := 0;
    if b !in s.ext && !PlainName(s, b) {
      j :| j < n && UsedAt(s, j) && (b == AliasAt(s, j) || exists x :: x in Live(s, j) && x.base == b);
      LiveBaseDeclared(s, j, b);
    }
    if b !in s.ext && !PlainName(s, b) && RefAt(s, j).path == RefAt(s, i).path {
      SameBlock(s, i, j);
      LiveBaseOrdered(s, i, b);
    } else {
      forall m | m in Names(Block(s, i)) ensures !(m <= b) {
        BlockNameElsewhere(s, i, m, b, j);
      }
      NoneStarts(Names(Block(s, i)), b);
    }
  }

  // Instructions that bring in nothing

  lemma {:induction false} BallSame(s: Site, n: nat, b: string)
    requires n < |s.f.items| && !Brings(s.w, s.f.items[n]) && InBall(s, n + 1, b)
    ensures InBall(s, n, b)
  {
  }

  lemma {:induction false} PlainKeepsOrder(s: Site, n: nat, own: seq<string>, names: seq<string>)
    requires n < |s.f.items| && !Brings(s.w, s.f.items[n]) && InOrder(s, n, own, names)
    ensures InOrder(s, n + 1, own, names)
  {
    forall b | InBall(s, n + 1, b) ensures OrderedFor(names, b) {
      BallSame(s, n, b);
    }
    assert NoneBrought(s, n + 1) ==> NoneBrought(s, n);
  }

  /** The file's next own name is met in order, by what is declared before. */
  lemma {:induction false} NextNameOrdered(s: Site, n: nat, own: seq<string>, names: seq<string>, u: string, b: string)
    requires SiteOk(s) && !s.isRoot && 0 < n <= |s.f.items| && NamesStage(s.f, false, n - 1, u)
    requires InOrder(s, n, own, names) && own + [u] <= AllNames(s) && InBall(s, n, b) && u <= b
    ensures b in names + [u]
  {
    if b in s.ext {
    } else if PlainName(s, b) && OrderedFor(AllNames(s), b) {
      var rest := AllNames(s)[|own| + 1..];
      assert AllNames(s) == own + [u] + rest;
      FirstStartConcat(own + [u], rest, b);
      FirstStartOf(own + [u], b);
      assert u in own + [u];
    } else {
      var i: nat :| i < n && UsedAt(s, i) && (b == AliasAt(s, i) || exists x :: x in Live(s, i) && x.base == b);
      LiveBaseDeclared(s, i, b);
      assert BlockIn(s, i, names);
    }
  }

  lemma {:induction false} OwnNameEarly(s: Site, n: nat, own: seq<string>, names: seq<string>, u: string)
    requires SiteOk(s) && !s.isRoot && 0 < n <= |s.f.items| && NamesStage(s.f, false, n - 1, u)
    requires InOrder(s, n, own, names)
    ensures Early(s, own + [u], names + [u])
  {
    var more := names + [u];
    forall j | 0 <= j < |more| && more[j] <= OwnSlug(s) ensures more[..j + 1] <= own + [u] {
      if j < |names| {
        assert more[..j + 1] == names[..j + 1];
      } else {
        assert NothingBrought(s.w, s.f, n - 1);
        assert NoneBrought(s, n);
        assert more[..j + 1] == more;
      }
    }
  }

  lemma {:induction false} OwnNameKeepsOrder(s: Site, n: nat, own: seq<string>, names: seq<string>, u: string)
    requires SiteOk(s) && !s.isRoot && 0 < n <= |s.f.items| && NamesStage(s.f, false, n - 1, u)
    requires InOrder(s, n, own, names) && own + [u] <= AllNames(s)
    ensures InOrder(s, n, own + [u], names + [u])
  {
    forall b | InBall(s, n, b) ensures OrderedFor(names + [u], b) {
      if u <= b {
        NextNameOrdered(s, n, own, names, u, b);
      }
      OrderedMore(names, u, b);
    }
    OwnNameEarly(s, n, own, names, u);
    forall m | m in names + [u] ensures NameFrom(s, n, m) {
      if m !in names {
        assert NamesStage(s.f, s.isRoot, n - 1, m);
      }
    }
    forall i: nat | i < n && UsedAt(s, i) ensures BlockIn(s, i, names + [u]) {
      assert BlockIn(s, i, names);
    }
  }

  // Instructions that bring in stages

  /** The file was brought in before, so its bases were met before. */
  lemma {:induction false} BroughtBefore(s: Site, i: nat, n: nat, b: string)
    requires SiteOk(s) && i < n && UsedAt(s, i) && UsedAt(s, n) && RefAt(s, i).path == RefAt(s, n).path
    requires b == AliasAt(s, n) || exists x :: x in Live(s, n) && x.base == b
    ensures InBall(s, n, b)
  {
    SameBlock(s, i, n);
    assert LiveBase(s, n, b);
  }

  /** An earlier name that starts a base of the file: the file was brought in before. */
  lemma {:induction false} EarlierPlain(s: Site, n: nat, k: nat, m: string, b: string) returns (i: nat)
    requires SiteOk(s) && !s.isRoot && n < |s.f.items| && AllLoaded(s, n) && UsedAt(s, n)
    requires !s.f.items[n].CopyFile? && Owned(s.w, RefAt(s, n), b)
    requires k < n && NamesStage(s.f, s.isRoot, k, m) && m <= b
    ensures i < n && UsedAt(s, i) && RefAt(s, i).path == RefAt(s, n).path
  {
    PlainStart(s, n, k, m, b);
    i := FirstUse(s, k, n);
  }

  lemma {:induction false} FirstUse(s: Site, k: nat, n: nat) returns (i: nat)
    requires k < n < |s.f.items| && AllLoaded(s, n) && Brings(s.w, s.f.items[n]) && !s.f.items[n].CopyFile?
    requires BroughtBy(s.w, s.f, k, RefAt(s, n).path)
    ensures i < n && UsedAt(s, i) && RefAt(s, i).path == RefAt(s, n).path
  {
    i :| 0 <= i <= k && Brings(s.w, s.f.items[i]) && RefOfItem(s.f.items[i]).value.path == RefAt(s, n).path;
  }

  lemma {:induction false} EarlierBlock(s: Site, n: nat, i: nat, m: string, b: string)
    requires SiteOk(s) && UsedAt(s, n) && Owned(s.w, RefAt(s, n), b)
    requires UsedAt(s, i) && m in Names(Block(s, i)) && m <= b
    ensures RefAt(s, i).path == RefAt(s, n).path
  {
    DeclaredIff(Block(s, i), m);
    BlockNameOwned(s, i, m);
    NamesOfFilesApart(s, i, n, m, b);
  }

  lemma {:induction false} EarlierUse(s: Site, n: nat, m: string, b: string) returns (i: nat)
    requires SiteOk(s) && !s.isRoot && n < |s.f.items| && AllLoaded(s, n) && UsedAt(s, n)
    requires !s.f.items[n].CopyFile? && NameFrom(s, n, m) && m <= b && Owned(s.w, RefAt(s, n), b)
    ensures i < n && UsedAt(s, i) && RefAt(s, i).path == RefAt(s, n).path
  {
    if k: nat :| k < n && NamesStage(s.f, s.isRoot, k, m) {
      i := EarlierPlain(s, n, k, m, b);
    } else {
      i :| i < n && UsedAt(s, i) && m in Names(Block(s, i));
      EarlierBlock(s, n, i, m, b);
    }
  }

  lemma {:induction false} EarlierStart(s: Site, n: nat, m: string, b: string)
    requires SiteOk(s) && !s.isRoot && n < |s.f.items| && AllLoaded(s, n) && UsedAt(s, n)
    requires !s.f.items[n].CopyFile? && NameFrom(s, n, m) && m <= b && b !in s.ext
    requires b == AliasAt(s, n) || exists x :: x in Live(s, n) && x.base == b
    ensures InBall(s, n, b)
  {
    LiveBaseDeclared(s, n, b);
    var i := EarlierUse(s, n, m, b);
    BroughtBefore(s, i, n, b);
  }

  lemma {:induction false} PlainStart(s: Site, n: nat, k: nat, u: string, b: string)
    requires SiteOk(s) && !s.isRoot && UsedAt(s, n) && Owned(s.w, RefAt(s, n), b)
    requires NamesStage(s.f, s.isRoot, k, u) && u <= b
    ensures BroughtBy(s.w, s.f, k, RefAt(s, n).path)
  {
    RefersAt(s, n);
    forall t | NearSlug(s.w, s.f, RefAt(s, n).path, t) ensures !(t <= u) {
    }
    OwnedNotPrefix(s.w, s.f, RefAt(s, n), b, u);
    var t :| NearSlug(s.w, s.f, RefAt(s, n).path, t) && u <= t;
  }

  lemma {:induction false} AppendedOrdered(s: Site, n: nat, own: seq<string>, names: seq<string>, b: string)
    requires SiteOk(s) && !s.isRoot && n < |s.f.items| && AllLoaded(s, n) && UsedAt(s, n)
    requires !s.f.items[n].CopyFile? && InOrder(s, n, own, names) && InBall(s, n + 1, b)
    ensures OrderedFor(names + Names(Block(s, n)), b)
  {
    BlockBaseOrdered(s, n, n + 1, b);
    if Untouched(names, b) {
      NoneStarts(names, b);
    } else {
      var m :| m in names && m <= b;
      if !InBall(s, n, b) {
        EarlierStart(s, n, m, b);
      }
    }
    OrderedConcat(names, Names(Block(s, n)), b);
  }

  lemma {:induction false} BlockNotEarly(s: Site, i: nat, m: string)
    requires SiteOk(s) && !s.isRoot && UsedAt(s, i) && m in Names(Block(s, i))
    ensures !(m <= OwnSlug(s))
  {
    DeclaredIff(Block(s, i), m);
    BlockNameOwned(s, i, m);
    RefersAt(s, i);
    OwnedNotPrefix(s.w, s.f, RefAt(s, i), m, OwnSlug(s));
  }

  lemma {:induction false} NamesWithBlock(s: Site, n: nat, own: seq<string>, names: seq<string>, more: seq<string>)
    requires n < |s.f.items| && UsedAt(s, n) && InOrder(s, n, own, names)
    requires forall m :: m in more <==> m in names || m in Names(Block(s, n))
    ensures forall m :: m in more ==> NameFrom(s, n + 1, m)
    ensures forall i: nat :: i < n + 1 && UsedAt(s, i) ==> BlockIn(s, i, more)
    ensures forall u :: u in own ==> u in more
  {
    forall m | m in more ensures NameFrom(s, n + 1, m) {
      if m in names {
        assert NameFrom(s, n, m);
      }
    }
    forall i: nat | i < n + 1 && UsedAt(s, i) ensures BlockIn(s, i, more) {
      if i < n {
        assert BlockIn(s, i, names);
      }
    }
  }

  /** The names of a file are added behind the others. */
  lemma {:induction false} BlockAppendedInOrder(s: Site, n: nat, own: seq<string>, names: seq<string>)
    requires SiteOk(s) && !s.isRoot && n < |s.f.items| && AllLoaded(s, n) && UsedAt(s, n)
    requires !s.f.items[n].CopyFile? && InOrder(s, n, own, names)
    ensures InOrder(s, n + 1, own + (if s.f.items[n].Include? then [AliasAt(s, n)] else []),
                    names + Names(Block(s, n)))
  {
    var more := names + Names(Block(s, n));
    forall b | InBall(s, n + 1, b) ensures OrderedFor(more, b) {
      AppendedOrdered(s, n, own, names, b);
    }
    NamesWithBlock(s, n, own, names, more);
    forall j | 0 <= j < |more| && more[j] <= OwnSlug(s) ensures j < |names| {
      if j >= |names| {
        BlockNotEarly(s, n, more[j]);
      }
    }
    AppendedEarly(s, own, names, Names(Block(s, n)), if s.f.items[n].Include? then [AliasAt(s, n)] else []);
    DeclaredIff(Block(s, n), AliasAt(s, n));
    assert !NoneBrought(s, n + 1);
  }

  lemma {:induction false} AppendedEarly(s: Site, own: seq<string>, names: seq<string>, block: seq<string>,
                                         more: seq<string>)
    requires Early(s, own, names)
    requires forall j :: 0 <= j < |names + block| && (names + block)[j] <= OwnSlug(s) ==> j < |names|
    ensures Early(s, own + more, names + block)
  {
    var all := names + block;
    forall j | 0 <= j < |all| && all[j] <= OwnSlug(s) ensures all[..j + 1] <= own + more {
      assert all[..j + 1] == names[..j + 1] && names[j] == all[j];
    }
  }

  lemma {:induction false} CopiedOrdered(s: Site, n: nat, own: seq<string>, names: seq<string>, b: string)
    requires SiteOk(s) && !s.isRoot && n < |s.f.items| && UsedAt(s, n)
    requires InOrder(s, n, own, names) && InBall(s, n + 1, b)
    ensures OrderedFor(Names(Block(s, n)) + names, b)
  {
    BlockBaseOrdered(s, n, n + 1, b);
    if InBall(s, n, b) {
      OrderedConcat(Names(Block(s, n)), names, b);
    } else {
      LiveBaseDeclared(s, n, b);
      FirstStartOf(Names(Block(s, n)), b);
      FirstStartConcat(Names(Block(s, n)), names, b);
      assert b <= b;
    }
  }

  lemma {:induction false} EarlyOrigin(s: Site, n: nat, m: string) returns (k: nat)
    requires SiteOk(s) && !s.isRoot && NameFrom(s, n, m) && m <= OwnSlug(s)
    ensures k < |s.f.items| && NothingBrought(s.w, s.f, k)
  {
    if j: nat :| j < n && NamesStage(s.f, s.isRoot, j, m) {
      k := j;
    } else {
      var i: nat :| i < n && UsedAt(s, i) && m in Names(Block(s, i));
      BlockNotEarly(s, i, m);
    }
  }

  lemma {:induction false} CopyLeavesNoneEarly(s: Site, n: nat, k: nat, m: string)
    requires SiteOk(s) && !s.isRoot && k < |s.f.items| && s.f.items[k].CopyFile? && NameFrom(s, n, m)
    ensures !(m <= OwnSlug(s))
  {
    if m <= OwnSlug(s) {
      var j := EarlyOrigin(s, n, m);
    }
  }

  lemma {:induction false} NoneEarly(s: Site, n: nat, k: nat, own: seq<string>, names: seq<string>)
    requires SiteOk(s) && !s.isRoot && k < |s.f.items| && s.f.items[k].CopyFile?
    requires forall m :: m in names ==> NameFrom(s, n, m)
    ensures Early(s, own, names)
  {
    forall j | 0 <= j < |names| ensures !(names[j] <= OwnSlug(s)) {
      CopyLeavesNoneEarly(s, n, k, names[j]);
    }
  }

  /** The names of a file are put in front of the others. */
  lemma {:induction false} BlockCopiedInOrder(s: Site, n: nat, own: seq<string>, names: seq<string>)
    requires SiteOk(s) && !s.isRoot && n < |s.f.items| && UsedAt(s, n) && s.f.items[n].CopyFile?
    requires InOrder(s, n, own, names)
    ensures InOrder(s, n + 1, own, Names(Block(s, n)) + names)
  {
    var more := Names(Block(s, n)) + names;
    forall b | InBall(s, n + 1, b) ensures OrderedFor(more, b) {
      CopiedOrdered(s, n, own, names, b);
    }
    NamesWithBlock(s, n, own, names, more);
    NoneEarly(s, n + 1, n, own, more);
    assert !NoneBrought(s, n + 1);
  }

  // What the file's scoping loop takes the bases for

  lemma {:induction false} OwnIndex(w: World, f: File, isRoot: bool, n: nat, j: nat) returns (k: nat)
    requires n <= |f.items| && j < |OwnNames(w, f, isRoot, n)|
    ensures k < n && NameOf(w, isRoot, f.items[k]) == Some(OwnNames(w, f, isRoot, n)[j])
    ensures OwnNames(w, f, isRoot, n)[..j + 1] == OwnNames(w, f, isRoot, k + 1)
  {
    var before := OwnNames(w, f, isRoot, n - 1);
    if j < |before| {
      k := OwnIndex(w, f, isRoot, n - 1, j);
      assert OwnNames(w, f, isRoot, n)[..j + 1] == before[..j + 1];
    } else {
      k := n - 1;
    }
  }

  /** A name of a stage that starts the file's slug: nothing was brought in up to there. */
  lemma {:induction false} EarlyName(s: Site, j: nat) returns (k: nat)
    requires SiteOk(s) && !s.isRoot && j < |AllNames(s)| && AllNames(s)[j] <= OwnSlug(s)
    ensures k < |s.f.items| && NothingBrought(s.w, s.f, k)
    ensures AllNames(s)[..j + 1] == OwnNames(s.w, s.f, false, k + 1)
  {
    k := OwnIndex(s.w, s.f, false, |s.f.items|, j);
    var v := AllNames(s)[j];
    if NamesStage(s.f, false, k, v) {
    } else {
      assert s.f.items[k] in s.f.items;
      assert NearSlug(s.w, s.f, s.f.items[k].ref.path, v);
    }
  }

  /** No name in front of it starts a base of a file that is brought in. */
  lemma {:induction false} EarlyStartsNothing(s: Site, i: nat, j: nat, m: string, b: string)
    requires SiteOk(s) && !s.isRoot && UsedAt(s, i) && Owned(s.w, RefAt(s, i), b)
    requires j < |AllNames(s)| && AllNames(s)[j] <= OwnSlug(s) && m in AllNames(s)[..j + 1]
    ensures !(m <= b)
  {
    var k := EarlyName(s, j);
    var l := NameOrigin(s.w, s.f, false, k + 1, m);
    if m <= b {
      PlainStart(s, i, l, m, b);
    }
  }

  /** The base of a stage that was brought in is taken for the first name that starts it. */
  lemma {:induction false} BroughtBaseOnce(s: Site, names: seq<string>, i: nat, b: string)
    requires SiteOk(s) && !s.isRoot && InOrder(s, |s.f.items|, AllNames(s), names)
    requires UsedAt(s, i) && Owned(s.w, RefAt(s, i), b)
    ensures TakenBy(OwnSlug(s), names, b) == TakenFor(names, b)
  {
    forall l, j | 0 <= l < j < |names| && names[l] <= b ensures !(names[j] <= OwnSlug(s)) {
      if names[j] <= OwnSlug(s) {
        assert names[..j + 1] <= AllNames(s);
        assert names[..j + 1] == AllNames(s)[..j + 1] && names[..j + 1][l] == names[l] && names[..j + 1][j] == names[j];
        EarlyStartsNothing(s, i, j, names[l], b);
      }
    }
    TakenOnce(OwnSlug(s), names, b);
  }

  lemma {:induction false} ExternalBaseOnce(s: Site, n: nat, own: seq<string>, names: seq<string>, b: string)
    requires SiteOk(s) && !s.isRoot && n <= |s.f.items| && InOrder(s, n, own, names) && b in s.ext
    ensures Untouched(names, b) && TakenBy(OwnSlug(s), names, b) == TakenFor(names, b) == b
  {
    forall m | m in names ensures !(m <= b) {
      assert NameFrom(s, n, m);
      if k: nat :| k < n && NamesStage(s.f, s.isRoot, k, m) {
      } else {
        var i: nat :| i < n && UsedAt(s, i) && m in Names(Block(s, i));
        DeclaredIff(Block(s, i), m);
        BlockNameOwned(s, i, m);
        BlockNameNotExternal(s, i, m, b);
      }
    }
    TakenOf(OwnSlug(s), names, b);
    NoneStarts(names, b);
  }

  lemma {:induction false} TakenConcat(prefix: string, a: seq<string>, b: seq<string>, x: string)
    requires forall n :: n in b ==> !(n <= prefix)
    ensures Taken(prefix, a + b, x) == if Taken(prefix, a, x).Some? then Taken(prefix, a, x) else FirstStart(b, x)
  {
    if b == [] {
      assert a + b == a;
    } else {
      var less, last := b[..|b| - 1], b[|b| - 1];
      assert b == less + [last] && (a + b)[..|a + b| - 1] == a + less;
      assert last in b && forall n :: n in less ==> n in b;
      TakenConcat(prefix, a, less, x);
    }
  }

  lemma {:induction false} TakenAgree(prefix: string, a: seq<string>, b: seq<string>, c: seq<string>, x: string)
    requires forall n :: n in b || n in c ==> !(n <= prefix)
    requires TakenRight(prefix, a + c, x) && x in a + c && OrderedFor(a + b, x)
    ensures TakenBy(prefix, a + b, x) == x
  {
    TakenConcat(prefix, a, b, x);
    TakenConcat(prefix, a, c, x);
    FirstStartConcat(a, b, x);
    TakenOf(prefix, a + c, x);
    TakenOf(prefix, a, x);
    FirstStartOf(a, x);
    assert x <= x;
  }

  /** How far the names that start the file's slug reach. */
  lemma {:induction false} LastEarly(s: Site, names: seq<string>, n: nat) returns (j: nat)
    requires n <= |names|
    ensures j <= n && (j > 0 ==> names[j - 1] <= OwnSlug(s))
    ensures forall i :: j <= i < n ==> !(names[i] <= OwnSlug(s))
  {
    if n == 0 {
      j := 0;
    } else if names[n - 1] <= OwnSlug(s) {
      j := n;
    } else {
      j := LastEarly(s, names, n - 1);
    }
  }

  lemma {:induction false} OwnPlace(s: Site, names: seq<string>, j: nat, u: string) returns (l: nat)
    requires InOrder(s, |s.f.items|, AllNames(s), names) && u in AllNames(s) && u <= OwnSlug(s)
    requires j <= |names| && forall l :: j <= l < |names| ==> !(names[l] <= OwnSlug(s))
    requires names[..j] <= AllNames(s)
    ensures l < j && l < |AllNames(s)| && AllNames(s)[l] == u
  {
    l :| 0 <= l < |names| && names[l] == u;
    assert names[..j][l] == u;
  }

  /** An own name behind that place does not start the slug. */
  lemma {:induction false} OwnNotEarlier(s: Site, names: seq<string>, j: nat, i: nat)
    requires SiteOk(s) && !s.isRoot && InOrder(s, |s.f.items|, AllNames(s), names)
    requires j <= |names| && forall l :: j <= l < |names| ==> !(names[l] <= OwnSlug(s))
    requires names[..j] <= AllNames(s) && j <= i < |AllNames(s)|
    ensures !(AllNames(s)[i] <= OwnSlug(s))
  {
    if AllNames(s)[i] <= OwnSlug(s) {
      var l := OwnPlace(s, names, j, AllNames(s)[i]);
    }
  }

  lemma {:induction false} RestNotEarly(s: Site, names: seq<string>, j: nat, n: string)
    requires SiteOk(s) && !s.isRoot && InOrder(s, |s.f.items|, AllNames(s), names)
    requires j <= |names| && forall l :: j <= l < |names| ==> !(names[l] <= OwnSlug(s))
    requires names[..j] <= AllNames(s) && (n in names[j..] || n in AllNames(s)[j..])
    ensures !(n <= OwnSlug(s))
  {
    if n in names[j..] {
      var i :| 0 <= i < |names[j..]| && names[j..][i] == n;
      assert names[j + i] == n;
    } else {
      var i :| 0 <= i < |AllNames(s)[j..]| && AllNames(s)[j..][i] == n;
      assert AllNames(s)[j + i] == n;
      OwnNotEarlier(s, names, j, j + i);
    }
  }

  lemma {:induction false} OwnBaseOnce(s: Site, names: seq<string>, b: string)
    requires SiteOk(s) && !s.isRoot && InOrder(s, |s.f.items|, AllNames(s), names)
    requires b in AllNames(s) && OrderedFor(names, b) && TakenRight(OwnSlug(s), AllNames(s), b)
    ensures TakenBy(OwnSlug(s), names, b) == b
  {
    var own := AllNames(s);
    var j := LastEarly(s, names, |names|);
    if j > 0 {
      assert names[..(j - 1) + 1] <= own;
    }
    forall n | n in names[j..] || n in own[j..] ensures !(n <= OwnSlug(s)) {
      RestNotEarly(s, names, j, n);
    }
    TakenInParts(OwnSlug(s), names, own, j, b);
  }

  lemma {:induction false} TakenInParts(prefix: string, names: seq<string>, own: seq<string>, j: nat, x: string)
    requires j <= |names| && names[..j] <= own && forall n :: n in names[j..] || n in own[j..] ==> !(n <= prefix)
    requires TakenRight(prefix, own, x) && x in own && OrderedFor(names, x)
    ensures TakenBy(prefix, names, x) == x
  {
    var a, rest, others := names[..j], names[j..], own[j..];
    assert names == a + rest && own == a + others;
    TakenAgree(prefix, a, rest, others, x);
  }
}
