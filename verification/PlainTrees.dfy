/** Trees whose names BuildKit accepts as they are, and whose root and INCLUDEd files end with a named
    stage. For them the compiler is correct without any demand on gathered lines. */
module PlainTrees {
  import opened Dockerfile
  import opened ScopeStages
  import opened DeduplicateStages
  import opened SanitizeStageNames
  import opened PostProcessDockerfile
  import opened LoadDockerfile
  import opened IncludeGuards
  import opened Interpreter
  import opened TidyTrees
  import opened LineInvariants
  import opened LineMeaning
  import opened LineSteps
  import opened GatheredLines
  import opened IncludedFiles
  import opened UsedFiles
  import opened FlatRoots
  import opened RootIncludes
  import opened RootNames
  import opened CompilerCorrectness
  import opened TidyLoads

  // Short names

  predicate Short(n: string, size: nat) {
    NameChars(n) && |n| <= size
  }

  /** Slugs and stage names are in lower case and at most `size` long. */
  ghost predicate ShortNames(w: World, size: nat) {
    && (forall p :: p in w.files ==> Short(w.slug(w.files[p].display), size))
    && (forall p, item, isRoot :: p in w.files && item in w.files[p].items ==> ItemShort(w, isRoot, item, size))
  }

  predicate ItemShort(w: World, isRoot: bool, item: Item, size: nat) {
    && (StageName(isRoot, item).Some? ==> Short(StageName(isRoot, item).value, size))
    && (RefOfItem(item).Some? ==> Short(AliasSlug(w, item), size))
  }

  /** How long names get with `left` more levels below: every level adds a slug and two dashes. */
  function Longest(left: nat, size: nat): nat {
    if left == 0 then size else Longest(left - 1, size) + size + 2
  }

  lemma {:induction false} LongestBelow(less: nat, left: nat, size: nat)
    requires less < left
    ensures Longest(less, size) + size + 2 <= Longest(left, size)
  {
    if less + 1 < left {
      LongestBelow(less, left - 1, size);
    }
  }

  lemma {:induction false} LongestAtLeast(left: nat, size: nat)
    ensures size <= Longest(left, size)
  {
    if left > 0 {
      LongestAtLeast(left - 1, size);
    }
  }

  /** No walk from the root through its includes has more than `depth` edges. */
  ghost predicate WalksWithin(w: World, root: string, depth: nat) {
    forall ps :: Walk(w, ps) && ps[0] == root ==> |ps| - 1 <= depth
  }

  ghost predicate Leads(w: World, root: string, ps: seq<string>, path: string) {
    Walk(w, ps) && ps[0] == root && ps[|ps| - 1] == path
  }

  /** Every file that an instruction refers to lies at the end of a walk longer than `long`. */
  ghost predicate RefersDeeper(s: Site, root: string, long: nat) {
    forall item :: item in s.f.items && RefOfItem(item).Some? ==>
      exists qs :: Leads(s.w, root, qs, RefOfItem(item).value.path) && |qs| > long
  }

  lemma {:induction false} LeadsOn(w: World, root: string, ps: seq<string>, path: string, item: Item)
    requires Leads(w, root, ps, path) && path in w.files && item in w.files[path].items && RefOfItem(item).Some?
    ensures Leads(w, root, ps + [RefOfItem(item).value.path], RefOfItem(item).value.path)
  {
    assert Edge(w, path, RefOfItem(item).value.path);
    WalkSnoc(w, ps, RefOfItem(item).value.path);
  }

  lemma {:induction false} FileRefersDeeper(s: Site, root: string, ps: seq<string>, path: string)
    requires Leads(s.w, root, ps, path) && path in s.w.files && s.f == s.w.files[path]
    ensures RefersDeeper(s, root, |ps|)
  {
    forall item | item in s.f.items && RefOfItem(item).Some?
      ensures exists qs :: Leads(s.w, root, qs, RefOfItem(item).value.path) && |qs| > |ps|
    {
      LeadsOn(s.w, root, ps, path, item);
    }
  }

  lemma {:induction false} ScopedShort(prefix: string, n: string, size: nat, more: nat)
    requires Short(prefix, size) && Short(n, more)
    ensures Short(ScopedName(prefix, n), more + size + 2)
  {
    assert "--"[0] == '-' && "--"[1] == '-';
  }

  lemma {:induction false} OwnNamesShort(w: World, f: File, isRoot: bool, n: nat, size: nat, u: string)
    requires n <= |f.items| && u in OwnNames(w, f, isRoot, n)
    requires forall item :: item in f.items ==> ItemShort(w, isRoot, item, size)
    ensures Short(u, size)
  {
    if u in OwnNames(w, f, isRoot, n - 1) {
      OwnNamesShort(w, f, isRoot, n - 1, size, u);
    } else {
      assert f.items[n - 1] in f.items;
    }
  }

  ghost predicate FileShort(s: Site, size: nat) {
    forall item :: item in s.f.items ==> ItemShort(s.w, s.isRoot, item, size)
  }

  /** A name of the lines is an own name or a name of a file that was brought in. */
  lemma {:induction false} LineNameOrigin(s: Site, n: nat, ss: seq<Stage>, u: string) returns (i: nat)
    requires SiteOk(s) && Syntax(s, n, AllNames(s), ss) && u in Declared(ss)
    ensures u in AllNames(s) || (UsedAt(s, i) && u in Declared(Block(s, i)))
  {
    i := 0;
    DeclaredIff(ss, u);
    var x :| x in ss && x.alias == Some(u);
    if !OwnStage(s, AllNames(s), x) {
      i := BlockOf(s, n, x);
      DeclaredIff(Block(s, i), u);
    }
  }

  /** A name that such a file brings is its alias or a prefixed name of its lines. */
  lemma {:induction false} BlockOrigin(s: Site, root: string, i: nat, u: string)
    returns (t: Site, ss: seq<Stage>, prefix: string, m: string)
    requires Tidy(s.w, root, s.known) && Parent(s, root) && UsedAt(s, i) && ScopedAt(s, i) && u in Declared(Block(s, i))
    ensures RefAt(s, i).path in s.w.files && t.w == s.w && t.known == s.known && t.level == s.level + 1 <= s.w.maxDepth
    ensures t.f == s.w.files[RefAt(s, i).path] && !t.isRoot
    ensures Parent(t, root) && SiteOk(t) && Syntax(t, |t.f.items|, AllNames(t), ss)
    ensures prefix == s.w.slug(t.f.display)
    ensures u == AliasAt(s, i) || (m in Declared(ss) && u == ScopedName(prefix, m))
  {
    var c, doc, k := UsedOutcome(s, root, i);
    t, ss, prefix, m := ChildSite(s, i), Stages(Defaulted(doc)), c.prefix, "";
    DeclaredIff(Block(s, i), u);
    var x :| x in Block(s, i) && x.alias == Some(u);
    OutcomeNames(c, doc, k, x);
    if x.alias != c.alias {
      m :| m in Declared(ss) && x.alias == Some(ScopedName(c.prefix, m));
    }
  }

  /** A file at the end of a walk of `long` files, in a tree of short names that is `depth` deep. */
  ghost predicate ShortAt(s: Site, root: string, long: nat, depth: nat, size: nat) {
    && Tidy(s.w, root, s.known) && Parent(s, root) && (s.level > 0 || s.flat)
    && ShortNames(s.w, size) && FileShort(s, size)
    && WalksWithin(s.w, root, depth) && 0 < long <= depth + 1 && RefersDeeper(s, root, long)
  }

  /** The names in its lines. */
  lemma {:induction false} LineNamesShort(s: Site, root: string, long: nat, depth: nat, n: nat, ss: seq<Stage>,
                                          size: nat, left: nat, u: string)
    requires ShortAt(s, root, long, depth, size) && left == depth + 1 - long
    requires SiteOk(s) && Syntax(s, n, AllNames(s), ss) && u in Declared(ss)
    ensures Short(u, Longest(left, size))
    decreases FuelAt(s), 1
  {
    var i := LineNameOrigin(s, n, ss, u);
    if u in AllNames(s) {
      OwnNamesShort(s.w, s.f, s.isRoot, |s.f.items|, size, u);
      LongestAtLeast(left, size);
    } else {
      AllScoped(s, i);
      BlockNamesShort(s, root, long, depth, i, size, left, u);
    }
  }

  lemma {:induction false} ChildDeeper(s: Site, root: string, long: nat, depth: nat, i: nat) returns (qs: seq<string>)
    requires WalksWithin(s.w, root, depth) && RefersDeeper(s, root, long) && i < |s.f.items|
    requires Brings(s.w, s.f.items[i])
    ensures Leads(s.w, root, qs, RefAt(s, i).path) && long < |qs| <= depth + 1
  {
    assert s.f.items[i] in s.f.items;
    qs :| Leads(s.w, root, qs, RefAt(s, i).path) && |qs| > long;
  }

  lemma {:induction false} UsedFileShort(t: Site, path: string, size: nat)
    requires ShortNames(t.w, size) && path in t.w.files && t.f == t.w.files[path]
    ensures FileShort(t, size) && Short(t.w.slug(t.f.display), size)
  {
  }

  lemma {:induction false} ChildShortAt(s: Site, root: string, long: nat, depth: nat, i: nat, size: nat, t: Site)
    returns (more: nat)
    requires ShortAt(s, root, long, depth, size) && i < |s.f.items| && Brings(s.w, s.f.items[i])
    requires RefAt(s, i).path in s.w.files && t.w == s.w && t.known == s.known && t.f == s.w.files[RefAt(s, i).path]
    requires Parent(t, root) && t.level > 0
    ensures long < more && ShortAt(t, root, more, depth, size) && Short(s.w.slug(t.f.display), size)
  {
    var qs := ChildDeeper(s, root, long, depth, i);
    more := |qs|;
    UsedFileShort(t, RefAt(s, i).path, size);
    FileRefersDeeper(t, root, qs, RefAt(s, i).path);
  }

  lemma {:induction false} LongerName(prefix: string, m: string, size: nat, less: nat, left: nat)
    requires less < left && Short(prefix, size) && Short(m, Longest(less, size))
    ensures Short(ScopedName(prefix, m), Longest(left, size))
  {
    LongestBelow(less, left, size);
    ScopedShort(prefix, m, size, Longest(less, size));
  }

  lemma {:induction false} AliasShort(s: Site, i: nat, size: nat, left: nat)
    requires FileShort(s, size) && i < |s.f.items| && Brings(s.w, s.f.items[i])
    ensures Short(AliasAt(s, i), Longest(left, size))
  {
    LongestAtLeast(left, size);
    assert s.f.items[i] in s.f.items;
  }

  /** The names that a file brings in. */
  lemma {:induction false} BlockNamesShort(s: Site, root: string, long: nat, depth: nat, i: nat, size: nat, left: nat,
                                           u: string)
    requires ShortAt(s, root, long, depth, size) && left == depth + 1 - long
    requires UsedAt(s, i) && ScopedAt(s, i) && u in Declared(Block(s, i))
    ensures Short(u, Longest(left, size))
    decreases FuelAt(s), 0
  {
    var t, ss, prefix, m := BlockOrigin(s, root, i, u);
    if u == AliasAt(s, i) {
      AliasShort(s, i, size, left);
    } else {
      var more := ChildShortAt(s, root, long, depth, i, size, t);
      var less := depth + 1 - more;
      LineNamesShort(t, root, more, depth, |t.f.items|, ss, size, less, m);
      LongerName(prefix, m, size, less, left);
    }
  }

  // Named last stages

  /** The last stage that the first n instructions start is named. */
  predicate EndsNamed(w: World, f: File, n: nat)
    requires n <= |f.items|
  {
    n > 0 && if StartsStage(w, f.items[n - 1]) then NameOf(w, true, f.items[n - 1]).Some? else EndsNamed(w, f, n - 1)
  }

  lemma {:induction false} NewLastName(w: World, f: File, n: nat) returns (u: string)
    requires n <= |f.items| && EndsNamed(w, f, n) && Distinct(OwnNames(w, f, true, n))
    ensures u in OwnNames(w, f, true, n) && u !in Finished(w, f, true, n)
  {
    if StartsStage(w, f.items[n - 1]) {
      u := NameOf(w, true, f.items[n - 1]).value;
      var own := OwnNames(w, f, true, n);
      assert own[|own| - 1] == u && own[..|own| - 1] == OwnNames(w, f, true, n - 1);
    } else {
      NoStageStarts(w, f, true, n - 1);
      u := NewLastName(w, f, n - 1);
    }
  }

  lemma {:induction false} EndsNamedInside(w: World, f: File, k: nat, g: File, m: nat)
    requires m <= |g.items| && k + m <= |f.items| && EndsNamed(w, g, m)
    requires forall j :: 0 <= j < |g.items| && k + j < |f.items| ==> f.items[k + j] == g.items[j]
    ensures EndsNamed(w, f, k + m)
  {
    assert f.items[k + (m - 1)] == g.items[m - 1];
    if !StartsStage(w, g.items[m - 1]) {
      EndsNamedInside(w, f, k, g, m - 1);
    }
  }

  /** The last of the gathered stages has a name that no stage before it has. */
  ghost predicate LastAlone(ss: seq<Stage>) {
    ss != [] && ss[|ss| - 1].alias.Some? && forall j :: 0 <= j < |ss| - 1 ==> ss[j].alias != ss[|ss| - 1].alias
  }

  lemma {:induction false} LastIsNamed(s: Site, n: nat, ss: seq<Stage>, p: Progress)
    requires SiteOk(s) && s.isRoot && n <= |s.f.items| && Kept(s, n, ss, p) && ss != []
    requires EndsNamed(s.w, s.f, n)
    ensures LastAlone(ss)
  {
    DistinctPrefix(s.w, s.f, true, n);
    var u := NewLastName(s.w, s.f, n);
    assert u in NameSet(OwnAt(s, n));
    var last := ss[|ss| - 1];
    forall j | 0 <= j < |ss| - 1 ensures ss[j].alias != last.alias {
      assert OwnOnce(OwnAt(s, n), ss);
    }
  }

  lemma {:induction false} AloneBehind(a: seq<Stage>, b: seq<Stage>)
    requires LastAlone(a + b) && b != []
    ensures LastAlone(b)
  {
    assert (a + b)[|a + b| - 1] == b[|b| - 1];
    forall j | 0 <= j < |b| - 1 ensures b[j].alias != b[|b| - 1].alias {
      assert (a + b)[|a| + j] == b[j];
    }
  }

  lemma {:induction false} FromFreeMetLast(doc: seq<Instr>)
    requires FromFree(doc)
    ensures LastMetLast(Chunks(doc))
  {
    if doc != [] {
      ChunksAppend([], doc);
      assert [] + doc == doc && Chunks([]) == [] && Chunks(doc) == [doc];
    }
  }

  lemma {:induction false} NamedMetLast(s: Site, i: nat, a: seq<Instr>, g: seq<Instr>, p: Progress)
    requires SiteOk(s) && s.isRoot && i <= |s.f.items| && Anchored(g) && Stages(g) != []
    requires Kept(s, i, Stages(a + g), p) && EndsNamed(s.w, s.f, i)
    ensures LastMetLast(Chunks(g))
  {
    StagesConcat(a, g);
    LastIsNamed(s, i, Stages(a + g), p);
    AloneBehind(Stages(a), Stages(g));
    OwnNameMetLast(g);
  }

  lemma {:induction false} InsideMetLast(s: Site, i: nat, t: Site, a: seq<Instr>, g: seq<Instr>)
    requires SiteOk(s) && s.isRoot && i <= |s.f.items| && Anchored(a)
    requires InsideKept(s, i, t, |t.f.items|, a, g)
    requires HasStage(t.w, t.f, |t.f.items|) ==> EndsNamed(s.w, s.f, i)
    ensures LastMetLast(Chunks(g))
  {
    if HasStage(t.w, t.f, |t.f.items|) {
      NamedMetLast(s, i, a, g, Apart(s, i));
    } else {
      FromFreeMetLast(g);
    }
  }

  lemma {:induction false} EndsInside(s: Site, k: nat, t: Site, root: string, i: nat)
    requires Inside(s, k, t, root) && i == k + |t.f.items|
    requires HasStage(t.w, t.f, |t.f.items|) ==> EndsNamed(t.w, t.f, |t.f.items|)
    ensures HasStage(t.w, t.f, |t.f.items|) ==> EndsNamed(s.w, s.f, i)
  {
    if HasStage(t.w, t.f, |t.f.items|) {
      EndsNamedInside(s.w, s.f, k, t.f, |t.f.items|);
    }
  }

  lemma {:induction false} ReachedMetLast(s: Site, i: nat, t: Site, a: seq<Instr>, g: seq<Instr>, start: Progress)
    requires SiteOk(s) && s.isRoot && Reached(s, i, t, |t.f.items|, a, start) && i <= |s.f.items|
    requires Anchored(a) && t.level <= t.w.maxDepth && LinesAt(t, |t.f.items|) == Ok(g)
    requires HasStage(t.w, t.f, |t.f.items|) ==> EndsNamed(s.w, s.f, i)
    ensures LastMetLast(Chunks(g))
  {
    var g', r :| ReachedWith(s, i, t, |t.f.items|, a, start, g', r);
    InsideMetLast(s, i, t, a, g);
  }

  /** The last stage of an INCLUDEd file stays last. */
  lemma {:induction false} IncludedMetLast(s: Site, r: Site, t: Site, root: string, n: nat, k: nat, a: seq<Instr>,
                                           g: seq<Instr>, start: Progress)
    requires Included(s, k, t, root) && RootKeptWith(s, r, n, k, a, start)
    requires LinesAt(t, |t.f.items|) == Ok(g)
    requires HasStage(t.w, t.f, |t.f.items|) ==> EndsNamed(t.w, t.f, |t.f.items|)
    ensures LastMetLast(Chunks(g))
  {
    var i := ReachedAll(s, k, t, root, |t.f.items|, a, start);
    EndsInside(s, k, t, root, i);
    ReachedMetLast(s, i, t, a, g, start);
  }

  /** The root and the files it INCLUDEs end with a named stage. */
  ghost predicate NamedEnds(w: World, root: string)
    requires root in w.files
  {
    && EndsNamed(w, FlatFile(w, w.files[root]), |FlatFile(w, w.files[root]).items|)
    && forall item :: item in w.files[root].items && StageInclude(w, item) ==>
         var g := w.files[item.ref.path]; HasStage(w, g, |g.items|) ==> EndsNamed(w, g, |g.items|)
  }

  ghost predicate KeepsLast(w: World, root: string, item: Item) {
    StageInclude(w, item) ==> LastMetLast(Chunks(IncludedLines(w, root, item.ref.path)))
  }

  lemma {:induction false} IncludeMetLast(w: World, root: string, known: Outlines, n: nat, ref: Ref)
    requires Tidy(w, root, known) && root in w.files && n < |w.files[root].items|
    requires w.files[root].items[n] == Include(ref)
    requires StageInclude(w, w.files[root].items[n]) && LinesAt(RootSite(w, root, known), n + 1).Ok?
    requires RootKept(w, root, known, n)
    requires var g := w.files[ref.path]; HasStage(w, g, |g.items|) ==> EndsNamed(w, g, |g.items|)
    ensures LastMetLast(Chunks(IncludedLines(w, root, ref.path)))
  {
    var k, a := |Flat(w, w.files[root], n)|, RootText(w, root, n);
    var p :| RootKeptWith(FlatSite(w, root, known), RootSite(w, root, known), n, k, a, p);
    var s, r, t, g := IncludeSites(w, root, known, n, ref, p);
    IncludedMetLast(s, r, t, root, n, k, a, g, p);
  }

  lemma {:induction false} PlainNext(w: World, root: string, known: Outlines, n: nat)
    requires Tidy(w, root, known) && root in w.files && NamedEnds(w, root)
    requires n < |w.files[root].items| && LinesAt(RootSite(w, root, known), n + 1).Ok? && RootKept(w, root, known, n)
    ensures RootKept(w, root, known, n + 1) && KeepsLast(w, root, w.files[root].items[n])
  {
    if StageInclude(w, w.files[root].items[n]) {
      assert w.files[root].items[n] in w.files[root].items;
      IncludeMetLast(w, root, known, n, w.files[root].items[n].ref);
      RootIncludeStep(w, root, known, n);
    } else {
      RootStep(w, root, known, n);
    }
  }

  lemma {:induction false} PlainGathered(w: World, root: string, known: Outlines, n: nat)
    requires Tidy(w, root, known) && root in w.files && NamedEnds(w, root)
    requires n <= |w.files[root].items| && LinesAt(RootSite(w, root, known), n).Ok?
    ensures RootKept(w, root, known, n)
    decreases n
  {
    if n == 0 {
      RootNothing(w, root, known, n);
    } else {
      var m := n - 1;
      RootLinesTo(w, root, known, m, n);
      PlainGathered(w, root, known, m);
      PlainNext(w, root, known, m);
    }
  }

  lemma {:induction false} PlainKeepsLastAt(w: World, root: string, known: Outlines, n: nat)
    requires Tidy(w, root, known) && root in w.files && NamedEnds(w, root) && n < |w.files[root].items|
    requires LinesAt(RootSite(w, root, known), n).Ok? && LinesAt(RootSite(w, root, known), n + 1).Ok?
    ensures KeepsLast(w, root, w.files[root].items[n])
  {
    PlainGathered(w, root, known, n);
    PlainNext(w, root, known, n);
  }

  lemma {:induction false} PlainKeepsLast(w: World, root: string, known: Outlines, n: nat)
    requires Tidy(w, root, known) && root in w.files && NamedEnds(w, root) && n < |w.files[root].items|
    requires LinesAt(RootSite(w, root, known), |w.files[root].items|).Ok?
    ensures KeepsLast(w, root, w.files[root].items[n])
  {
    RootLinesTo(w, root, known, n, |w.files[root].items|);
    RootLinesTo(w, root, known, n + 1, |w.files[root].items|);
    PlainKeepsLastAt(w, root, known, n);
  }

  // The demands on gathered lines

  /** What can be seen on the input: names in lower case and short enough for the nesting, a digest
      in hexadecimal, and named last stages. */
  ghost predicate PlainTree(w: World, root: string, size: nat, depth: nat)
    requires root in w.files
  {
    && HexDigest(w.hash) && ShortNames(w, size) && Longest(depth, size) <= MAX_STAGE_NAME_LENGTH
    && (TooDeep(w, root) || WalksWithin(w, root, depth))
    && NamedEnds(w, root)
  }

  lemma {:induction false} FlatShort(w: World, root: string, known: Outlines, size: nat)
    requires root in w.files && ShortNames(w, size)
    ensures FileShort(FlatSite(w, root, known), size)
  {
    var s, f := FlatSite(w, root, known), w.files[root];
    forall item | item in s.f.items ensures ItemShort(w, true, item, size) {
      var p := FlatGrounded(w, root, |f.items|, item);
    }
  }

  lemma {:induction false} FlatDeeper(w: World, root: string, known: Outlines)
    requires root in w.files
    ensures RefersDeeper(FlatSite(w, root, known), root, 1)
  {
    var s, f := FlatSite(w, root, known), w.files[root];
    forall item | item in s.f.items && RefOfItem(item).Some?
      ensures exists qs :: Leads(w, root, qs, RefOfItem(item).value.path) && |qs| > 1
    {
      var qs := FlatWalk(w, root, |f.items|, item);
    }
  }

  /** A walk to a file that the flat root refers to. */
  lemma {:induction false} FlatWalk(w: World, root: string, n: nat, item: Item) returns (qs: seq<string>)
    requires root in w.files && n <= |w.files[root].items| && item in Flat(w, w.files[root], n)
    requires RefOfItem(item).Some?
    ensures Leads(w, root, qs, RefOfItem(item).value.path) && |qs| > 1
  {
    var last := w.files[root].items[n - 1];
    if item in Flat(w, w.files[root], n - 1) {
      qs := FlatWalk(w, root, n - 1, item);
    } else if StageInclude(w, last) {
      LeadsOn(w, root, [root], root, last);
      LeadsOn(w, root, [root] + [last.ref.path], last.ref.path, item);
      qs := [root] + [last.ref.path] + [RefOfItem(item).value.path];
    } else {
      LeadsOn(w, root, [root], root, item);
      qs := [root] + [RefOfItem(item).value.path];
    }
  }

  lemma {:induction false} TextNamesShort(w: World, root: string, known: Outlines, size: nat, depth: nat, u: string)
    requires Tidy(w, root, known) && root in w.files && PlainTree(w, root, size, depth) && !TooDeep(w, root)
    requires RootKept(w, root, known, |w.files[root].items|)
    requires u in Declared(Stages(WholeText(w, root)))
    ensures Short(u, MAX_STAGE_NAME_LENGTH)
  {
    var s := FlatSite(w, root, known);
    var q := RootKeptAll(w, root, known, |w.files[root].items|);
    FlatReady(w, root, known);
    FlatShort(w, root, known, size);
    FlatDeeper(w, root, known);
    LineNamesShort(s, root, 1, depth, |s.f.items|, Stages(WholeText(w, root)), size, depth, u);
  }

  lemma {:induction false} ShortIsFixed(hash: string -> string, u: string)
    requires HexDigest(hash) && Short(u, MAX_STAGE_NAME_LENGTH)
    ensures SanitizeStageName(hash, u) == u
  {
    SanitizedNameForm(hash, u);
  }

  lemma {:induction false} TextMetLast(w: World, root: string, known: Outlines)
    requires Tidy(w, root, known) && root in w.files && NamedEnds(w, root)
    requires RootKept(w, root, known, |w.files[root].items|)
    ensures LastMetLast(Chunks(WholeText(w, root)))
  {
    var s := FlatSite(w, root, known);
    var q := RootKeptAll(w, root, known, |w.files[root].items|);
    FlatReady(w, root, known);
    LastIsNamed(s, |s.f.items|, Stages(WholeText(w, root)), Apart(s, |s.f.items|));
    OwnNameMetLast(WholeText(w, root));
  }

  lemma {:induction false} PlainTreeSafe(w: World, root: string, known: Outlines, size: nat, depth: nat)
    requires Tidy(w, root, known) && root in w.files && PlainTree(w, root, size, depth)
    requires Load(w, root, ROOT_CONTEXT).Ok?
    ensures LinesSafe(w, root)
  {
    var n := |w.files[root].items|;
    GuardsAreExact(w, root);
    RootOutput(w, root);
    PlainGathered(w, root, known, n);
    forall item | item in w.files[root].items && StageInclude(w, item)
      ensures LastMetLast(Chunks(IncludedLines(w, root, item.ref.path)))
    {
      var m: nat :| m < n && w.files[root].items[m] == item;
      PlainKeepsLast(w, root, known, m);
    }
    forall u | u in Declared(Stages(WholeText(w, root)))
      ensures NameChars(u) && |u| <= MAX_STAGE_NAME_LENGTH && SanitizeStageName(w.hash, u) == u
    {
      TextNamesShort(w, root, known, size, depth, u);
      ShortIsFixed(w.hash, u);
    }
    RootTextSame(w, root, n);
    WellFormedNamesSafe(w.hash, WholeText(w, root));
    TextScoped(w, root, known);
    TextMetLast(w, root, known);
  }

  /** Compiler correctness with demands on the input only: a tidy and plain tree whose files are all
      there is written exactly when no walk through its includes has more edges than the limit, and
      the written Dockerfile builds the image that reading the tree gives. */
  lemma {:induction false} PlainTreeIsWritten(w: World, root: string, known: Outlines, size: nat, depth: nat)
    requires Tidy(w, root, known) && AllPresent(w) && root in w.files && PlainTree(w, root, size, depth)
    ensures var r := Load(w, root, ROOT_CONTEXT);
            && (r.Ok? <==> !TooDeep(w, root))
            && (r.Ok? ==> Anchored(r.value) && Stages(r.value) != [] && Free(Stages(r.value)) <= known(root).ext
                          && Meaning(w, root, None, true, w.maxDepth + 1) == Some(LastImage(map[], Stages(r.value))))
  {
    if Load(w, root, ROOT_CONTEXT).Ok? {
      PlainTreeSafe(w, root, known, size, depth);
      CompilerCorrect(w, root, known);
    }
    TidyTreeIsWritten(w, root, known);
  }
}
