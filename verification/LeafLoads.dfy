/** Two targets of a file that uses no other file and holds no comments and no ARGs: here the
    condition can be read off the input. */
module LeafLoads {
  import opened Dockerfile
  import opened ScopeStages
  import opened DeduplicateStages
  import opened PostProcessDockerfile
  import opened IncludeComments
  import opened TwoTargets
  import opened TwoLoads

  /** Every line builds something. */
  predicate Building(doc: seq<Instr>) {
    forall i :: 0 <= i < |doc| ==> !NoOp(doc[i])
  }

  lemma {:induction false} RoundsBuild(prefix: string, names: seq<string>, i: Instr)
    requires !NoOp(i)
    ensures !NoOp(RewriteRounds(prefix, names, i))
  {
    if names != [] {
      RoundsBuild(prefix, names[..|names| - 1], i);
    }
  }

  lemma {:induction false} ScopedBuilds(prefix: string, g: seq<Instr>)
    requires Building(g)
    ensures Building(Scoped(prefix, g))
  {
    var d := Defaulted(g);
    forall k | 0 <= k < |d| ensures !NoOp(Scoped(prefix, g)[k]) {
      RoundsBuild(prefix, StageNames(d), d[k]);
    }
  }

  lemma {:induction false} AliasBuilds(q: Request, doc: seq<Instr>, total: nat)
    requires Building(doc)
    ensures Building(WithAlias(q, doc, total))
  {
    if doc != [] {
      AliasBuilds(q, doc[..|doc| - 1], total);
    }
  }

  lemma {:induction false} FlattenBuilds(cs: seq<Chunk>)
    ensures Building(Flatten(cs)) <==> forall c :: c in cs ==> Building(c)
  {
    if cs != [] {
      var before, c := cs[..|cs| - 1], cs[|cs| - 1];
      assert cs == before + [c];
      FlattenBuilds(before);
      ConcatBuilds(Flatten(before), c);
    }
  }

  lemma {:induction false} ConcatBuilds(a: seq<Instr>, b: seq<Instr>)
    ensures Building(a + b) <==> Building(a) && Building(b)
  {
    assert forall i :: 0 <= i < |a| ==> (a + b)[i] == a[i];
    assert forall i :: 0 <= i < |b| ==> (a + b)[|a| + i] == b[i];
  }

  lemma {:induction false} ChunksBuild(doc: seq<Instr>)
    requires Building(doc)
    ensures forall c :: c in Chunks(doc) ==> Building(c)
  {
    ChunksSplit(doc);
    FlattenBuilds(Chunks(doc));
  }

  lemma {:induction false} DeduplicatedBuilds(doc: seq<Instr>)
    requires Building(doc)
    ensures Building(Deduplicated(doc))
  {
    ChunksBuild(doc);
    FlattenBuilds(KeepFirst(Chunks(doc)));
    forall c ensures c in KeepFirst(Chunks(doc)) <==> c in Chunks(doc) {
      KeepFirstMembers(Chunks(doc), c);
    }
  }

  lemma {:induction false} EffectiveAll(doc: seq<Instr>)
    requires Building(doc)
    ensures Effective(doc) == doc
  {
    if doc != [] {
      assert !NoOp(doc[|doc| - 1]);
      EffectiveAll(doc[..|doc| - 1]);
    }
  }

  lemma {:induction false} BuildingBody(c: Chunk)
    requires c != [] && Building(c)
    ensures Effective(c[1..]) == c[1..]
  {
    forall i | 0 <= i < |c[1..]| ensures !NoOp(c[1..][i]) {
      assert c[1..][i] == c[i + 1];
    }
    EffectiveAll(c[1..]);
  }

  lemma {:induction false} PlainStage(c: Chunk) returns (base: string, alias: Option<string>, body: seq<Instr>)
    requires StageChunk(c) && Building(c)
    ensures c == [From(base, alias)] + body && Stages(c) == [Stage(base, alias, body)]
  {
    base, alias, body := c[0].base, c[0].alias, c[1..];
    StageOfChunk(c);
    BuildingBody(c);
    assert c[0] == From(base, alias) && c == [c[0]] + c[1..];
  }

  /** Such a text can be read off its stage. */
  lemma {:induction false} TextOfStage(c: Chunk, d: Chunk)
    requires StageChunk(c) && StageChunk(d) && Building(c) && Building(d) && Stages(c) == Stages(d)
    ensures c == d
  {
    var a, p, v := PlainStage(c);
    var b, q, w := PlainStage(d);
    assert Stage(a, p, v) == Stages(c)[0] == Stages(d)[0] == Stage(b, q, w);
  }

  lemma {:induction false} BuildingSameText(doc: seq<Instr>)
    requires Building(doc)
    ensures SameText(Chunks(doc))
  {
    ChunksBuild(doc);
    forall c, d | c in Chunks(doc) && d in Chunks(doc) && StageChunk(c) && StageChunk(d) && Stages(c) == Stages(d)
      ensures c == d
    {
      TextOfStage(c, d);
    }
  }

  // The comments around included text

  /** The stages, the last of them with a comment behind it. */
  function Marked(cs: seq<Chunk>, mark: Instr): seq<Chunk>
    requires cs != []
  {
    cs[..|cs| - 1] + [cs[|cs| - 1] + [mark]]
  }

  predicate StageChunks(cs: seq<Chunk>) {
    forall c :: c in cs ==> StageChunk(c)
  }

  lemma {:induction false} ChunksBehind(doc: seq<Instr>, cs: seq<Chunk>)
    requires StageChunks(cs)
    ensures Chunks(doc + Flatten(cs)) == Chunks(doc) + cs
  {
    if cs == [] {
      assert doc + Flatten(cs) == doc;
    } else {
      var before, c := cs[..|cs| - 1], cs[|cs| - 1];
      var text := doc + Flatten(before);
      assert c in cs && doc + Flatten(cs) == text + c;
      assert Chunks(doc) + before + [c] == Chunks(doc) + cs;
      ChunksBehind(doc, before);
      ChunksAppend(text, c);
    }
  }

  lemma {:induction false} ChunksComment(doc: seq<Instr>, mark: Instr)
    requires !mark.From? && Chunks(doc) != []
    ensures Chunks(doc + [mark]) == Marked(Chunks(doc), mark)
  {
    assert (doc + [mark])[..|doc|] == doc;
  }

  lemma {:induction false} MarkedBehind(a: seq<Chunk>, cs: seq<Chunk>, mark: Instr)
    requires cs != []
    ensures Marked(a + cs, mark) == a + Marked(cs, mark)
  {
    assert (a + cs)[..|a + cs| - 1] == a + cs[..|cs| - 1];
  }

  lemma {:induction false} ChunksMarked(doc: seq<Instr>, cs: seq<Chunk>, mark: Instr)
    requires StageChunks(cs) && cs != [] && !mark.From?
    ensures Chunks(doc + Flatten(cs) + [mark]) == Chunks(doc) + Marked(cs, mark)
  {
    ChunksBehind(doc, cs);
    ChunksComment(doc + Flatten(cs), mark);
    MarkedBehind(Chunks(doc), cs, mark);
  }

  lemma {:induction false} ThreeMarked(start: Instr, end: Instr, v: seq<Chunk>, mid: seq<Chunk>, w: seq<Chunk>)
    requires StageChunks(v) && StageChunks(mid) && StageChunks(w) && v != [] && mid != [] && w != []
    requires start.Comment? && end.Comment?
    ensures Chunks([start] + Flatten(v) + [end] + Flatten(mid) + [start] + Flatten(w) + [end])
            == [[start]] + Marked(v, end) + Marked(mid, start) + Marked(w, end)
  {
    var first := [start] + Flatten(v) + [end];
    ChunksMarked([start], v, end);
    ChunksMarked(first, mid, start);
    ChunksMarked(first + Flatten(mid) + [start], w, end);
    assert Chunks([start]) == [[start]] by {
      assert Chunks([]) == [] && [start][..0] == [];
    }
  }

  /** The stages of the including file's text. */
  lemma {:induction false} TwiceChunks(text: string, display: string, v: seq<Chunk>, mid: seq<Chunk>, w: seq<Chunk>)
    requires StageChunks(v) && StageChunks(mid) && StageChunks(w) && v != [] && mid != [] && w != []
    ensures var start, end := Comment(StartComment(text, display, "from")), Comment(EndComment(text, display, "from"));
            Chunks(Twice(text, display, "from", Flatten(v), Flatten(mid), "from", Flatten(w)))
            == [[start]] + Marked(v, end) + Marked(mid, start) + Marked(w, end)
  {
    var start, end := Comment(StartComment(text, display, "from")), Comment(EndComment(text, display, "from"));
    assert Twice(text, display, "from", Flatten(v), Flatten(mid), "from", Flatten(w))
           == [start] + Flatten(v) + [end] + Flatten(mid) + [start] + Flatten(w) + [end];
    ThreeMarked(start, end, v, mid, w);
  }

  /** A text and the same text with a comment behind it. */
  ghost predicate Core(c: Chunk, q: Chunk, marks: seq<Instr>) {
    c == q + marks && StageChunk(q) && Building(q) && |marks| <= 1 && forall i :: 0 <= i < |marks| ==> marks[i].Comment?
  }

  lemma {:induction false} CoreStage(c: Chunk, q: Chunk, marks: seq<Instr>)
    requires Core(c, q, marks)
    ensures StageChunk(c) && Stages(c) == Stages(q)
  {
    assert c[0] == q[0] && c[1..] == q[1..] + marks;
    if marks != [] {
      assert c == q + [marks[0]];
      CommentBehind(q, marks[0]);
    } else {
      assert c == q;
    }
  }

  lemma {:induction false} CommentBehind(q: Chunk, mark: Instr)
    requires mark.Comment?
    ensures Stages(q + [mark]) == Stages(q)
  {
    StagesSnoc(q, mark);
  }

  lemma {:induction false} MarkedMember(cs: seq<Chunk>, mark: Instr, c: Chunk) returns (q: Chunk, marks: seq<Instr>)
    requires cs != [] && StageChunks(cs) && (forall q :: q in cs ==> Building(q)) && mark.Comment?
    requires c in Marked(cs, mark)
    ensures Core(c, q, marks) && q in cs
    ensures if marks == [] then q in cs[..|cs| - 1] else marks == [mark] && q == cs[|cs| - 1]
  {
    var last := cs[|cs| - 1];
    assert last in cs;
    if c in cs[..|cs| - 1] {
      q, marks := c, [];
      assert c + [] == c && c in cs;
    } else {
      q, marks := last, [mark];
    }
  }

  /** The last stage of each part is met nowhere else but at the end of the other load. */
  ghost predicate LastsApart<T(!new)>(v: seq<T>, mid: seq<T>, w: seq<T>) {
    && v != [] && mid != [] && w != []
    && v[|v| - 1] !in v[..|v| - 1] + mid + w[..|w| - 1]
    && w[|w| - 1] !in w[..|w| - 1] + mid + v[..|v| - 1]
    && mid[|mid| - 1] !in mid[..|mid| - 1] + v + w
  }

  /** The comments behind a stage, by its text. */
  function MarksOf(v: seq<Chunk>, mid: seq<Chunk>, w: seq<Chunk>, start: Instr, end: Instr, q: Chunk): seq<Instr>
    requires v != [] && mid != [] && w != []
  {
    if q == v[|v| - 1] || q == w[|w| - 1] then [end] else if q == mid[|mid| - 1] then [start] else []
  }

  predicate BuildingChunks(cs: seq<Chunk>) {
    forall c :: c in cs ==> StageChunk(c) && Building(c)
  }

  lemma {:induction false} TwiceMember(v: seq<Chunk>, mid: seq<Chunk>, w: seq<Chunk>, start: Instr, end: Instr,
                                       c: Chunk)
    returns (q: Chunk)
    requires BuildingChunks(v) && BuildingChunks(mid) && BuildingChunks(w) && LastsApart(v, mid, w)
    requires start.Comment? && end.Comment? && StageChunk(c)
    requires c in [[start]] + Marked(v, end) + Marked(mid, start) + Marked(w, end)
    ensures Core(c, q, MarksOf(v, mid, w, start, end, q))
  {
    var marks;
    if c in Marked(v, end) {
      q, marks := MarkedMember(v, end, c);
    } else if c in Marked(mid, start) {
      q, marks := MarkedMember(mid, start, c);
    } else {
      assert c != [start];
      q, marks := MarkedMember(w, end, c);
    }
  }

  lemma {:induction false} TwiceSameText(v: seq<Chunk>, mid: seq<Chunk>, w: seq<Chunk>, start: Instr, end: Instr)
    requires BuildingChunks(v) && BuildingChunks(mid) && BuildingChunks(w) && LastsApart(v, mid, w)
    requires start.Comment? && end.Comment?
    ensures SameText([[start]] + Marked(v, end) + Marked(mid, start) + Marked(w, end))
  {
    var cs := [[start]] + Marked(v, end) + Marked(mid, start) + Marked(w, end);
    forall c, d | c in cs && d in cs && StageChunk(c) && StageChunk(d) && Stages(c) == Stages(d) ensures c == d {
      var p := TwiceMember(v, mid, w, start, end, c);
      var q := TwiceMember(v, mid, w, start, end, d);
      CoreStage(c, p, MarksOf(v, mid, w, start, end, p));
      CoreStage(d, q, MarksOf(v, mid, w, start, end, q));
      TextOfStage(p, q);
    }
  }

  // The stages of such a text

  lemma {:induction false} OneMoreStage(cs: seq<Chunk>)
    requires StageChunks(cs) && cs != []
    ensures var before, c := cs[..|cs| - 1], cs[|cs| - 1];
            |Stages(c)| == 1 && Stages(Flatten(cs)) == Stages(Flatten(before)) + Stages(c)
  {
    assert cs[|cs| - 1] in cs;
    FlattenLast(cs);
    StageOfChunk(cs[|cs| - 1]);
  }

  lemma {:induction false} StageCount(cs: seq<Chunk>)
    requires StageChunks(cs)
    ensures |Stages(Flatten(cs))| == |cs|
  {
    if cs != [] {
      StageCount(cs[..|cs| - 1]);
      OneMoreStage(cs);
    }
  }

  lemma {:induction false} StageOfIndex(cs: seq<Chunk>, i: nat)
    requires StageChunks(cs) && i < |cs|
    ensures |Stages(Flatten(cs))| == |cs| && Stages(cs[i]) == [Stages(Flatten(cs))[i]]
  {
    var before := cs[..|cs| - 1];
    StageCount(before);
    OneMoreStage(cs);
    if i < |before| {
      StageOfIndex(before, i);
    }
  }

  lemma {:induction false} MemberStage(cs: seq<Chunk>, n: nat, c: Chunk)
    requires StageChunks(cs) && n <= |cs| && c in cs[..n]
    ensures |Stages(Flatten(cs))| == |cs| && |Stages(c)| == 1 && Stages(c)[0] in Stages(Flatten(cs))[..n]
  {
    var i :| 0 <= i < n && cs[..n][i] == c;
    StageOfIndex(cs, i);
    assert Stages(Flatten(cs))[..n][i] == Stages(c)[0];
  }

  lemma {:induction false} LastStages(v: seq<Chunk>, mid: seq<Chunk>, w: seq<Chunk>)
    requires StageChunks(v) && StageChunks(mid) && StageChunks(w)
    requires LastsApart(Stages(Flatten(v)), Stages(Flatten(mid)), Stages(Flatten(w)))
    ensures LastsApart(v, mid, w)
  {
    StageCount(v);
    StageCount(mid);
    StageCount(w);
    StageOfIndex(v, |v| - 1);
    StageOfIndex(mid, |mid| - 1);
    StageOfIndex(w, |w| - 1);
    if v[|v| - 1] in v[..|v| - 1] + mid + w[..|w| - 1] {
      OneMember(v, mid, w, v[|v| - 1]);
    }
    if w[|w| - 1] in w[..|w| - 1] + mid + v[..|v| - 1] {
      OneMember(w, mid, v, w[|w| - 1]);
    }
    if mid[|mid| - 1] in mid[..|mid| - 1] + v + w {
      AnyMember(mid, v, w, mid[|mid| - 1]);
    }
  }

  lemma {:induction false} OneMember(v: seq<Chunk>, mid: seq<Chunk>, w: seq<Chunk>, c: Chunk)
    requires StageChunks(v) && StageChunks(mid) && StageChunks(w) && v != [] && w != []
    requires c in v[..|v| - 1] + mid + w[..|w| - 1]
    ensures var x, y, z := Stages(Flatten(v)), Stages(Flatten(mid)), Stages(Flatten(w));
            |x| == |v| && |z| == |w| && |Stages(c)| == 1 && Stages(c)[0] in x[..|v| - 1] + y + z[..|w| - 1]
  {
    StageCount(v);
    StageCount(w);
    if c in v[..|v| - 1] {
      MemberStage(v, |v| - 1, c);
    } else if c in mid {
      assert mid[..|mid|] == mid;
      MemberStage(mid, |mid|, c);
    } else {
      MemberStage(w, |w| - 1, c);
    }
  }

  lemma {:induction false} AnyMember(mid: seq<Chunk>, v: seq<Chunk>, w: seq<Chunk>, c: Chunk)
    requires StageChunks(v) && StageChunks(mid) && StageChunks(w) && mid != []
    requires c in mid[..|mid| - 1] + v + w
    ensures var x, y, z := Stages(Flatten(v)), Stages(Flatten(mid)), Stages(Flatten(w));
            |y| == |mid| && |Stages(c)| == 1 && Stages(c)[0] in y[..|mid| - 1] + x + z
  {
    StageCount(mid);
    assert v[..|v|] == v && w[..|w|] == w;
    if c in mid[..|mid| - 1] {
      MemberStage(mid, |mid| - 1, c);
    } else if c in v {
      MemberStage(v, |v|, c);
    } else {
      MemberStage(w, |w|, c);
    }
  }

  lemma {:induction false} AnchoredChunks(doc: seq<Instr>)
    requires Anchored(doc) && Building(doc)
    ensures BuildingChunks(Chunks(doc)) && Flatten(Chunks(doc)) == doc
  {
    ChunksSplit(doc);
    ChunksBuild(doc);
    if doc != [] {
      HeadChunk(doc);
      assert StageChunk(Chunks(doc)[0]);
    } else {
      assert Chunks(doc) == [];
    }
  }

  lemma {:induction false} HeadChunk(doc: seq<Instr>)
    requires Anchored(doc) && Building(doc) && doc != []
    ensures Chunks(doc) != [] && Chunks(doc)[0] != [] && Chunks(doc)[0][0].From?
  {
    var before, i := doc[..|doc| - 1], doc[|doc| - 1];
    if before == [] {
      assert doc == [i] && Chunks(before) == [] && !NoOp(doc[0]) && Stages(before) == [];
    } else {
      assert Building(before);
      HeadChunk(before);
    }
  }

  // The last stages of both loads

  lemma {:induction false} LastOfSplit(d: seq<Stage>, k: nat, m: nat, alias: string)
    requires AllOnly(d) && k < |d| && m < |d| && k != m && alias !in Declared(d)
    requires d[|d| - 1].body != [] || m != |d| - 1
    ensures SplitStage(d, k, alias)[|d|] !in SplitStage(d, m, alias)[..|d|]
  {
    var x, w := SplitStage(d, k, alias)[|d|], SplitStage(d, m, alias);
    SplitAliasAt(d, k, alias, |d|);
    if i :| 0 <= i < |d| && w[..|d|][i] == x {
      SplitAliasAt(d, m, alias, i);
    }
  }

  lemma {:induction false} SplitNotBetween(d: seq<Stage>, k: nat, alias: string, u: seq<Stage>, x: Stage)
    requires AllOnly(d) && k < |d| && alias !in Declared(d) && Between(d, alias, u) && x in SplitStage(d, k, alias)
    ensures x !in u
  {
    OnlyAtOf(d, k);
    SplitMembers(d, k, alias, x);
    if x in u && x.alias.Some? {
      DeclaredIff(u, x.alias.value);
    }
    if j :| 0 <= j < |d| && j != k && d[j] == x {
      OnlyAtOf(d, j);
    }
  }

  lemma {:induction false} LoadsApart(d: seq<Stage>, k: nat, m: nat, alias: string, u: seq<Stage>)
    requires AllOnly(d) && k < |d| && m < |d| && k != m && alias !in Declared(d) && Between(d, alias, u)
    requires d[|d| - 1].body != [] || (k != |d| - 1 && m != |d| - 1)
    requires u != [] && u[|u| - 1] !in u[..|u| - 1]
    ensures LastsApart(SplitStage(d, k, alias), u, SplitStage(d, m, alias))
  {
    var v, w := SplitStage(d, k, alias), SplitStage(d, m, alias);
    SplitApart(d, k, alias);
    SplitApart(d, m, alias);
    LastOfSplit(d, k, m, alias);
    LastOfSplit(d, m, k, alias);
    assert |v| == |d| + 1 && |w| == |d| + 1;
    SplitNotBetween(d, k, alias, u, v[|d|]);
    SplitNotBetween(d, m, alias, u, w[|d|]);
    var x := u[|u| - 1];
    if x in v {
      SplitNotBetween(d, k, alias, u, x);
    }
    if x in w {
      SplitNotBetween(d, m, alias, u, x);
    }
  }

  lemma {:induction false} TwiceOneText(v: seq<Instr>, mid: seq<Instr>, w: seq<Instr>, text: string, display: string)
    requires Anchored(v) && Anchored(mid) && Anchored(w) && Building(v) && Building(mid) && Building(w)
    requires LastsApart(Stages(v), Stages(mid), Stages(w))
    ensures SameText(Chunks(Twice(text, display, "from", v, mid, "from", w)))
  {
    AnchoredChunks(v);
    AnchoredChunks(mid);
    AnchoredChunks(w);
    LastStages(Chunks(v), Chunks(mid), Chunks(w));
    TwiceChunks(text, display, Chunks(v), Chunks(mid), Chunks(w));
    TwiceSameText(Chunks(v), Chunks(mid), Chunks(w),
                  Comment(StartComment(text, display, "from")), Comment(EndComment(text, display, "from")));
  }

  /** An included file without comments and ARGs. */
  ghost predicate LeafFile(c: Context, g: seq<Instr>, k: nat) {
    Includable(c, g, k) && Building(g) && forall y :: y in Stages(Defaulted(g)) ==> y.alias.Some?
  }

  lemma {:induction false} LeafLoaded(hash: string -> string, c: Context, g: seq<Instr>, k: nat)
    requires LeafFile(c, g, k)
    ensures SameText(Chunks(Aliased(c, g))) && PostProcessed(hash, c, g).Ok?
    ensures Anchored(PostProcessed(hash, c, g).value) && Building(PostProcessed(hash, c, g).value)
  {
    ScopedBuilds(c.prefix, g);
    AliasBuilds(RequestOf(c), Scoped(c.prefix, g), FromCount(Scoped(c.prefix, g)));
    BuildingSameText(Aliased(c, g));
    LoadedStages(hash, c, g, k);
    IncludedResult(hash, c, g, k);
    DeduplicatedBuilds(Aliased(c, g));
  }

  /** What the including file has between the two uses: stages of its own, the last of them new. */
  ghost predicate OwnBetween(c: Context, g: seq<Instr>, mid: seq<Instr>) {
    && c.alias.Some? && Anchored(mid) && Building(mid)
    && Between(Stages(Scoped(c.prefix, g)), c.alias.value, Stages(mid))
    && Stages(mid) != [] && Stages(mid)[|Stages(mid)| - 1] !in Stages(mid)[..|Stages(mid)| - 1]
  }

  /** The last stage has a body, or no target is the last stage. */
  predicate LastHolds(d: seq<Stage>, k: nat, m: nat) {
    d != [] && (d[|d| - 1].body != [] || (k != |d| - 1 && m != |d| - 1))
  }

  lemma {:induction false} LeafSameText(hash: string -> string, c: Context, e: Context, g: seq<Instr>, k: nat, m: nat,
                                        i: nat, j: nat, mid: seq<Instr>, text: string, display: string)
    requires LeafFile(c, g, k) && LeafFile(e, g, m) && c.prefix == e.prefix && c.alias == e.alias
    requires OwnBetween(c, g, mid) && LastHolds(FileStages(c.prefix, g), i, j) && i != j
    requires k < |Stages(Scoped(c.prefix, g))| && i == At(Stages(Scoped(c.prefix, g)), k)
    requires m < |Stages(Scoped(c.prefix, g))| && j == At(Stages(Scoped(c.prefix, g)), m)
    ensures PostProcessed(hash, c, g).Ok? && PostProcessed(hash, e, g).Ok?
    ensures SameText(Chunks(Twice(text, display, "from", PostProcessed(hash, c, g).value, mid, "from",
                                  PostProcessed(hash, e, g).value)))
  {
    FileStagesOk(c, g, k);
    LeafLoaded(hash, c, g, k);
    LeafLoaded(hash, e, g, m);
    LoadedStages(hash, c, g, k);
    LoadedStages(hash, e, g, m);
    LoadsApart(FileStages(c.prefix, g), i, j, c.alias.value, Stages(mid));
    TwiceOneText(PostProcessed(hash, c, g).value, mid, PostProcessed(hash, e, g).value, text, display);
  }

  /** FROM of such a file for two targets, with a condition on the input only. */
  lemma {:induction false} SecondLeafExact(hash: string -> string, c: Context, e: Context, g: seq<Instr>, k: nat,
                                           m: nat, i: nat, j: nat, mid: seq<Instr>, text: string, display: string)
    requires LeafFile(c, g, k) && LeafFile(e, g, m) && c.prefix == e.prefix && c.alias == e.alias && k != m
    requires OwnBetween(c, g, mid) && LastHolds(FileStages(c.prefix, g), i, j) && i != j
    requires k < |Stages(Scoped(c.prefix, g))| && i == At(Stages(Scoped(c.prefix, g)), k)
    requires m < |Stages(Scoped(c.prefix, g))| && j == At(Stages(Scoped(c.prefix, g)), m)
    ensures PostProcessed(hash, c, g).Ok? && PostProcessed(hash, e, g).Ok? && AllOnly(FileStages(c.prefix, g))
    ensures var d, dd := FileStages(c.prefix, g), Stages(Defaulted(g));
            var v, w := PostProcessed(hash, c, g).value, PostProcessed(hash, e, g).value;
            var env := EnvOf(map[], Stages(Deduplicated(Twice(text, display, "from", v, mid, "from", w))));
            m < |dd| && dd[m].alias.Some?
            && (Resolve(env, c.alias.value) == Resolve(EnvOf(map[], dd), dd[m].alias.value)
                <==> SecondSafe(d, i, j))
  {
    LeafLoaded(hash, c, g, k);
    LeafLoaded(hash, e, g, m);
    LeafSameText(hash, c, e, g, k, m, i, j, mid, text, display);
    SecondTargetExact(hash, c, e, g, k, m, text, display, "from", mid, "from");
  }
}
