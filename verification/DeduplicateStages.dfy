/** src/lib/deduplicateStages.js: of textually equal stages only the first is kept. */
module DeduplicateStages {
  import opened Dockerfile
  import opened StageSets
  import opened Renaming
  import opened ScopeStages

  type Chunk = seq<Instr>

  function AddToChunks(chunks: seq<Chunk>, i: Instr): seq<Chunk> {
    if i.From? || chunks == [] then chunks + [[i]]
    else chunks[..|chunks| - 1] + [chunks[|chunks| - 1] + [i]]
  }

  /** The document split before each FROM. */
  function Chunks(doc: seq<Instr>): seq<Chunk> {
    if doc == [] then [] else AddToChunks(Chunks(doc[..|doc| - 1]), doc[|doc| - 1])
  }

  /** The first occurrences, in order. */
  function KeepFirst<T(==)>(xs: seq<T>): seq<T> {
    if xs == [] then []
    else if xs[|xs| - 1] in xs[..|xs| - 1] then KeepFirst(xs[..|xs| - 1])
    else KeepFirst(xs[..|xs| - 1]) + [xs[|xs| - 1]]
  }

  function Flatten(chunks: seq<Chunk>): seq<Instr> {
    if chunks == [] then [] else Flatten(chunks[..|chunks| - 1]) + chunks[|chunks| - 1]
  }

  function Deduplicated(doc: seq<Instr>): seq<Instr> {
    Flatten(KeepFirst(Chunks(doc)))
  }

  lemma {:induction false} ChunksNext(doc: seq<Instr>, k: nat)
    requires k < |doc|
    ensures Chunks(doc[..k + 1]) == AddToChunks(Chunks(doc[..k]), doc[k])
  {
    assert doc[..k + 1][..k] == doc[..k];
  }

  lemma {:induction false} AddToOpenChunk(chunks: seq<Chunk>, c: Chunk, i: Instr)
    ensures AddToChunks([], i) == [[i]]
    ensures AddToChunks(chunks + [c], i) == if i.From? then chunks + [c] + [[i]] else chunks + [c + [i]]
  {
    assert [] + [[i]] == [[i]];
    assert (chunks + [c])[..|chunks|] == chunks;
  }

  /** The loop that collects the stages. */
  method SplitStages(doc: seq<Instr>) returns (stages: seq<Chunk>)
    ensures stages == Chunks(doc)
  {
    var currentStage: Chunk := [];
    stages := [];
    var k := 0;
    assert Chunks([]) == [];
    while k < |doc|
      invariant 0 <= k <= |doc|
      invariant currentStage == [] ==> k == 0 && stages == [] && Chunks(doc[..k]) == []
      invariant currentStage != [] ==> Chunks(doc[..k]) == stages + [currentStage]
    {
      ChunksNext(doc, k);
      AddToOpenChunk(stages, currentStage, doc[k]);
      assert [] + [doc[k]] == [doc[k]] && [] + [[doc[k]]] == [[doc[k]]];
      if doc[k].From? && currentStage != [] {
        stages := stages + [currentStage];
        currentStage := [];
      }
      currentStage := currentStage + [doc[k]];
      k := k + 1;
    }
    assert doc[..k] == doc;
    if currentStage != [] {
      stages := stages + [currentStage];
    }
  }

  /** The whole pass: a Set keeps the first of equal stages, in insertion order. */
  method DeduplicateDocument(doc: seq<Instr>) returns (result: seq<Instr>)
    ensures result == Deduplicated(doc)
  {
    var stages := SplitStages(doc);
    var unique: seq<Chunk> := [];
    var k := 0;
    while k < |stages|
      invariant 0 <= k <= |stages|
      invariant unique == KeepFirst(stages[..k])
    {
      assert stages[..k + 1][..k] == stages[..k];
      KeepFirstMembers(stages[..k], stages[k]);
      if stages[k] !in unique {
        unique := unique + [stages[k]];
      }
      k := k + 1;
    }
    assert stages[..k] == stages;
    result := [];
    k := 0;
    while k < |unique|
      invariant 0 <= k <= |unique|
      invariant result == Flatten(unique[..k])
    {
      assert unique[..k + 1][..k] == unique[..k];
      result := result + unique[k];
      k := k + 1;
    }
    assert unique[..k] == unique;
  }

  // The list of first occurrences

  function FirstIndex<T(==)>(xs: seq<T>, x: T): (i: nat)
    requires x in xs
    ensures i < |xs| && xs[i] == x && x !in xs[..i]
  {
    if x in xs[..|xs| - 1] then
      var i := FirstIndex(xs[..|xs| - 1], x);
      assert xs[..|xs| - 1][..i] == xs[..i];
      i
    else |xs| - 1
  }

  lemma {:induction false} KeepFirstMembers<T>(xs: seq<T>, x: T)
    ensures x in KeepFirst(xs) <==> x in xs
  {
    if xs != [] {
      var before, last := xs[..|xs| - 1], xs[|xs| - 1];
      assert xs == before + [last];
      KeepFirstMembers(before, x);
    }
  }

  /** Every element once, in the order of the first occurrences. */
  lemma {:induction false} KeepFirstOrder<T>(xs: seq<T>)
    ensures forall i :: 0 <= i < |KeepFirst(xs)| ==> KeepFirst(xs)[i] in xs
    ensures forall i, j :: 0 <= i < j < |KeepFirst(xs)| ==>
              FirstIndex(xs, KeepFirst(xs)[i]) < FirstIndex(xs, KeepFirst(xs)[j])
    ensures forall x :: x in xs <==> x in KeepFirst(xs)
  {
    forall x ensures x in xs <==> x in KeepFirst(xs) {
      KeepFirstMembers(xs, x);
    }
    if xs != [] {
      var before := xs[..|xs| - 1];
      assert xs == before + [xs[|xs| - 1]];
      KeepFirstOrder(before);
    }
  }

  /** A list already without repeats is kept as it is. */
  lemma {:induction false} KeepFirstFixed<T>(xs: seq<T>)
    ensures KeepFirst(KeepFirst(xs)) == KeepFirst(xs)
  {
    if xs != [] {
      var before, last := xs[..|xs| - 1], xs[|xs| - 1];
      KeepFirstFixed(before);
      KeepFirstMembers(before, last);
      if last !in before {
        assert KeepFirst(xs)[..|KeepFirst(xs)| - 1] == KeepFirst(before);
      }
    }
  }

  // Splitting and joining

  predicate StageChunk(c: Chunk) {
    c != [] && c[0].From? && FromFree(c[1..])
  }

  lemma {:induction false} StageChunkBefore(c: Chunk, i: Instr)
    requires c != [] && StageChunk(c + [i])
    ensures StageChunk(c) && !i.From?
  {
    assert (c + [i])[1..] == c[1..] + [i];
    assert (c[1..] + [i])[|c| - 1] == i;
    assert forall k :: 0 <= k < |c[1..]| ==> (c[1..] + [i])[k] == c[1..][k];
  }

  predicate WellChunked(chunks: seq<Chunk>) {
    forall k :: 0 <= k < |chunks| ==> StageChunk(chunks[k]) || (k == 0 && chunks[k] != [] && FromFree(chunks[k]))
  }

  lemma {:induction false} FlattenGrow(cs: seq<Chunk>, i: Instr)
    requires cs != []
    ensures Flatten(cs[..|cs| - 1] + [cs[|cs| - 1] + [i]]) == Flatten(cs) + [i]
    ensures Flatten(cs + [[i]]) == Flatten(cs) + [i]
  {
    var grown := cs[..|cs| - 1] + [cs[|cs| - 1] + [i]];
    assert grown[..|grown| - 1] == cs[..|cs| - 1];
    assert (cs + [[i]])[..|cs|] == cs;
  }

  lemma {:induction false} ChunksSplit(doc: seq<Instr>)
    ensures WellChunked(Chunks(doc)) && Flatten(Chunks(doc)) == doc
  {
    if doc != [] {
      var before, i := doc[..|doc| - 1], doc[|doc| - 1];
      assert doc == before + [i];
      ChunksSplit(before);
      var cs := Chunks(before);
      ChunkGrown(cs, i);
      if cs == [] {
        assert [[i]][..0] == [] && before == [];
      } else {
        FlattenGrow(cs, i);
      }
    }
  }

  lemma {:induction false} ChunkGrown(cs: seq<Chunk>, i: Instr)
    requires WellChunked(cs)
    ensures WellChunked(AddToChunks(cs, i))
  {
    if i.From? || cs == [] {
      assert StageChunk([i]) || FromFree([i]);
    } else {
      var last := cs[|cs| - 1];
      assert StageChunk(last) ==> (last + [i])[1..] == last[1..] + [i];
    }
  }

  lemma {:induction false} ChunksAppend(doc: seq<Instr>, c: Chunk)
    requires StageChunk(c) || (doc == [] && c != [] && FromFree(c))
    ensures Chunks(doc + c) == Chunks(doc) + [c]
    decreases |c|
  {
    var c', i := c[..|c| - 1], c[|c| - 1];
    assert (doc + c)[..|doc + c| - 1] == doc + c';
    if c' == [] {
      assert doc + c' == doc && c == [i];
    } else {
      assert c'[1..] == c[1..][..|c| - 2];
      ChunksAppend(doc, c');
      assert i == c[1..][|c| - 2];
      assert c' + [i] == c;
    }
  }

  lemma {:induction false} ChunksOfFlatten(chunks: seq<Chunk>)
    requires WellChunked(chunks)
    ensures Chunks(Flatten(chunks)) == chunks
  {
    if chunks != [] {
      var before, c := chunks[..|chunks| - 1], chunks[|chunks| - 1];
      ChunksOfFlatten(before);
      ChunksAppend(Flatten(before), c);
    }
  }

  lemma {:induction false} KeepFirstWellChunked(chunks: seq<Chunk>)
    requires WellChunked(chunks)
    ensures WellChunked(KeepFirst(chunks))
    ensures chunks != [] ==> KeepFirst(chunks) != []
  {
    if chunks != [] {
      var before := chunks[..|chunks| - 1];
      KeepFirstWellChunked(before);
      assert |before| > 0 ==> StageChunk(chunks[|chunks| - 1]);
    }
  }

  /** Splitting the deduplicated document gives back the kept stages, so a second pass changes
      nothing. */
  lemma {:induction false} DeduplicationIsIdempotent(doc: seq<Instr>)
    ensures Chunks(Deduplicated(doc)) == KeepFirst(Chunks(doc))
    ensures Deduplicated(Deduplicated(doc)) == Deduplicated(doc)
  {
    ChunksSplit(doc);
    KeepFirstWellChunked(Chunks(doc));
    ChunksOfFlatten(KeepFirst(Chunks(doc)));
    KeepFirstFixed(Chunks(doc));
  }

  // What deduplication does to the stages

  /** `t` is `s` without some later copies of stages of `s`. */
  ghost predicate Thinned(s: seq<Stage>, t: seq<Stage>) {
    if s == [] then t == []
    else
      var before, x := s[..|s| - 1], s[|s| - 1];
      || (t != [] && t[|t| - 1] == x && Thinned(before, t[..|t| - 1]))
      || (x in before && Thinned(before, t))
  }

  lemma {:induction false} FromFreeStages(doc: seq<Instr>)
    requires FromFree(doc)
    ensures Stages(doc) == []
  {
    if doc != [] {
      FromFreeStages(doc[..|doc| - 1]);
    }
  }

  lemma {:induction false} StageOfChunk(c: Chunk)
    requires StageChunk(c)
    ensures Stages(c) == [Stage(c[0].base, c[0].alias, Effective(c[1..]))]
    ensures Anchored(c)
  {
    var head := [c[0]];
    assert c == head + c[1..] && head[..0] == [];
    assert Stages(head) == [Stage(c[0].base, c[0].alias, [])];
    StagesInline(head, c[1..]);
    assert [] + Effective(c[1..]) == Effective(c[1..]);
    assert Anchored(head[..0]);
  }

  lemma {:induction false} ChunkMember(chunks: seq<Chunk>, c: Chunk)
    requires WellChunked(chunks) && c in chunks && StageChunk(c)
    ensures Stages(c) != [] && Stages(c)[0] in Stages(Flatten(chunks))
  {
    var before, last := chunks[..|chunks| - 1], chunks[|chunks| - 1];
    assert chunks == before + [last];
    StageOfChunk(c);
    assert c in before || c == last;
    if StageChunk(last) {
      StageOfChunk(last);
      StagesConcat(Flatten(before), last);
      assert Stages(Flatten(chunks)) == Stages(Flatten(before)) + Stages(last);
      if c in before {
        ChunkMember(before, c);
      }
    }
  }

  /** One stage more, in the text and in what is left of it. */
  lemma {:induction false} ChunkThins(a: seq<Instr>, t: seq<Instr>, c: Chunk)
    requires StageChunk(c) && Thinned(Stages(a), Stages(t)) && (Anchored(a) ==> Anchored(t))
    ensures Thinned(Stages(a + c), Stages(t + c)) && (Anchored(a + c) ==> Anchored(t + c))
    ensures Stages(c) != []
    ensures (Stages(c)[0] in Stages(a) ==> Thinned(Stages(a + c), Stages(t)) && (Anchored(a + c) ==> Anchored(t)))
  {
    StageOfChunk(c);
    StagesConcat(a, c);
    StagesConcat(t, c);
    AnchoredPrefix(a, c);
    if Anchored(t) {
      AnchoredConcat(t, c);
    }
    assert Stages(a + c)[..|Stages(a)|] == Stages(a) && Stages(t + c)[..|Stages(t)|] == Stages(t);
  }

  lemma {:induction false} KeepFirstThins(chunks: seq<Chunk>)
    requires WellChunked(chunks)
    ensures Thinned(Stages(Flatten(chunks)), Stages(Flatten(KeepFirst(chunks))))
    ensures Anchored(Flatten(chunks)) ==> Anchored(Flatten(KeepFirst(chunks)))
  {
    if chunks != [] {
      var before, c := chunks[..|chunks| - 1], chunks[|chunks| - 1];
      KeepFirstThins(before);
      if StageChunk(c) {
        ChunkThins(Flatten(before), Flatten(KeepFirst(before)), c);
        if c in before {
          ChunkMember(before, c);
        } else {
          assert KeepFirst(chunks)[..|KeepFirst(before)|] == KeepFirst(before);
        }
      } else {
        assert before == [] && Flatten(before) == [];
        assert Flatten(chunks) == c == Flatten(KeepFirst(chunks)) by {
          assert KeepFirst(chunks) == [c] && [c][..0] == [] && [] + c == c;
        }
        FromFreeStages(c);
      }
    }
  }

  lemma {:induction false} AnchoredPrefix(a: seq<Instr>, b: seq<Instr>)
    ensures Anchored(a + b) ==> Anchored(a)
  {
    if b == [] {
      assert a + b == a;
    } else {
      assert (a + b)[..|a + b| - 1] == a + b[..|b| - 1];
      AnchoredPrefix(a, b[..|b| - 1]);
    }
  }

  lemma {:induction false} DeduplicationThins(doc: seq<Instr>)
    ensures Thinned(Stages(doc), Stages(Deduplicated(doc)))
    ensures Anchored(doc) ==> Anchored(Deduplicated(doc))
  {
    ChunksSplit(doc);
    KeepFirstThins(Chunks(doc));
  }

  // What thinning keeps

  lemma {:induction false} ThinnedMembers(s: seq<Stage>, t: seq<Stage>, x: Stage)
    requires Thinned(s, t)
    ensures x in t <==> x in s
  {
    if s != [] {
      var before, last := s[..|s| - 1], s[|s| - 1];
      assert s == before + [last];
      if t != [] && t[|t| - 1] == last && Thinned(before, t[..|t| - 1]) {
        assert t == t[..|t| - 1] + [last];
        ThinnedMembers(before, t[..|t| - 1], x);
      } else {
        ThinnedMembers(before, t, x);
      }
    }
  }

  lemma {:induction false} ThinnedDeclares(s: seq<Stage>, t: seq<Stage>)
    requires Thinned(s, t)
    ensures Declared(t) == Declared(s)
  {
    forall n ensures n in Declared(t) <==> n in Declared(s) {
      DeclaredIff(s, n);
      DeclaredIff(t, n);
      forall x ensures x in t <==> x in s {
        ThinnedMembers(s, t, x);
      }
    }
  }

  lemma {:induction false} ThinnedFree(s: seq<Stage>, t: seq<Stage>)
    requires Thinned(s, t)
    ensures Free(t) <= Free(s)
  {
    if s != [] {
      var before, last := s[..|s| - 1], s[|s| - 1];
      if t != [] && t[|t| - 1] == last && Thinned(before, t[..|t| - 1]) {
        ThinnedFree(before, t[..|t| - 1]);
        ThinnedDeclares(before, t[..|t| - 1]);
      } else {
        ThinnedFree(before, t);
      }
    }
  }

  lemma {:induction false} ThinnedUniform(s: seq<Stage>, t: seq<Stage>)
    requires Thinned(s, t) && Uniform(s)
    ensures Uniform(t)
  {
    forall x ensures x in t ==> x in s {
      ThinnedMembers(s, t, x);
    }
  }

  lemma {:induction false} ThinnedOrderedStep(s: seq<Stage>, t: seq<Stage>, n: string, b: string)
    requires OrderedFor(Names(s) + [n], b) && OrderedFor(Names(t), b) && Declared(s) == Declared(t)
    ensures OrderedFor(Names(t) + [n], b)
  {
    OrderedMore(Names(s), n, b);
    OrderedMore(Names(t), n, b);
    DeclaredIff(s, b);
    DeclaredIff(t, b);
  }

  lemma {:induction false} ThinnedOrdered(s: seq<Stage>, t: seq<Stage>, bases: set<string>)
    requires Thinned(s, t) && Ordered(Names(s), bases)
    ensures Ordered(Names(t), bases)
  {
    if s != [] {
      var before, last := s[..|s| - 1], s[|s| - 1];
      OrderedPrefix(Names(before), Names(s), bases);
      if t != [] && t[|t| - 1] == last && Thinned(before, t[..|t| - 1]) {
        ThinnedOrdered(before, t[..|t| - 1], bases);
        if last.alias.Some? {
          ThinnedDeclares(before, t[..|t| - 1]);
          forall b | b in bases ensures OrderedFor(Names(t), b) {
            ThinnedOrderedStep(before, t[..|t| - 1], last.alias.value, b);
          }
        } else {
          assert Names(t) == Names(t[..|t| - 1]);
        }
      } else {
        ThinnedOrdered(before, t, bases);
      }
    }
  }

  lemma {:induction false} OrderedPrefix(names: seq<string>, more: seq<string>, bases: set<string>)
    requires names <= more && Ordered(more, bases)
    ensures Ordered(names, bases)
  {
    forall b | b in bases ensures OrderedFor(names, b) {
      assert more == names + more[|names|..];
      FirstStartConcat(names, more[|names|..], b);
    }
  }

  /** If equal names mean equal stages, dropping repeats keeps every named image. */
  lemma {:induction false} ThinnedEnv(s: seq<Stage>, t: seq<Stage>)
    requires Thinned(s, t) && WellScoped(s) && Uniform(s)
    ensures EnvOf(map[], t) == EnvOf(map[], s)
  {
    ThinnedDeclares(s, t);
    ThinnedFree(s, t);
    forall x ensures x in t ==> x in s {
      ThinnedMembers(s, t, x);
    }
    var d, e := EnvOf(map[], t), EnvOf(map[], s);
    forall n ensures (n in d <==> n in e) && (n in d ==> d[n] == e[n]) {
      EnvFrame(map[], s, n);
      EnvFrame(map[], t, n);
      MoreStagesSameImage(t, s, n);
    }
  }

  ghost predicate OneTextPerName(cs: seq<Chunk>) {
    forall x: Chunk, y: Chunk ::
      x in cs && y in cs && StageChunk(x) && StageChunk(y) && x[0].alias.Some? && x[0].alias == y[0].alias
      ==> x == y
  }

  /** No stage is met for the first time after the last stage has already been met. */
  predicate LastMetLast(cs: seq<Chunk>) {
    cs != [] ==> forall c :: c in cs ==> FirstIndex(cs, c) <= FirstIndex(cs, cs[|cs| - 1])
  }

  /** The last stage stays the last one exactly under this condition. */
  lemma {:induction false} LastChunkKept(cs: seq<Chunk>)
    requires cs != []
    ensures KeepFirst(cs) != []
    ensures KeepFirst(cs)[|KeepFirst(cs)| - 1] == cs[|cs| - 1] <==> LastMetLast(cs)
  {
    KeepFirstOrder(cs);
    var kept, last := KeepFirst(cs), cs[|cs| - 1];
    assert last in kept;
    var z := kept[|kept| - 1];
    forall c | c in cs ensures FirstIndex(cs, c) <= FirstIndex(cs, z) {
      var i :| 0 <= i < |kept| && kept[i] == c;
    }
    if LastMetLast(cs) {
      assert FirstIndex(cs, z) == FirstIndex(cs, last);
      assert cs[FirstIndex(cs, z)] == z && cs[FirstIndex(cs, last)] == last;
    }
  }

  /** A last stage with a name of its own meets the condition. */
  lemma {:induction false} OwnNameMetLast(doc: seq<Instr>)
    requires var ss := Stages(doc);
             ss != [] && ss[|ss| - 1].alias.Some? && forall j :: 0 <= j < |ss| - 1 ==> ss[j].alias != ss[|ss| - 1].alias
    ensures LastMetLast(Chunks(doc))
  {
    var ss, cs := Stages(doc), Chunks(doc);
    ChunksSplit(doc);
    LastStageOf(cs);
    var before, c := cs[..|cs| - 1], cs[|cs| - 1];
    StageOfChunk(c);
    StagesConcat(Flatten(before), c);
    var earlier := Stages(Flatten(before));
    forall j | 0 <= j < |earlier| ensures earlier[j] != Stages(c)[0] {
      assert earlier[j] == ss[j];
    }
    if c in before {
      ChunkMember(before, c);
    }
    assert FirstIndex(cs, c) == |cs| - 1;
  }

  lemma {:induction false} LastStageOf(cs: seq<Chunk>)
    requires WellChunked(cs) && Stages(Flatten(cs)) != []
    ensures cs != [] && StageChunk(cs[|cs| - 1])
    ensures var ss, c := Stages(Flatten(cs)), cs[|cs| - 1];
            ss[|ss| - 1] == Stage(c[0].base, c[0].alias, Effective(c[1..]))
  {
    var before, c := cs[..|cs| - 1], cs[|cs| - 1];
    if StageChunk(c) {
      StageOfChunk(c);
      StagesConcat(Flatten(before), c);
    } else {
      assert before == [] && [] + c == c;
      FromFreeStages(c);
    }
  }

  lemma {:induction false} LastStageKept(doc: seq<Instr>)
    requires Stages(doc) != [] && LastMetLast(Chunks(doc))
    ensures Stages(Deduplicated(doc)) != []
    ensures var s, t := Stages(doc), Stages(Deduplicated(doc)); t[|t| - 1] == s[|s| - 1]
  {
    var cs := Chunks(doc);
    ChunksSplit(doc);
    LastStageOf(cs);
    LastChunkKept(cs);
    KeepFirstWellChunked(cs);
    DeduplicationThins(doc);
    ThinnedMembers(Stages(doc), Stages(Deduplicated(doc)), Stages(doc)[0]);
    LastStageOf(KeepFirst(cs));
  }

  /** If the last stage stays last, the list still builds the same image. */
  lemma {:induction false} ThinnedLast(s: seq<Stage>, t: seq<Stage>)
    requires Thinned(s, t) && WellScoped(s) && Uniform(s)
    requires s != [] && t != [] && t[|t| - 1] == s[|s| - 1]
    ensures LastImage(map[], t) == LastImage(map[], s)
  {
    ThinnedEnv(s, t);
    ThinnedFree(s, t);
    ThinnedDeclares(s, t);
    ThinnedUniform(s, t);
    LastSettles(s);
    LastSettles(t);
  }

  lemma {:induction false} ThinnedRenamed(rho: Renaming, s: seq<Stage>, t: seq<Stage>)
    requires Thinned(s, t)
    ensures Thinned(RenameStages(rho, s), RenameStages(rho, t))
  {
    if s != [] {
      var before, x := s[..|s| - 1], s[|s| - 1];
      RenameStagesSnoc(rho, s);
      if t != [] && t[|t| - 1] == x && Thinned(before, t[..|t| - 1]) {
        RenameStagesSnoc(rho, t);
        ThinnedRenamed(rho, before, t[..|t| - 1]);
      } else {
        ThinnedRenamed(rho, before, t);
        var k :| 0 <= k < |before| && before[k] == x;
        assert RenameStages(rho, before)[k] == RenameStage(rho, x);
      }
    }
  }

  /** Deduplication keeps the image of every name, and the document's own image if no stage is
      first met after the last one. */
  lemma {:induction false} DeduplicationKeepsMeaning(doc: seq<Instr>)
    requires WellScoped(Stages(doc)) && Uniform(Stages(doc))
    ensures EnvOf(map[], Stages(Deduplicated(doc))) == EnvOf(map[], Stages(doc))
    ensures Stages(doc) != [] && LastMetLast(Chunks(doc)) ==>
              Stages(Deduplicated(doc)) != []
              && LastImage(map[], Stages(Deduplicated(doc))) == LastImage(map[], Stages(doc))
  {
    DeduplicationThins(doc);
    ThinnedEnv(Stages(doc), Stages(Deduplicated(doc)));
    if Stages(doc) != [] && LastMetLast(Chunks(doc)) {
      LastStageKept(doc);
      ThinnedLast(Stages(doc), Stages(Deduplicated(doc)));
    }
  }

  lemma {:induction false} NameHasChunk(cs: seq<Chunk>, n: string)
    requires WellChunked(cs) && n in Names(Stages(Flatten(cs)))
    ensures exists c: Chunk :: c in cs && StageChunk(c) && c[0].alias == Some(n)
  {
    var before, c := cs[..|cs| - 1], cs[|cs| - 1];
    if StageChunk(c) {
      LastChunkNames(before, c);
      if n in Names(Stages(Flatten(before))) {
        NameHasChunk(before, n);
        var d: Chunk :| d in before && StageChunk(d) && d[0].alias == Some(n);
        assert d in cs;
      } else {
        assert c in cs;
      }
    } else {
      assert before == [] && [] + c == c;
      FromFreeStages(c);
    }
  }

  lemma {:induction false} LastChunkNames(before: seq<Chunk>, c: Chunk)
    requires StageChunk(c)
    ensures Names(Stages(Flatten(before) + c)) ==
            Names(Stages(Flatten(before))) + (if c[0].alias.Some? then [c[0].alias.value] else [])
  {
    StageOfChunk(c);
    StagesConcat(Flatten(before), c);
    NamesConcat(Stages(Flatten(before)), Stages(c));
    assert Stages(c)[..0] == [];
  }

  lemma {:induction false} NewName(before: seq<Chunk>, c: Chunk)
    requires WellChunked(before) && StageChunk(c) && c[0].alias.Some? && Distinct(before + [c])
    requires OneTextPerName(before + [c])
    ensures c[0].alias.value !in Names(Stages(Flatten(before)))
  {
    forall k | 0 <= k < |before| ensures before[k] != c {
      assert (before + [c])[k] == before[k] && (before + [c])[|before|] == c;
    }
    assert forall d: Chunk :: d in before ==> d in before + [c];
    if c[0].alias.value in Names(Stages(Flatten(before))) {
      NameHasChunk(before, c[0].alias.value);
    }
  }

  lemma {:induction false} DistinctSnoc(names: seq<string>, n: string)
    requires Distinct(names) && n !in names
    ensures Distinct(names + [n])
  {
  }

  lemma {:induction false} DistinctChunksNames(cs: seq<Chunk>)
    requires WellChunked(cs) && Distinct(cs) && OneTextPerName(cs)
    ensures Distinct(Names(Stages(Flatten(cs))))
  {
    if cs != [] {
      var before, c := cs[..|cs| - 1], cs[|cs| - 1];
      assert cs == before + [c];
      DistinctChunksNames(before);
      if StageChunk(c) {
        LastChunkNames(before, c);
        if c[0].alias.Some? {
          NewName(before, c);
          DistinctSnoc(Names(Stages(Flatten(before))), c[0].alias.value);
        } else {
          assert Names(Stages(Flatten(before))) + [] == Names(Stages(Flatten(before)));
        }
      } else {
        assert before == [] && [] + c == c;
        FromFreeStages(c);
      }
    }
  }

  /** If equal names mean equal text, every name is declared once afterwards. */
  lemma {:induction false} DeduplicationDeclaresOnce(doc: seq<Instr>)
    requires OneTextPerName(Chunks(doc))
    ensures Distinct(Names(Stages(Deduplicated(doc))))
  {
    var cs := Chunks(doc);
    ChunksSplit(doc);
    KeepFirstWellChunked(cs);
    KeepFirstOrder(cs);
    DistinctChunksNames(KeepFirst(cs));
  }
}
