/** The documents of an including file that names two targets of one file. */
module TwoLoads {
  import opened Dockerfile
  import opened ScopeStages
  import opened DeduplicateStages
  import opened FirstOccurrences
  import opened PostProcessDockerfile
  import opened LoadDockerfile
  import opened LineSteps
  import opened IncludedFiles
  import opened TwoTargets

  // What deduplication leaves of the stages

  /** Stages that are the same have the same text, comments and ARGs included. */
  ghost predicate SameText(cs: seq<Chunk>) {
    forall c: Chunk, d: Chunk :: c in cs && d in cs && StageChunk(c) && StageChunk(d) && Stages(c) == Stages(d) ==>
      c == d
  }

  lemma {:induction false} FlattenLast(cs: seq<Chunk>)
    requires WellChunked(cs) && cs != []
    ensures var before, last := cs[..|cs| - 1], cs[|cs| - 1];
            Stages(Flatten(cs)) == if StageChunk(last) then Stages(Flatten(before)) + Stages(last) else []
  {
    var before, last := cs[..|cs| - 1], cs[|cs| - 1];
    if StageChunk(last) {
      StageOfChunk(last);
      StagesConcat(Flatten(before), last);
    } else {
      assert before == [] && Flatten(cs) == [] + last == last;
      FromFreeStages(last);
    }
  }

  lemma {:induction false} KeepFirstThinned(s: seq<Stage>)
    ensures Thinned(s, KeepFirst(s))
  {
    if s != [] {
      KeepFirstThinned(s[..|s| - 1]);
      if s[|s| - 1] !in s[..|s| - 1] {
        assert KeepFirst(s)[..|KeepFirst(s)| - 1] == KeepFirst(s[..|s| - 1]);
      }
    }
  }

  lemma {:induction false} SingleStage(c: Chunk, x: Stage)
    requires StageChunk(c) && x in Stages(c)
    ensures Stages(c) == [x]
  {
    StageOfChunk(c);
  }

  lemma {:induction false} StageHasChunk(cs: seq<Chunk>, x: Stage) returns (c: Chunk)
    requires WellChunked(cs) && x in Stages(Flatten(cs))
    ensures c in cs && StageChunk(c) && Stages(c) == [x]
  {
    var before, last := cs[..|cs| - 1], cs[|cs| - 1];
    assert cs == before + [last];
    FlattenLast(cs);
    if x in Stages(last) {
      SingleStage(last, x);
      c := last;
    } else {
      c := StageHasChunk(before, x);
    }
  }

  lemma {:induction false} ChunksKept(cs: seq<Chunk>)
    requires WellChunked(cs) && SameText(cs)
    ensures Stages(Flatten(KeepFirst(cs))) == KeepFirst(Stages(Flatten(cs)))
  {
    if cs != [] {
      var before, c := cs[..|cs| - 1], cs[|cs| - 1];
      assert cs == before + [c];
      ChunksKept(before);
      if StageChunk(c) {
        StageOfChunk(c);
        StagesConcat(Flatten(before), c);
        StagesConcat(Flatten(KeepFirst(before)), c);
        ChunkDropped(before, c);
        assert KeepFirst(before + [c]) == if c in before then KeepFirst(before) else KeepFirst(before) + [c];
        assert (KeepFirst(before) + [c])[..|KeepFirst(before)|] == KeepFirst(before);
      } else {
        assert before == [] && KeepFirst(cs) == [c] && [c][..0] == [] && Flatten(cs) == [] + c == c == Flatten([c]);
        FromFreeStages(c);
      }
    }
  }

  lemma {:induction false} ChunkDropped(before: seq<Chunk>, c: Chunk)
    requires WellChunked(before) && StageChunk(c) && SameText(before + [c])
    ensures Stages(c) != [] && (c in before <==> Stages(c)[0] in Stages(Flatten(before)))
  {
    StageOfChunk(c);
    if c in before {
      ChunkMember(before, c);
    }
    if Stages(c)[0] in Stages(Flatten(before)) {
      var d := StageHasChunk(before, Stages(c)[0]);
      assert d in before + [c] && c in before + [c];
    }
  }

  lemma {:induction false} StagesKept(doc: seq<Instr>)
    requires SameText(Chunks(doc))
    ensures Stages(Deduplicated(doc)) == KeepFirst(Stages(doc))
  {
    ChunksSplit(doc);
    ChunksKept(Chunks(doc));
  }

  lemma {:induction false} StagesPlain(doc: seq<Instr>)
    ensures PlainBodies(Stages(doc))
  {
    if doc != [] {
      var before, i := doc[..|doc| - 1], doc[|doc| - 1];
      StagesPlain(before);
      var ss := Stages(before);
      if !i.From? && !NoOp(i) && ss != [] {
        assert ss[|ss| - 1] in ss;
        forall x | x in Stages(doc) ensures x in ss || x == ss[|ss| - 1].(body := ss[|ss| - 1].body + [i]) {
        }
      }
    }
  }

  // Repeated stages of the file

  /** Where stage k stands among the first occurrences. */
  function At(s: seq<Stage>, k: nat): (i: nat)
    requires k < |s|
    ensures i < |KeepFirst(s)| && KeepFirst(s)[i] == s[k]
  {
    KeepFirstMembers(s, s[k]);
    FirstIndex(KeepFirst(s), s[k])
  }

  lemma {:induction false} KeptApart(s: seq<Stage>)
    requires Uniform(s) && WellScoped(s) && PlainBodies(s) && forall x :: x in s ==> x.alias.Some?
    ensures var d := KeepFirst(s);
            AllOnly(d) && WellScoped(d) && PlainBodies(d) && Declared(d) == Declared(s) && Free(d) <= Free(s)
  {
    var d := KeepFirst(s);
    KeepFirstThinned(s);
    ThinnedDeclares(s, d);
    ThinnedFree(s, d);
    KeepFirstApart(s);
    forall x ensures x in d <==> x in s {
      KeepFirstMembers(s, x);
    }
  }

  lemma {:induction false} SplitSame(a: seq<Stage>, x: Stage, b: seq<Stage>, alias: string)
    requires forall y :: y in b ==> y.alias != x.alias && y.alias != Some(alias)
    ensures Newer(a + [x], b) == Newer(a + SplitPair(x, alias), b)
  {
    NewerSame(a + [x], a + SplitPair(x, alias), b);
  }

  lemma {:induction false} SplitLists(a: seq<Stage>, x: Stage, b: seq<Stage>, alias: string)
    requires x.alias.Some? && x.alias != Some(alias)
    requires forall y: Stage :: y in a || y in b ==> y.alias != x.alias && y.alias != Some(alias)
    ensures KeepFirst(a + [x] + b) == KeepFirst(a) + [x] + Newer(a + [x], b)
    ensures KeepFirst(a + SplitPair(x, alias) + b) == KeepFirst(a) + SplitPair(x, alias) + Newer(a + [x], b)
  {
    var p := SplitPair(x, alias);
    KeptWith(a, x, b);
    KeptWith(a, p[0], []);
    KeptWith(a + [p[0]], p[1], b);
    assert a + [p[0]] + [p[1]] == a + p;
    assert KeepFirst(a) + [p[0]] + [p[1]] == KeepFirst(a) + p;
    SplitSame(a, x, b, alias);
  }

  lemma {:induction false} SplitKept(s: seq<Stage>, k: nat, alias: string)
    requires OnlyAt(s, k) && alias !in Declared(s)
    ensures KeepFirst(SplitStage(s, k, alias)) == SplitStage(KeepFirst(s), At(s, k), alias)
  {
    var a, x, b := s[..k], s[k], s[k + 1..];
    assert s == a + [x] + b;
    CutAt(s, k);
    forall y: Stage | y in a || y in b ensures y.alias != x.alias && y.alias != Some(alias) {
      OtherStage(s, k, alias, y);
    }
    SplitLists(a, x, b, alias);
    KeptElsewhere(a, x, b);
    SplitAtKept(KeepFirst(a), x, Newer(a + [x], b), At(s, k), alias);
  }

  lemma {:induction false} OtherStage(s: seq<Stage>, k: nat, alias: string, y: Stage)
    requires OnlyAt(s, k) && alias !in Declared(s) && y in s[..k] + s[k + 1..]
    ensures y.alias != s[k].alias && y.alias != Some(alias)
  {
    CutAt(s, k);
    DeclaredIff(s[..k], s[k].alias.value);
    DeclaredIff(s[k + 1..], s[k].alias.value);
    DeclaredIff(s, alias);
    assert y in s;
  }

  lemma {:induction false} SplitAtKept(a: seq<Stage>, x: Stage, b: seq<Stage>, i: nat, alias: string)
    requires i < |a + [x] + b| && (a + [x] + b)[i] == x && x !in a && x !in b
    ensures SplitStage(a + [x] + b, i, alias) == a + SplitPair(x, alias) + b
  {
    var s := a + [x] + b;
    assert forall j :: 0 <= j < |a| ==> s[j] == a[j];
    assert forall j :: 0 <= j < |b| ==> s[|a| + 1 + j] == b[j];
    assert i == |a|;
    assert s[..i] == a && s[i + 1..] == b;
  }

  // Two loads of one file

  /** The file as scoping leaves it, each stage once. */
  function FileStages(prefix: string, g: seq<Instr>): seq<Stage> {
    KeepFirst(Stages(Scoped(prefix, g)))
  }

  lemma {:induction false} ScopedNamed(c: Context, g: seq<Instr>, k: nat, x: Stage)
    requires Includable(c, g, k) && forall y :: y in Stages(Defaulted(g)) ==> y.alias.Some?
    requires x in Stages(Scoped(c.prefix, g))
    ensures x.alias.Some?
  {
    var dd, s := Stages(Defaulted(g)), Stages(Scoped(c.prefix, g));
    ScopedFile(c, g, k);
    var i :| 0 <= i < |s| && s[i] == x;
    assert dd[i] in dd;
  }

  lemma {:induction false} FileStagesOk(c: Context, g: seq<Instr>, k: nat)
    requires Includable(c, g, k) && forall y :: y in Stages(Defaulted(g)) ==> y.alias.Some?
    ensures var s, d := Stages(Scoped(c.prefix, g)), FileStages(c.prefix, g);
            && AllOnly(d) && WellScoped(d) && PlainBodies(d) && c.alias.value !in Declared(d) + Free(d)
            && OnlyAt(s, k) && Declared(d) == Declared(s) && Free(d) <= Free(s) && c.alias.value !in Declared(s)
  {
    var s := Stages(Scoped(c.prefix, g));
    forall x | x in s ensures x.alias.Some? {
      ScopedNamed(c, g, k, x);
    }
    ScopedFile(c, g, k);
    StagesPlain(Scoped(c.prefix, g));
    KeptApart(s);
  }

  lemma {:induction false} LoadedStages(hash: string -> string, c: Context, g: seq<Instr>, k: nat)
    requires Includable(c, g, k) && forall y :: y in Stages(Defaulted(g)) ==> y.alias.Some?
    requires SameText(Chunks(Aliased(c, g)))
    ensures PostProcessed(hash, c, g).Ok? && Anchored(PostProcessed(hash, c, g).value)
    ensures k < |Stages(Scoped(c.prefix, g))|
    ensures Stages(PostProcessed(hash, c, g).value)
            == SplitStage(FileStages(c.prefix, g), At(Stages(Scoped(c.prefix, g)), k), c.alias.value)
  {
    FileStagesOk(c, g, k);
    AliasedFile(c, g, k);
    IncludedResult(hash, c, g, k);
    OutcomeKeeps(c, g, k);
    StagesKept(Aliased(c, g));
    SplitKept(Stages(Scoped(c.prefix, g)), k, c.alias.value);
  }

  /** The wanted stage means the same in the list of first occurrences and in the file. */
  lemma {:induction false} FileMeaning(c: Context, g: seq<Instr>, k: nat)
    requires Includable(c, g, k) && forall y :: y in Stages(Defaulted(g)) ==> y.alias.Some?
    ensures k < |Stages(Scoped(c.prefix, g))|
    ensures var dd, d := Stages(Defaulted(g)), FileStages(c.prefix, g);
            Resolve(EnvOf(map[], d), NameAt(d, At(Stages(Scoped(c.prefix, g)), k)))
              == Resolve(EnvOf(map[], dd), dd[k].alias.value)
  {
    var s := Stages(Scoped(c.prefix, g));
    ScopedFile(c, g, k);
    LiveMeaning(c, g, k);
    KeepFirstThinned(s);
    ThinnedEnv(s, FileStages(c.prefix, g));
  }

  /** The file for one target, what the including file has between, and the file for another. */
  function Twice(text: string, display: string, kind: string, v: seq<Instr>, mid: seq<Instr>, more: string,
                 w: seq<Instr>): seq<Instr>
  {
    Framed(text, display, kind, v) + mid + Framed(text, display, more, w)
  }

  lemma {:induction false} TwiceStages(text: string, display: string, kind: string, v: seq<Instr>, mid: seq<Instr>,
                                       more: string, w: seq<Instr>)
    requires Anchored(v) && Anchored(mid) && Anchored(w)
    ensures Stages(Twice(text, display, kind, v, mid, more, w)) == Stages(v) + Stages(mid) + Stages(w)
  {
    FramedStages(text, display, kind, v);
    FramedStages(text, display, more, w);
    StagesConcat(Framed(text, display, kind, v), mid);
    StagesConcat(Framed(text, display, kind, v) + mid, Framed(text, display, more, w));
  }

  /** The two contexts load one file under one alias, for different stages. */
  ghost predicate TwoContexts(c: Context, e: Context, g: seq<Instr>, k: nat, m: nat) {
    && Includable(c, g, k) && Includable(e, g, m) && k != m && c.prefix == e.prefix && c.alias == e.alias
    && forall y :: y in Stages(Defaulted(g)) ==> y.alias.Some?
  }

  /** Two loads of one file in one document: behind the second, the alias means its target exactly
      if the target does not depend on the first one through a stage between them. */
  lemma {:induction false} SecondTargetExact(hash: string -> string, c: Context, e: Context, g: seq<Instr>, k: nat,
                                             m: nat, text: string, display: string, kind: string, mid: seq<Instr>,
                                             more: string)
    requires TwoContexts(c, e, g, k, m)
    requires Anchored(mid) && Between(Stages(Scoped(c.prefix, g)), c.alias.value, Stages(mid))
    requires SameText(Chunks(Aliased(c, g))) && SameText(Chunks(Aliased(e, g)))
    requires var v, w := PostProcessed(hash, c, g), PostProcessed(hash, e, g);
             v.Ok? && w.Ok? ==> SameText(Chunks(Twice(text, display, kind, v.value, mid, more, w.value)))
    ensures PostProcessed(hash, c, g).Ok? && PostProcessed(hash, e, g).Ok?
    ensures var s, d, dd := Stages(Scoped(c.prefix, g)), FileStages(c.prefix, g), Stages(Defaulted(g));
            var v, w := PostProcessed(hash, c, g).value, PostProcessed(hash, e, g).value;
            var env := EnvOf(map[], Stages(Deduplicated(Twice(text, display, kind, v, mid, more, w))));
            && k < |s| && m < |s| && AllOnly(d)
            && (Resolve(env, c.alias.value) == Resolve(EnvOf(map[], dd), dd[m].alias.value)
                <==> SecondSafe(d, At(s, k), At(s, m)))
  {
    var s, d := Stages(Scoped(c.prefix, g)), FileStages(c.prefix, g);
    FileStagesOk(c, g, k);
    FileStagesOk(e, g, m);
    LoadedStages(hash, c, g, k);
    LoadedStages(hash, e, g, m);
    FileMeaning(e, g, m);
    var v, w := PostProcessed(hash, c, g).value, PostProcessed(hash, e, g).value;
    TwiceStages(text, display, kind, v, mid, more, w);
    StagesKept(Twice(text, display, kind, v, mid, more, w));
    SecondTargetStages(d, At(s, k), At(s, m), c.alias.value, Stages(mid));
  }

  /** `--from` of a file for the stage m behind a FROM of it for the stage k: the text for m goes in
      front, so the copy reads stage k, and is right exactly if both stages have the same image. */
  lemma {:induction false} SecondCopyExact(hash: string -> string, c: Context, e: Context, g: seq<Instr>, k: nat,
                                           m: nat, text: string, display: string)
    requires TwoContexts(c, e, g, k, m)
    requires SameText(Chunks(Aliased(c, g))) && SameText(Chunks(Aliased(e, g)))
    requires var v, w := PostProcessed(hash, c, g), PostProcessed(hash, e, g);
             v.Ok? && w.Ok? ==> SameText(Chunks(Twice(text, display, "fromParam", w.value, [], "from", v.value)))
    requires k < |Stages(Scoped(c.prefix, g))| && m < |Stages(Scoped(c.prefix, g))| && AllOnly(FileStages(c.prefix, g))
    requires SecondSafe(FileStages(c.prefix, g), At(Stages(Scoped(c.prefix, g)), m), At(Stages(Scoped(c.prefix, g)), k))
    ensures PostProcessed(hash, c, g).Ok? && PostProcessed(hash, e, g).Ok?
    ensures var whole, dd := EnvOf(map[], Stages(Defaulted(g))), Stages(Defaulted(g));
            var v, w := PostProcessed(hash, c, g).value, PostProcessed(hash, e, g).value;
            var env := EnvOf(map[], Stages(Deduplicated(Twice(text, display, "fromParam", w, [], "from", v))));
            k < |dd| && m < |dd| && dd[k].alias.Some? && dd[m].alias.Some?
            && (Resolve(env, c.alias.value) == Resolve(whole, dd[m].alias.value)
                <==> Resolve(whole, dd[k].alias.value) == Resolve(whole, dd[m].alias.value))
  {
    SecondTargetExact(hash, e, c, g, m, k, text, display, "fromParam", [], "from");
  }
}
