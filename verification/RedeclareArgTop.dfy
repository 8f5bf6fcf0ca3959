/** src/lib/redeclareArgTop.js: ARG lines that stood before the first FROM of an included file are
    declared again at the top of the root output. */
module RedeclareArgTop {
  import opened Dockerfile
  import opened DeduplicateStages
  import opened SanitizeStageNames
  import opened IncludeComments

  const START_MARK := "# DOCKERFILE-X:START"

  datatype Hoist = Hoist(inGlobalTop: bool, inLocalTop: bool, allArgs: seq<string>)

  const NO_HOIST := Hoist(true, false, [])

  /** A line that looks like a START comment but cannot be read makes the source throw. */
  predicate Readable(i: Instr) {
    i.Comment? && START_MARK <= i.text ==> START_PREFIX <= i.text
  }

  /** The START comment of a FROM or `--from` inclusion. */
  predicate Opens(text: string) {
    START_MARK <= text && StartAttributes(text).Some? &&
    var attrs := StartAttributes(text).value;
    "includeType" in attrs && attrs["includeType"] in ["from", "fromParam"]
  }

  predicate Opening(opens: string -> bool, i: Instr) {
    i.Comment? && opens(i.text)
  }

  function FirstWord(words: seq<string>): string {
    if words == [] then "undefined" else words[0]
  }

  function AddOnce(args: seq<string>, arg: string): seq<string> {
    if arg in args then args else args + [arg]
  }

  function HoistStep(opens: string -> bool, h: Hoist, i: Instr): Hoist {
    if i.From? then Hoist(false, false, h.allArgs)
    else if Opening(opens, i) then h.(inLocalTop := true)
    else if i.Arg? && !h.inGlobalTop && h.inLocalTop then h.(allArgs := AddOnce(h.allArgs, FirstWord(i.words)))
    else h
  }

  function HoistOf(opens: string -> bool, doc: seq<Instr>): Hoist {
    if doc == [] then NO_HOIST else HoistStep(opens, HoistOf(opens, doc[..|doc| - 1]), doc[|doc| - 1])
  }

  function ArgLines(args: seq<string>): seq<Instr> {
    seq(|args|, k requires 0 <= k < |args| => Arg([args[k]]))
  }

  function Redeclared(doc: seq<Instr>): seq<Instr> {
    ArgLines(HoistOf(Opens, doc).allArgs) + doc
  }

  // Which ARGs are hoisted

  /** The line at s is a START, and no FROM follows it. */
  ghost predicate OpenSince(opens: string -> bool, doc: seq<Instr>, s: int) {
    0 <= s < |doc| && Opening(opens, doc[s]) && forall f :: s < f < |doc| ==> !doc[f].From?
  }

  /** Position j stands after some FROM, and after a START with no FROM in between. */
  ghost predicate InPreamble(opens: string -> bool, doc: seq<Instr>, j: nat)
    requires j <= |doc|
  {
    && (exists f :: 0 <= f < j && doc[f].From?)
    && (exists s :: OpenSince(opens, doc[..j], s))
  }

  /** The instruction is an ARG with this first word, which JavaScript prints as `undefined` if there
      is none. */
  predicate Declares(i: Instr, arg: string) {
    i.Arg? && (if i.words == [] then arg == "undefined" else arg == i.words[0])
  }

  ghost predicate HoistedBy(opens: string -> bool, doc: seq<Instr>, j: int, arg: string) {
    0 <= j < |doc| && Declares(doc[j], arg) && InPreamble(opens, doc, j)
  }

  lemma {:induction false} OpenSnoc(opens: string -> bool, doc: seq<Instr>, i: Instr, s: int)
    ensures OpenSince(opens, doc + [i], s) <==>
            (s == |doc| && Opening(opens, i)) || (OpenSince(opens, doc, s) && !i.From?)
  {
    var more := doc + [i];
    assert more[|doc|] == i;
    assert forall k :: 0 <= k < |doc| ==> more[k] == doc[k];
  }

  lemma {:induction false} StateAt(opens: string -> bool, doc: seq<Instr>)
    ensures HoistOf(opens, doc).inGlobalTop <==> forall f :: 0 <= f < |doc| ==> !doc[f].From?
    ensures HoistOf(opens, doc).inLocalTop <==> exists s :: OpenSince(opens, doc, s)
  {
    if doc != [] {
      var before, i := doc[..|doc| - 1], doc[|doc| - 1];
      assert doc == before + [i];
      StateAt(opens, before);
      forall s ensures OpenSince(opens, doc, s) <==>
                       (s == |before| && Opening(opens, i)) || (OpenSince(opens, before, s) && !i.From?)
      {
        OpenSnoc(opens, before, i, s);
      }
      if Opening(opens, i) {
        assert OpenSince(opens, doc, |before|);
      }
    }
  }

  lemma {:induction false} PreambleAt(opens: string -> bool, doc: seq<Instr>, more: seq<Instr>)
    requires doc <= more
    ensures InPreamble(opens, more, |doc|) <==> !HoistOf(opens, doc).inGlobalTop && HoistOf(opens, doc).inLocalTop
  {
    StateAt(opens, doc);
    assert more[..|doc|] == doc;
  }

  lemma {:induction false} HoistedSnoc(opens: string -> bool, doc: seq<Instr>, i: Instr, j: int, arg: string)
    ensures HoistedBy(opens, doc + [i], j, arg) <==>
            HoistedBy(opens, doc, j, arg)
            || (j == |doc| && Declares(i, arg)
                && !HoistOf(opens, doc).inGlobalTop && HoistOf(opens, doc).inLocalTop)
  {
    var more := doc + [i];
    if j == |doc| {
      PreambleAt(opens, doc, more);
    } else if 0 <= j < |doc| {
      assert more[..j] == doc[..j] && more[j] == doc[j];
      PreambleAt(opens, doc[..j], more);
      PreambleAt(opens, doc[..j], doc);
    }
  }

  /** The hoisted ARGs are those between the START of a FROM or `--from` inclusion and the next
      FROM, outside the top of the document; each is declared once. */
  lemma {:induction false} HoistedExactly(opens: string -> bool, doc: seq<Instr>, arg: string)
    ensures arg in HoistOf(opens, doc).allArgs <==> exists j :: HoistedBy(opens, doc, j, arg)
    ensures Distinct(HoistOf(opens, doc).allArgs)
  {
    if doc != [] {
      var before, i := doc[..|doc| - 1], doc[|doc| - 1];
      assert doc == before + [i];
      HoistedExactly(opens, before, arg);
      forall j ensures HoistedBy(opens, doc, j, arg) <==>
                       HoistedBy(opens, before, j, arg)
                       || (j == |before| && Declares(i, arg)
                           && !HoistOf(opens, before).inGlobalTop && HoistOf(opens, before).inLocalTop)
      {
        HoistedSnoc(opens, before, i, j, arg);
      }
      if arg in HoistOf(opens, doc).allArgs && arg !in HoistOf(opens, before).allArgs {
        assert HoistedBy(opens, doc, |before|, arg);
      }
    }
  }

  /** The word a is met before every place where b is met. */
  ghost predicate MetBefore(opens: string -> bool, doc: seq<Instr>, a: string, b: string) {
    forall j :: HoistedBy(opens, doc, j, b) ==> exists i :: i < j && HoistedBy(opens, doc, i, a)
  }

  lemma {:induction false} StillBefore(opens: string -> bool, doc: seq<Instr>, i: Instr, a: string, b: string)
    requires MetBefore(opens, doc, a, b) && exists j :: HoistedBy(opens, doc, j, b)
    ensures MetBefore(opens, doc + [i], a, b)
  {
    var l :| HoistedBy(opens, doc, l, b);
    forall j | HoistedBy(opens, doc + [i], j, b) ensures exists n :: n < j && HoistedBy(opens, doc + [i], n, a) {
      HoistedSnoc(opens, doc, i, j, b);
      var n :| n < (if HoistedBy(opens, doc, j, b) then j else l) && HoistedBy(opens, doc, n, a);
      HoistedSnoc(opens, doc, i, n, a);
    }
  }

  lemma {:induction false} NewBehind(opens: string -> bool, doc: seq<Instr>, i: Instr, a: string, b: string)
    requires (exists j :: HoistedBy(opens, doc, j, a)) && !exists j :: HoistedBy(opens, doc, j, b)
    ensures MetBefore(opens, doc + [i], a, b)
  {
    var n :| HoistedBy(opens, doc, n, a);
    HoistedSnoc(opens, doc, i, n, a);
    forall j | HoistedBy(opens, doc + [i], j, b) ensures n < j && HoistedBy(opens, doc + [i], n, a) {
      HoistedSnoc(opens, doc, i, j, b);
    }
  }

  /** The list is in the order in which the words are met first. */
  lemma {:induction false} HoistedInOrder(opens: string -> bool, doc: seq<Instr>, k: nat, m: nat)
    requires k < m < |HoistOf(opens, doc).allArgs|
    ensures MetBefore(opens, doc, HoistOf(opens, doc).allArgs[k], HoistOf(opens, doc).allArgs[m])
  {
    var before, i := doc[..|doc| - 1], doc[|doc| - 1];
    assert doc == before + [i];
    var known, args := HoistOf(opens, before).allArgs, HoistOf(opens, doc).allArgs;
    assert known <= args && args[k] == known[k];
    HoistedExactly(opens, before, args[k]);
    HoistedExactly(opens, before, args[m]);
    if m < |known| {
      HoistedInOrder(opens, before, k, m);
      StillBefore(opens, before, i, args[k], args[m]);
    } else {
      HoistedExactly(opens, doc, args[m]);
      NewBehind(opens, before, i, args[k], args[m]);
    }
  }

  /** The lines `top` declare the hoisted words of the document again, and nothing else: ARGs of one
      word, each once, in the order in which they are met first. */
  ghost predicate DeclaresAgain(opens: string -> bool, doc: seq<Instr>, top: seq<Instr>) {
    && (forall k :: 0 <= k < |top| ==> top[k].Arg? && |top[k].words| == 1)
    && (forall arg :: Arg([arg]) in top <==> exists j :: HoistedBy(opens, doc, j, arg))
    && (forall k, m :: 0 <= k < m < |top| ==> top[k] != top[m])
    && (forall k, m :: 0 <= k < m < |top| ==> MetBefore(opens, doc, top[k].words[0], top[m].words[0]))
  }

  lemma {:induction false} LinesOf(args: seq<string>)
    ensures var top := ArgLines(args);
            && |top| == |args|
            && (forall k :: 0 <= k < |top| ==> top[k].Arg? && top[k].words == [args[k]])
            && (forall arg :: Arg([arg]) in top <==> arg in args)
  {
    var top := ArgLines(args);
    forall arg ensures Arg([arg]) in top <==> arg in args {
      if k :| 0 <= k < |args| && args[k] == arg {
        assert top[k] == Arg([arg]);
      }
    }
  }

  lemma {:induction false} LinesDeclareAgain(opens: string -> bool, doc: seq<Instr>)
    ensures DeclaresAgain(opens, doc, ArgLines(HoistOf(opens, doc).allArgs))
  {
    var args := HoistOf(opens, doc).allArgs;
    LinesOf(args);
    forall k, m | 0 <= k < m < |args| ensures MetBefore(opens, doc, args[k], args[m]) {
      HoistedInOrder(opens, doc, k, m);
    }
    forall arg ensures arg in args <==> exists j :: HoistedBy(opens, doc, j, arg) {
      HoistedExactly(opens, doc, arg);
    }
    HoistedExactly(opens, doc, "");
  }

  /** The output is the document with these lines on top. */
  lemma {:induction false} RedeclaredExactly(doc: seq<Instr>)
    ensures var out := Redeclared(doc);
            && |doc| <= |out| && out[|out| - |doc|..] == doc
            && DeclaresAgain(Opens, doc, out[..|out| - |doc|])
  {
    LinesDeclareAgain(Opens, doc);
    var top := ArgLines(HoistOf(Opens, doc).allArgs);
    assert (top + doc)[|top|..] == doc && (top + doc)[..|top|] == top;
  }

  method RedeclareArgs(doc: seq<Instr>) returns (result: Option<seq<Instr>>)
    ensures result.Some? <==> forall k :: 0 <= k < |doc| ==> Readable(doc[k])
    ensures result.Some? ==> result.value == Redeclared(doc)
    ensures result.Some? ==>
              var out := result.value;
              && |doc| <= |out| && out[|out| - |doc|..] == doc
              && DeclaresAgain(Opens, doc, out[..|out| - |doc|])
  {
    var allArgs: seq<string> := [];
    var inGlobalTop, inLocalTop := true, false;
    var k := 0;
    while k < |doc|
      invariant 0 <= k <= |doc|
      invariant Hoist(inGlobalTop, inLocalTop, allArgs) == HoistOf(Opens, doc[..k])
      invariant forall j :: 0 <= j < k ==> Readable(doc[j])
    {
      assert doc[..k + 1][..k] == doc[..k];
      match doc[k] {
        case From(_, _) =>
          inGlobalTop, inLocalTop := false, false;
        case Comment(text) =>
          if START_MARK <= text {
            var attrs := ParseStartComment(text);
            if attrs.None? {
              assert !Readable(doc[k]);
              return None;
            }
            if "includeType" in attrs.value && attrs.value["includeType"] in ["from", "fromParam"] {
              inLocalTop := true;
            }
          }
        case Arg(words) =>
          if !inGlobalTop && inLocalTop && FirstWord(words) !in allArgs {
            allArgs := allArgs + [FirstWord(words)];
          }
        case _ =>
      }
      k := k + 1;
    }
    assert doc[..k] == doc;
    RedeclaredExactly(doc);
    result := Some(ArgLines(allArgs) + doc);
  }

  lemma {:induction false} OpensKind(file: string, includedBy: string, includeType: string)
    requires Word(includeType)
    ensures Opens(StartComment(file, includedBy, includeType)) <==> includeType == "from" || includeType == "fromParam"
  {
    IncludeTypeReadBack(file, includedBy, includeType);
  }

  lemma {:induction false} FrameText(file: string, includedBy: string, includeType: string)
    ensures "# DOCKERFILE-X:START file=\"" + file + "\" includedBy=\"" + includedBy + "\" includeType=\""
            + includeType + "\"" == StartComment(file, includedBy, includeType)
  {
  }

  /** Of the comments that frame included text, those of FROM and `--from` open a preamble. */
  lemma {:induction false} OpensExactly(file: string, includedBy: string, includeType: string)
    requires includeType in ["from", "fromParam", "include"]
    ensures Opens("# DOCKERFILE-X:START file=\"" + file + "\" includedBy=\"" + includedBy + "\" includeType=\""
                  + includeType + "\"")
            <==> includeType != "include"
  {
    KindIsWord(includeType);
    FrameText(file, includedBy, includeType);
    OpensKind(file, includedBy, includeType);
  }

  lemma {:induction false} LettersAreWord(s: string)
    requires s != "" && forall i :: 0 <= i < |s| ==> 'a' <= s[i] <= 'z' || 'A' <= s[i] <= 'Z'
    ensures Word(s)
  {
  }

  lemma {:induction false} KindIsWord(kind: string)
    requires kind in ["from", "fromParam", "include"]
    ensures Word(kind)
  {
    LettersAreWord(kind);
  }

  // Each stage decides for itself

  function AllOnce(args: seq<string>, more: seq<string>): seq<string> {
    if more == [] then args else AddOnce(AllOnce(args, more[..|more| - 1]), more[|more| - 1])
  }

  /** Some START stands in the chunk. */
  ghost predicate HasStart(opens: string -> bool, c: Chunk) {
    exists s :: 0 <= s < |c| && Opening(opens, c[s])
  }

  /** The ARGs of a stage that stand after a START. */
  ghost function Preamble(opens: string -> bool, c: Chunk): seq<string> {
    if c == [] then []
    else
      var before, i := c[..|c| - 1], c[|c| - 1];
      Preamble(opens, before) +
      (if i.Arg? && HasStart(opens, before) then [FirstWord(i.words)] else [])
  }

  ghost function StageArgs(opens: string -> bool, c: Chunk): seq<string> {
    if StageChunk(c) then Preamble(opens, c) else []
  }

  ghost function ChunksArgs(opens: string -> bool, cs: seq<Chunk>): seq<string> {
    if cs == [] then [] else ChunksArgs(opens, cs[..|cs| - 1]) + StageArgs(opens, cs[|cs| - 1])
  }

  lemma {:induction false} AllOnceConcat(args: seq<string>, a: seq<string>, b: seq<string>)
    ensures AllOnce(args, a + b) == AllOnce(AllOnce(args, a), b)
  {
    if b == [] {
      assert a + b == a;
    } else {
      assert (a + b)[..|a + b| - 1] == a + b[..|b| - 1];
      AllOnceConcat(args, a, b[..|b| - 1]);
    }
  }

  lemma {:induction false} AllOnceMembers(args: seq<string>, more: seq<string>, x: string)
    ensures x in AllOnce(args, more) <==> x in args || x in more
  {
    if more != [] {
      AllOnceMembers(args, more[..|more| - 1], x);
      assert more == more[..|more| - 1] + [more[|more| - 1]];
    }
  }

  lemma {:induction false} AllOnceKnown(args: seq<string>, more: seq<string>)
    requires forall x :: x in more ==> x in args
    ensures AllOnce(args, more) == args
  {
    if more != [] {
      AllOnceKnown(args, more[..|more| - 1]);
      assert more[|more| - 1] in more;
    }
  }

  lemma {:induction false} NoFromNoArgs(opens: string -> bool, doc: seq<Instr>)
    requires FromFree(doc)
    ensures HoistOf(opens, doc).allArgs == []
  {
    if doc != [] {
      NoFromNoArgs(opens, doc[..|doc| - 1]);
      StateAt(opens, doc[..|doc| - 1]);
    }
  }

  lemma {:induction false} HasStartSnoc(opens: string -> bool, c: Chunk, i: Instr)
    ensures HasStart(opens, c + [i]) <==> HasStart(opens, c) || Opening(opens, i)
  {
    var more := c + [i];
    assert more[|c|] == i;
    if s :| 0 <= s < |c| && Opening(opens, c[s]) {
      assert Opening(opens, more[s]);
    }
  }

  lemma {:induction false} PreambleSnoc(opens: string -> bool, c: Chunk, i: Instr, args: seq<string>)
    ensures AllOnce(args, Preamble(opens, c + [i])) ==
            if i.Arg? && HasStart(opens, c) then AddOnce(AllOnce(args, Preamble(opens, c)), FirstWord(i.words))
            else AllOnce(args, Preamble(opens, c))
  {
    assert (c + [i])[..|c|] == c;
    if i.Arg? && HasStart(opens, c) {
      var w := [FirstWord(i.words)];
      AllOnceConcat(args, Preamble(opens, c), w);
      assert w[..0] == [];
    } else {
      assert Preamble(opens, c) + [] == Preamble(opens, c);
    }
  }

  lemma {:induction false} HoistSnoc(opens: string -> bool, doc: seq<Instr>, c: Chunk, i: Instr)
    ensures HoistOf(opens, doc + (c + [i])) == HoistStep(opens, HoistOf(opens, doc + c), i)
  {
    var more := doc + (c + [i]);
    assert more[..|more| - 1] == doc + c && more[|more| - 1] == i;
  }

  lemma {:induction false} ChunkHoist(opens: string -> bool, doc: seq<Instr>, c: Chunk)
    requires StageChunk(c)
    ensures !HoistOf(opens, doc + c).inGlobalTop
    ensures HoistOf(opens, doc + c).inLocalTop <==> HasStart(opens, c)
    ensures HoistOf(opens, doc + c).allArgs == AllOnce(HoistOf(opens, doc).allArgs, Preamble(opens, c))
    decreases |c|
  {
    var before, i := c[..|c| - 1], c[|c| - 1];
    assert c == before + [i];
    HoistSnoc(opens, doc, before, i);
    HasStartSnoc(opens, before, i);
    PreambleSnoc(opens, before, i, HoistOf(opens, doc).allArgs);
    if before == [] {
      assert doc + before == doc && Preamble(opens, before) == [];
    } else {
      StageChunkBefore(before, i);
      ChunkHoist(opens, doc, before);
    }
  }

  /** The hoisted list is put together from the stages, one by one. */
  lemma {:induction false} HoistedByStage(opens: string -> bool, cs: seq<Chunk>)
    requires WellChunked(cs)
    ensures HoistOf(opens, Flatten(cs)).allArgs == AllOnce([], ChunksArgs(opens, cs))
  {
    if cs != [] {
      var before, c := cs[..|cs| - 1], cs[|cs| - 1];
      HoistedByStage(opens, before);
      if StageChunk(c) {
        ChunkHoist(opens, Flatten(before), c);
        AllOnceConcat([], ChunksArgs(opens, before), StageArgs(opens, c));
      } else {
        assert before == [] && [] + c == c;
        NoFromNoArgs(opens, c);
      }
    }
  }

  lemma {:induction false} ChunksArgsMember(opens: string -> bool, cs: seq<Chunk>, c: Chunk, x: string)
    requires c in cs && x in StageArgs(opens, c)
    ensures x in ChunksArgs(opens, cs)
  {
    var before := cs[..|cs| - 1];
    assert cs == before + [cs[|cs| - 1]];
    if c in before {
      ChunksArgsMember(opens, before, c, x);
    }
  }

  lemma {:induction false} RepeatsAddNothing(opens: string -> bool, cs: seq<Chunk>)
    ensures AllOnce([], ChunksArgs(opens, KeepFirst(cs))) == AllOnce([], ChunksArgs(opens, cs))
  {
    if cs != [] {
      var before, c := cs[..|cs| - 1], cs[|cs| - 1];
      RepeatsAddNothing(opens, before);
      AllOnceConcat([], ChunksArgs(opens, before), StageArgs(opens, c));
      if c in before {
        forall x | x in StageArgs(opens, c) ensures x in AllOnce([], ChunksArgs(opens, before)) {
          ChunksArgsMember(opens, before, c, x);
          AllOnceMembers([], ChunksArgs(opens, before), x);
        }
        AllOnceKnown(AllOnce([], ChunksArgs(opens, before)), StageArgs(opens, c));
      } else {
        assert KeepFirst(cs)[..|KeepFirst(before)|] == KeepFirst(before);
        AllOnceConcat([], ChunksArgs(opens, KeepFirst(before)), StageArgs(opens, c));
      }
    }
  }

  /** Deduplication changes nothing about what is hoisted. */
  lemma {:induction false} DeduplicationKeepsArgs(opens: string -> bool, doc: seq<Instr>)
    ensures HoistOf(opens, Deduplicated(doc)).allArgs == HoistOf(opens, doc).allArgs
  {
    ChunksSplit(doc);
    KeepFirstWellChunked(Chunks(doc));
    HoistedByStage(opens, Chunks(doc));
    HoistedByStage(opens, KeepFirst(Chunks(doc)));
    RepeatsAddNothing(opens, Chunks(doc));
  }

  /** And so does sanitising. */
  lemma {:induction false} SanitizingKeepsArgs(opens: string -> bool, hash: string -> string, doc: seq<Instr>)
    ensures HoistOf(opens, Sanitized(hash, doc)) == HoistOf(opens, doc)
  {
    if doc != [] {
      SanitizingKeepsArgs(opens, hash, doc[..|doc| - 1]);
      assert Sanitized(hash, doc)[..|Sanitized(hash, doc)| - 1] == Sanitized(hash, doc[..|doc| - 1]);
    }
  }

  // The meaning of the output

  lemma {:induction false} NoOpsBuildNothing(a: seq<Instr>)
    requires forall k :: 0 <= k < |a| ==> NoOp(a[k])
    ensures Stages(a) == [] && Anchored(a)
  {
    if a != [] {
      NoOpsBuildNothing(a[..|a| - 1]);
    }
  }

  /** The lines put on top build nothing. */
  lemma {:induction false} RedeclaringKeepsStages(doc: seq<Instr>)
    requires Anchored(doc)
    ensures Stages(Redeclared(doc)) == Stages(doc) && Anchored(Redeclared(doc))
  {
    var args := ArgLines(HoistOf(Opens, doc).allArgs);
    NoOpsBuildNothing(args);
    StagesConcat(args, doc);
    AnchoredConcat(args, doc);
    assert [] + Stages(doc) == Stages(doc);
  }
}
