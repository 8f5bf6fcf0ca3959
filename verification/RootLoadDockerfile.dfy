/** src/core/rootLoadDockerfile.js: the compiler as a whole, and what it promises. */
module RootLoadDockerfile {
  import opened Dockerfile
  import opened DeduplicateStages
  import opened PostProcessDockerfile
  import opened LoadDockerfile
  import opened Interpreter
  import opened TidyTrees
  import opened RedeclareArgTop
  import opened RootNames
  import opened CompilerCorrectness

  /** The written Dockerfile; nothing if a comment looks like a START comment and is none. */
  method LoadRoot(w: World, root: string) returns (r: Option<Result<seq<Instr>>>)
    ensures var loaded := Load(w, root, ROOT_CONTEXT);
            && (r.None? <==> loaded.Ok? && exists i :: i in loaded.value && !Readable(i))
            && (r.Some? ==> r.value == if loaded.Ok? then Ok(Redeclared(loaded.value)) else loaded)
  {
    var loaded := LoadFile(w, root, ROOT_CONTEXT);
    if loaded.Err? {
      return Some(loaded);
    }
    var result := RedeclareArgs(loaded.value);
    r := if result.Some? then Some(Ok(result.value)) else None;
  }

  /** The whole compiler: for a tidy tree the written Dockerfile builds the image that reading
      the tree gives; references to what it does not declare are external; and the ARGs on top
      are those of the gathered lines, whatever deduplication and sanitising removed. */
  lemma {:induction false} RootCorrect(w: World, root: string, known: Outlines)
    requires Tidy(w, root, known) && Load(w, root, ROOT_CONTEXT).Ok? && LinesSafe(w, root)
    ensures var out := Redeclared(Load(w, root, ROOT_CONTEXT).value);
            && Stages(out) != [] && Free(Stages(out)) <= known(root).ext
            && Meaning(w, root, None, true, w.maxDepth + 1) == Some(LastImage(map[], Stages(out)))
            && var loaded := Load(w, root, ROOT_CONTEXT).value;
               |loaded| <= |out| && out[|out| - |loaded|..] == loaded
               && DeclaresAgain(Opens, RootLines(w, root), out[..|out| - |loaded|])
  {
    CompilerCorrect(w, root, known);
    RootOutput(w, root);
    var text := RootLines(w, root);
    var loaded := Load(w, root, ROOT_CONTEXT).value;
    RedeclaringKeepsStages(loaded);
    DeduplicationKeepsArgs(Opens, text);
    SanitizingKeepsArgs(Opens, w.hash, Deduplicated(text));
    LinesDeclareAgain(Opens, text);
    var top := ArgLines(HoistOf(Opens, text).allArgs);
    assert (top + loaded)[|top|..] == loaded && (top + loaded)[..|top|] == top;
  }
}
