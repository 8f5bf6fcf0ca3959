/** src/core/loadDockerfile.js and src/instruction/: the recursive include compiler. */
module LoadDockerfile {
  import opened Dockerfile
  import opened ScopeStages
  import opened PostProcessDockerfile
  import opened IncludeComments

  /** A reference to another file: the key of the source it resolves to, the text its alias slug
      is made from, and the reference as written. */
  datatype Ref = Ref(path: string, aliasBase: string, text: string)

  /** An instruction of a file, sorted by the processor that handles it. */
  datatype Item =
    | Plain(instr: Instr)
    | FromFile(ref: Ref, target: Option<string>, alias: Option<string>)
    | CopyFile(verb: Verb, ref: Ref, target: Option<string>, rest: string)
    | Include(ref: Ref)
    | IncludeEnv(text: string, content: seq<Instr>)

  datatype File = File(display: string, items: seq<Item>)

  /** Everything outside the compiler: the readable sources, the slug of a path, the digest used
      for long names, and the depth limit. */
  datatype World = World(
    files: map<string, File>, slug: string -> string, hash: string -> string, maxDepth: nat)

  datatype LoadContext = LoadContext(
    target: Option<string>, alias: Option<string>, level: nat, chain: seq<string>, isRootInclude: bool)

  const ROOT_CONTEXT := LoadContext(None, None, 0, [], false)

  function ChildContext(w: World, ref: Ref, target: Option<string>, level: nat, chain: seq<string>,
                        isRootInclude: bool): LoadContext
  {
    LoadContext(target, Some(w.slug(ref.aliasBase)), level + 1, chain, isRootInclude)
  }

  function Framed(text: string, display: string, includeType: string, content: seq<Instr>): seq<Instr> {
    [Comment(StartComment(text, display, includeType))] + content
    + [Comment(EndComment(text, display, includeType))]
  }

  /** Included text stands between a START and an END comment with the same attributes. */
  lemma {:induction false} FramedExactly(text: string, display: string, includeType: string, content: seq<Instr>)
    ensures var attributes :=
              "file=\"" + text + "\" includedBy=\"" + display + "\" includeType=\"" + includeType + "\"";
            Framed(text, display, includeType, content)
            == [Comment("# DOCKERFILE-X:START " + attributes)] + content + [Comment("# DOCKERFILE-X:END " + attributes)]
  {
  }

  function PostContext(w: World, f: File, c: LoadContext): Context {
    Context(c.target, c.alias, w.slug(f.display), c.level == 0, c.isRootInclude)
  }

  function Load(w: World, path: string, c: LoadContext): Result<seq<Instr>>
    decreases if c.level <= w.maxDepth then w.maxDepth - c.level + 1 else 0, 1, 0
  {
    if c.level > w.maxDepth then Err(DepthExceeded(c.level, w.maxDepth, c.chain))
    else if path in c.chain then Err(Cycle(path, c.chain + [path]))
    else if path !in w.files then Err(Missing(path))
    else
      var f := w.files[path];
      var lines := Lines(w, f, c.level, c.chain + [path], |f.items|);
      if lines.Err? then lines else PostProcessed(w.hash, PostContext(w, f, c), lines.value)
  }

  /** The lines gathered from the first n instructions of a file. */
  function Lines(w: World, f: File, level: nat, chain: seq<string>, n: nat): Result<seq<Instr>>
    requires level <= w.maxDepth && n <= |f.items|
    decreases w.maxDepth - level + 1, 0, n
  {
    if n == 0 then Ok([])
    else
      var before := Lines(w, f, level, chain, n - 1);
      if before.Err? then before
      else
        var lines, item := before.value, f.items[n - 1];
        match item
        case Plain(i) => Ok(lines + [i])
        case IncludeEnv(text, content) => Ok(lines + Framed(text, f.display, "include", content))
        case Include(ref) =>
          var r := Load(w, ref.path, ChildContext(w, ref, None, level, chain, level == 0));
          if r.Err? then r else Ok(lines + Framed(ref.text, f.display, "include", r.value))
        case FromFile(ref, target, alias) =>
          var r := Load(w, ref.path, ChildContext(w, ref, target, level, chain, false));
          if r.Err? then r
          else
            Ok(lines + Framed(ref.text, f.display, "from", r.value)
               + [From(w.slug(ref.aliasBase), Some(StageNameOf(alias)))])
        case CopyFile(verb, ref, target, rest) =>
          var r := Load(w, ref.path, ChildContext(w, ref, target, level, chain, false));
          if r.Err? then r
          else
            Ok(Framed(ref.text, f.display, "fromParam", r.value) + lines
               + [Copy(verb, Some(w.slug(ref.aliasBase)), rest)])
  }

  function StageNameOf(alias: Option<string>): string {
    if alias.Some? then alias.value else FINAL_STAGE
  }

  /** The list of lines that loadDockerfile and processFromParam share. */
  class LineBuffer {
    var lines: seq<Instr>

    constructor ()
      ensures lines == []
    {
      lines := [];
    }

    method Push(more: seq<Instr>)
      modifies this
      ensures lines == old(lines) + more
    {
      lines := lines + more;
    }

    method Unshift(more: seq<Instr>)
      modifies this
      ensures lines == more + old(lines)
    {
      lines := more + lines;
    }
  }

  method LoadFile(w: World, path: string, c: LoadContext) returns (r: Result<seq<Instr>>)
    ensures r == Load(w, path, c)
    decreases if c.level <= w.maxDepth then w.maxDepth - c.level + 1 else 0, 1, 0
  {
    if c.level > w.maxDepth {
      return Err(DepthExceeded(c.level, w.maxDepth, c.chain));
    }
    if path in c.chain {
      return Err(Cycle(path, c.chain + [path]));
    }
    if path !in w.files {
      return Err(Missing(path));
    }
    var f := w.files[path];
    var chain := c.chain + [path];
    var buffer := new LineBuffer();
    var n := 0;
    while n < |f.items|
      invariant 0 <= n <= |f.items|
      invariant Lines(w, f, c.level, chain, n) == Ok(buffer.lines)
      invariant fresh(buffer)
    {
      var failure := ProcessItem(w, f, c.level, chain, n, buffer);
      if failure.Some? {
        LinesErrStays(w, f, c.level, chain, n + 1, |f.items|);
        return Err(failure.value);
      }
      n := n + 1;
    }
    r := PostProcess(w.hash, PostContext(w, f, c), buffer.lines);
  }

  /** The processor of one instruction. COPY and ADD put the included text in front. */
  method ProcessItem(w: World, f: File, level: nat, chain: seq<string>, n: nat, buffer: LineBuffer)
    returns (failure: Option<LoadError>)
    requires level <= w.maxDepth && n < |f.items|
    requires Lines(w, f, level, chain, n) == Ok(buffer.lines)
    modifies buffer
    ensures failure.None? ==> Lines(w, f, level, chain, n + 1) == Ok(buffer.lines)
    ensures failure.Some? ==> Lines(w, f, level, chain, n + 1) == Err(failure.value)
    decreases w.maxDepth - level + 1, 0, n
  {
    match f.items[n] {
      case Plain(i) =>
        buffer.Push([i]);
      case IncludeEnv(text, content) =>
        buffer.Push(Framed(text, f.display, "include", content));
      case Include(ref) =>
        var r := LoadFile(w, ref.path, ChildContext(w, ref, None, level, chain, level == 0));
        if r.Err? {
          return Some(r.error);
        }
        buffer.Push(Framed(ref.text, f.display, "include", r.value));
      case FromFile(ref, target, alias) =>
        var r := LoadFile(w, ref.path, ChildContext(w, ref, target, level, chain, false));
        if r.Err? {
          return Some(r.error);
        }
        buffer.Push(Framed(ref.text, f.display, "from", r.value));
        buffer.Push([From(w.slug(ref.aliasBase), Some(StageNameOf(alias)))]);
      case CopyFile(verb, ref, target, rest) =>
        var r := LoadFile(w, ref.path, ChildContext(w, ref, target, level, chain, false));
        if r.Err? {
          return Some(r.error);
        }
        buffer.Unshift(Framed(ref.text, f.display, "fromParam", r.value));
        buffer.Push([Copy(verb, Some(w.slug(ref.aliasBase)), rest)]);
    }
    failure := None;
  }

  /** The first error is the error of the whole file. */
  lemma {:induction false} LinesErrStays(w: World, f: File, level: nat, chain: seq<string>, n: nat, m: nat)
    requires level <= w.maxDepth && n <= m <= |f.items|
    requires Lines(w, f, level, chain, n).Err?
    ensures Lines(w, f, level, chain, m) == Lines(w, f, level, chain, n)
    decreases m
  {
    if n < m {
      LinesErrStays(w, f, level, chain, n, m - 1);
    }
  }
}
