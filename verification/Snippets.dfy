/** Files with body instructions only, and INCLUDEs of such files: the passes leave them as they
    are, at every depth, and they stand for their instructions written out. */
module Snippets {
  import opened Dockerfile
  import opened ScopeStages
  import opened DeduplicateStages
  import opened SanitizeStageNames
  import opened PostProcessDockerfile
  import opened IncludeComments
  import opened LoadDockerfile
  import opened IncludeGuards
  import opened Interpreter
  import opened TidyTrees

  // Framing comments

  lemma {:induction false} FramedSnippet(text: string, display: string, kind: string, content: seq<Instr>)
    requires FromFree(content)
    ensures FromFree(Framed(text, display, kind, content))
    ensures Effective(Framed(text, display, kind, content)) == Effective(content)
  {
    var start, end := [Comment(StartComment(text, display, kind))], [Comment(EndComment(text, display, kind))];
    EffectiveConcat(start, content);
    EffectiveConcat(start + content, end);
    assert start[..0] == [] && end[..0] == [];
    assert [] + Effective(content) == Effective(content);
  }

  lemma {:induction false} EffectiveConcat(a: seq<Instr>, b: seq<Instr>)
    ensures Effective(a + b) == Effective(a) + Effective(b)
  {
    if b == [] {
      assert a + b == a;
    } else {
      assert (a + b)[..|a + b| - 1] == a + b[..|b| - 1];
      EffectiveConcat(a, b[..|b| - 1]);
    }
  }

  // The passes on text without FROM

  lemma {:induction false} NothingScoped(prefix: string, doc: seq<Instr>)
    requires FromFree(doc)
    ensures Scoped(prefix, doc) == doc
  {
    assert Defaulted(doc) == doc;
    StageNamesAreNames(doc);
    FromFreeStages(doc);
    assert StageNames(doc) == [];
    forall k | 0 <= k < |doc| ensures Scoped(prefix, doc)[k] == doc[k] {
    }
  }

  lemma {:induction false} NothingAliased(q: Request, doc: seq<Instr>, total: nat)
    requires FromFree(doc)
    ensures WithAlias(q, doc, total) == doc
  {
    if doc != [] {
      NothingAliased(q, doc[..|doc| - 1], total);
    }
  }

  lemma {:induction false} NothingSanitized(hash: string -> string, doc: seq<Instr>)
    requires FromFree(doc)
    ensures Aliases(hash, doc) == map[] && Sanitized(hash, doc) == doc
  {
    if doc != [] {
      NothingSanitized(hash, doc[..|doc| - 1]);
    }
  }

  lemma {:induction false} NothingDeduplicated(doc: seq<Instr>)
    requires FromFree(doc)
    ensures Deduplicated(doc) == doc
  {
    if doc != [] {
      ChunksAppend([], doc);
      ChunksSplit(doc);
      assert [] + doc == doc && Chunks([]) == [];
      assert Chunks(doc) == [doc] && [doc][..0] == [];
      assert KeepFirst([doc]) == [doc];
    }
  }

  // Loading

  /** What is gathered from a file without FROM, up to framing comments. */
  ghost predicate Stands(lines: seq<Instr>, body: seq<Instr>) {
    FromFree(lines) && Effective(lines) == Effective(body)
  }

  lemma {:induction false} StandsMore(lines: seq<Instr>, body: seq<Instr>, more: seq<Instr>, item: seq<Instr>)
    requires Stands(lines, body) && Stands(more, item)
    ensures Stands(lines + more, body + item)
  {
    EffectiveConcat(lines, more);
    EffectiveConcat(body, item);
  }

  /** A file with body instructions only passes unchanged through every pass, and loads to its
      instructions written out. */
  lemma {:induction false} SnippetLoads(w: World, path: string, c: LoadContext, depth: nat)
    requires path in w.files && Snippet(w, w.files[path], depth) && !IsTarget(c.target)
    requires Load(w, path, c).Ok? && w.maxDepth <= c.level + depth
    ensures var f := w.files[path];
            && c.level <= w.maxDepth && Load(w, path, c) == Lines(w, f, c.level, c.chain + [path], |f.items|)
            && Stands(Load(w, path, c).value, SnippetBody(w, f, depth, |f.items|))
    decreases depth, 3, 0
  {
    var f := w.files[path];
    SnippetLines(w, f, c.level, c.chain + [path], depth, |f.items|);
    var doc := Lines(w, f, c.level, c.chain + [path], |f.items|).value;
    NothingScoped(w.slug(f.display), doc);
    NothingAliased(RequestOf(PostContext(w, f, c)), doc, FromCount(doc));
    NothingDeduplicated(doc);
    NothingSanitized(w.hash, doc);
  }

  lemma {:induction false} SnippetLines(w: World, f: File, level: nat, chain: seq<string>, depth: nat, n: nat)
    requires Snippet(w, f, depth) && level <= w.maxDepth <= level + depth && n <= |f.items|
    requires Lines(w, f, level, chain, n).Ok?
    ensures Stands(Lines(w, f, level, chain, n).value, SnippetBody(w, f, depth, n))
    decreases depth, 2, n
  {
    if n > 0 {
      SnippetLines(w, f, level, chain, depth, n - 1);
      var more := SnippetItem(w, f, level, chain, depth, n - 1);
      StandsMore(Lines(w, f, level, chain, n - 1).value, SnippetBody(w, f, depth, n - 1), more,
                 BodyTo(w, f.items[n - 1], depth));
    }
  }

  lemma {:induction false} SnippetItem(w: World, f: File, level: nat, chain: seq<string>, depth: nat, n: nat)
    returns (more: seq<Instr>)
    requires level <= w.maxDepth <= level + depth && n < |f.items| && InlineTo(w, f.items[n], depth)
    requires Lines(w, f, level, chain, n).Ok? && Lines(w, f, level, chain, n + 1).Ok?
    ensures Lines(w, f, level, chain, n + 1) == Ok(Lines(w, f, level, chain, n).value + more)
    ensures Stands(more, BodyTo(w, f.items[n], depth))
    decreases depth, 1, 0
  {
    match f.items[n]
    case Plain(i) =>
      more := [i];
    case IncludeEnv(text, content) =>
      FramedSnippet(text, f.display, "include", content);
      more := Framed(text, f.display, "include", content);
    case Include(ref) =>
      var v := IncludedSnippet(w, f, level, chain, depth, n, ref);
      FramedSnippet(ref.text, f.display, "include", v);
      more := Framed(ref.text, f.display, "include", v);
  }

  lemma {:induction false} IncludeLines(w: World, f: File, level: nat, chain: seq<string>, n: nat, ref: Ref,
                                        v: seq<Instr>)
    requires level <= w.maxDepth && n < |f.items| && f.items[n] == Include(ref) && Lines(w, f, level, chain, n).Ok?
    requires Load(w, ref.path, ChildOf(w, f.items[n], level, chain)) == Ok(v)
    ensures Lines(w, f, level, chain, n + 1)
            == Ok(Lines(w, f, level, chain, n).value + Framed(ref.text, f.display, "include", v))
  {
  }

  lemma {:induction false} IncludedBody(w: World, ref: Ref, depth: nat) returns (less: nat)
    requires ref.path in w.files && depth > 0 && InlineTo(w, Include(ref), depth)
    ensures less + 1 == depth && Snippet(w, w.files[ref.path], less)
    ensures BodyTo(w, Include(ref), depth) == SnippetBody(w, w.files[ref.path], less, |w.files[ref.path].items|)
  {
    less := depth - 1;
  }

  lemma {:induction false} IncludedSnippet(w: World, f: File, level: nat, chain: seq<string>, depth: nat, n: nat,
                                           ref: Ref)
    returns (v: seq<Instr>)
    requires level <= w.maxDepth <= level + depth && n < |f.items| && f.items[n] == Include(ref)
    requires ref.path in w.files ==> InlineTo(w, Include(ref), depth)
    requires Lines(w, f, level, chain, n).Ok? && Lines(w, f, level, chain, n + 1).Ok?
    ensures Load(w, ref.path, ChildOf(w, f.items[n], level, chain)) == Ok(v)
    ensures Lines(w, f, level, chain, n + 1)
            == Ok(Lines(w, f, level, chain, n).value + Framed(ref.text, f.display, "include", v))
    ensures Stands(v, BodyTo(w, Include(ref), depth))
    decreases depth, 0, 0
  {
    NextLoads(w, f, level, chain, n);
    var c := ChildOf(w, f.items[n], level, chain);
    LoadParts(w, ref.path, c);
    v := Load(w, ref.path, c).value;
    IncludeLines(w, f, level, chain, n, ref, v);
    var less := IncludedBody(w, ref, depth);
    SnippetLoads(w, ref.path, c, less);
  }

  // Reading

  /** Lines that build nothing do not matter inside a stage. */
  lemma {:induction false} BuildEffective(env: Env, base: Image, body: seq<Instr>)
    ensures Build(env, base, Effective(body)) == Build(env, base, body)
    ensures BodyRefs(Effective(body)) == BodyRefs(body)
  {
    if body != [] {
      var i := body[|body| - 1];
      BuildEffective(env, base, body[..|body| - 1]);
      if !NoOp(i) {
        assert Effective(body)[..|Effective(body)| - 1] == Effective(body[..|body| - 1]);
      } else {
        var below := Build(env, base, body[..|body| - 1]);
        assert below.layers + [] == below.layers;
      }
    }
  }

  lemma {:induction false} ReadOne(w: World, f: File, open: nat, n: nat, p: Progress, q: Progress, fuel: nat)
    requires n < |f.items| && fuel > 0 && Read(w, f, open, n, p, fuel) == Some(q)
    ensures f.items[n].Plain? && !f.items[n].instr.From? ==>
              Read(w, f, open, n + 1, p, fuel) == Some(q.(img := Build(q.env, q.img, [f.items[n].instr])))
    ensures f.items[n].IncludeEnv? ==>
              Read(w, f, open, n + 1, p, fuel) == Some(q.(img := Build(q.env, q.img, f.items[n].content)))
    ensures f.items[n].Include? && fuel > 1 && f.items[n].ref.path in w.files ==>
              var g := w.files[f.items[n].ref.path];
              Read(w, f, open, n + 1, p, fuel) == Read(w, g, OneLess(open), |g.items|, q, fuel - 1)
  {
  }

  lemma {:induction false} BuildMore(p: Progress, q: Progress, body: seq<Instr>, item: seq<Instr>)
    requires q == p.(img := Build(p.env, p.img, body))
    ensures q.(img := Build(q.env, q.img, item)) == p.(img := Build(p.env, p.img, body + item))
  {
    BuildConcat(p.env, p.img, body, item);
  }

  /** Reading the file in place builds its instructions. */
  lemma {:induction false} SnippetRead(w: World, f: File, open: nat, level: nat, chain: seq<string>, depth: nat,
                                       n: nat, p: Progress, fuel: nat)
    returns (q: Progress)
    requires Snippet(w, f, depth) && level <= w.maxDepth <= level + depth && n <= |f.items|
    requires fuel == w.maxDepth - level + 1
    requires Lines(w, f, level, chain, n).Ok?
    ensures Read(w, f, open, n, p, fuel) == Some(q)
    ensures q == p.(img := Build(p.env, p.img, SnippetBody(w, f, depth, n)))
    decreases depth, 1, n
  {
    if n == 0 {
      q := p;
    } else {
      var m := n - 1;
      var before := SnippetRead(w, f, open, level, chain, depth, m, p, fuel);
      q := SnippetReadOne(w, f, open, level, chain, depth, m, p, before, fuel);
      BuildMore(p, before, SnippetBody(w, f, depth, m), BodyTo(w, f.items[m], depth));
    }
  }

  lemma {:induction false} SnippetReadOne(w: World, f: File, open: nat, level: nat, chain: seq<string>, depth: nat,
                                          n: nat, p: Progress, before: Progress, fuel: nat)
    returns (q: Progress)
    requires level <= w.maxDepth <= level + depth && fuel == w.maxDepth - level + 1
    requires n < |f.items| && InlineTo(w, f.items[n], depth) && Lines(w, f, level, chain, n).Ok?
    requires Lines(w, f, level, chain, n + 1).Ok?
    requires Read(w, f, open, n, p, fuel) == Some(before)
    ensures q == before.(img := Build(before.env, before.img, BodyTo(w, f.items[n], depth)))
    ensures Read(w, f, open, n + 1, p, fuel) == Some(q)
    decreases depth, 0, 1
  {
    ReadOne(w, f, open, n, p, before, fuel);
    if f.items[n].Include? {
      NextLoads(w, f, level, chain, n);
      q := IncludedRead(w, f.items[n].ref, ChildOf(w, f.items[n], level, chain), OneLess(open), depth, before,
                        fuel - 1);
    } else {
      q := before.(img := Build(before.env, before.img, BodyTo(w, f.items[n], depth)));
    }
  }

  lemma {:induction false} IncludedRead(w: World, ref: Ref, c: LoadContext, open: nat, depth: nat, before: Progress,
                                        fuel: int)
    returns (q: Progress)
    requires w.maxDepth < c.level + depth && fuel == w.maxDepth - c.level + 1 && InlineTo(w, Include(ref), depth)
    requires Load(w, ref.path, c).Ok?
    ensures fuel > 0 && ref.path in w.files
    ensures q == before.(img := Build(before.env, before.img, BodyTo(w, Include(ref), depth)))
    ensures var g := w.files[ref.path]; Read(w, g, open, |g.items|, before, fuel) == Some(q)
    decreases depth, 0, 0
  {
    LoadParts(w, ref.path, c);
    var less := IncludedBody(w, ref, depth);
    q := SnippetRead(w, w.files[ref.path], open, c.level, c.chain + [ref.path], less,
                     |w.files[ref.path].items|, before, fuel);
  }
}
