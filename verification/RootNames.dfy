/** What the compiler gathers from the root, next to the text of the root: the stages of an INCLUDEd
    file have sanitised names already. */
module RootNames {
  import opened Dockerfile
  import opened DeduplicateStages
  import opened SanitizeStageNames
  import opened PostProcessDockerfile
  import opened IncludeComments
  import opened LoadDockerfile
  import opened IncludeGuards
  import opened TidyTrees
  import opened LineSteps
  import opened SanitizedRoots
  import opened FlatRoots

  /** The lines gathered from the root, or none if they cannot be gathered. */
  function RootLines(w: World, root: string): seq<Instr> {
    if root in w.files && Lines(w, w.files[root], 0, [root], |w.files[root].items|).Ok?
    then Lines(w, w.files[root], 0, [root], |w.files[root].items|).value
    else []
  }

  function WholeText(w: World, root: string): seq<Instr> {
    if root in w.files then RootText(w, root, |w.files[root].items|) else []
  }

  // INCLUDE at the root

  lemma {:induction false} NothingChosen(q: Request, doc: seq<Instr>, total: nat)
    requires q.isRootInclude && q.localTarget.None?
    ensures WithAlias(q, doc, total) == doc
  {
    if doc != [] {
      NothingChosen(q, doc[..|doc| - 1], total);
    }
  }

  /** The passes over an INCLUDEd file. */
  lemma {:induction false} IncludePasses(hash: string -> string, c: Context, doc: seq<Instr>)
    requires c.isRootInclude && !IsTarget(c.target)
    ensures PostProcessed(hash, c, doc) == Ok(Sanitized(hash, Deduplicated(doc)))
  {
    NothingChosen(RequestOf(c), doc, FromCount(doc));
  }

  lemma {:induction false} IncludeText(w: World, path: string, c: LoadContext, lines: seq<Instr>)
    requires c.isRootInclude && !IsTarget(c.target) && Load(w, path, c).Ok?
    requires path in w.files && c.level <= w.maxDepth
    requires Lines(w, w.files[path], c.level, c.chain + [path], |w.files[path].items|) == Ok(lines)
    ensures Load(w, path, c) == Ok(Sanitized(w.hash, Deduplicated(lines)))
  {
    LoadParts(w, path, c);
    IncludePasses(w.hash, PostContext(w, w.files[path], c), lines);
  }

  lemma {:induction false} FixedInstr(hash: string -> string, aliases: map<string, string>, i: Instr)
    requires forall n :: n in aliases ==> aliases[n] == n
    requires i.From? && i.alias.Some? ==> SanitizeStageName(hash, i.alias.value) == i.alias.value
    ensures SanitizeInstr(hash, aliases, i) == i
  {
  }

  lemma {:induction false} FixedPrefix(hash: string -> string, doc: seq<Instr>)
    requires doc != [] && forall n :: n in Declared(Stages(doc)) ==> SanitizeStageName(hash, n) == n
    ensures forall n :: n in Declared(Stages(doc[..|doc| - 1])) ==> SanitizeStageName(hash, n) == n
    ensures var i := doc[|doc| - 1]; i.From? && i.alias.Some? ==>
              SanitizeStageName(hash, i.alias.value) == i.alias.value
  {
    DeclaredSnoc(doc);
  }

  lemma {:induction false} FixedAliases(hash: string -> string, doc: seq<Instr>)
    requires forall n :: n in Declared(Stages(doc)) ==> SanitizeStageName(hash, n) == n
    ensures forall n :: n in Aliases(hash, doc) ==> Aliases(hash, doc)[n] == n
  {
    forall n | n in Aliases(hash, doc) ensures Aliases(hash, doc)[n] == n {
      AliasesOf(hash, doc, n);
    }
  }

  lemma {:induction false} FixedNamesUnchanged(hash: string -> string, doc: seq<Instr>)
    requires forall n :: n in Declared(Stages(doc)) ==> SanitizeStageName(hash, n) == n
    ensures Sanitized(hash, doc) == doc
  {
    if doc != [] {
      var before, i := doc[..|doc| - 1], doc[|doc| - 1];
      assert doc == before + [i];
      FixedPrefix(hash, doc);
      FixedNamesUnchanged(hash, before);
      FixedAliases(hash, before);
      FixedInstr(hash, Aliases(hash, before), i);
      SanitizedSnoc(hash, before, i);
    }
  }

  lemma {:induction false} UnchangedNamesFixed(hash: string -> string, doc: seq<Instr>, n: string)
    requires Sanitized(hash, doc) == doc && n in Declared(Stages(doc))
    ensures SanitizeStageName(hash, n) == n
  {
    if doc != [] {
      var before, i := doc[..|doc| - 1], doc[|doc| - 1];
      assert doc == before + [i];
      DeclaredSnoc(doc);
      SanitizedSnoc(hash, before, i);
      assert Sanitized(hash, doc)[..|doc| - 1] == Sanitized(hash, before) by {
        SanitizedLength(hash, before);
      }
      if n in Declared(Stages(before)) {
        UnchangedNamesFixed(hash, before, n);
      } else {
        assert Sanitized(hash, doc)[|doc| - 1] == i;
      }
    }
  }

  /** The pass changes a document exactly when it changes one of its names. */
  lemma {:induction false} UnchangedExact(hash: string -> string, doc: seq<Instr>)
    ensures Sanitized(hash, doc) == doc <==> forall n :: n in Declared(Stages(doc)) ==> SanitizeStageName(hash, n) == n
  {
    if Sanitized(hash, doc) == doc {
      forall n | n in Declared(Stages(doc)) ensures SanitizeStageName(hash, n) == n {
        UnchangedNamesFixed(hash, doc, n);
      }
    } else {
      if forall n :: n in Declared(Stages(doc)) ==> SanitizeStageName(hash, n) == n {
        FixedNamesUnchanged(hash, doc);
      }
    }
  }

  /** An INCLUDE at the root puts in the lines of the file without repeats, and nothing else, exactly
      when their names are sanitised already. */
  lemma {:induction false} IncludeTextExact(w: World, path: string, c: LoadContext, lines: seq<Instr>)
    requires c.isRootInclude && !IsTarget(c.target) && Load(w, path, c).Ok?
    requires path in w.files && c.level <= w.maxDepth
    requires Lines(w, w.files[path], c.level, c.chain + [path], |w.files[path].items|) == Ok(lines)
    ensures Load(w, path, c) == Ok(Deduplicated(lines))
            <==> forall n :: n in Declared(Stages(lines)) ==> SanitizeStageName(w.hash, n) == n
  {
    IncludeText(w, path, c, lines);
    DeduplicationThins(lines);
    ThinnedDeclares(Stages(lines), Stages(Deduplicated(lines)));
    UnchangedExact(w.hash, Deduplicated(lines));
  }

  // The lines and the text

  lemma {:induction false} DeclaredOne(doc: seq<Instr>, i: Instr)
    ensures Declared(Stages(doc + [i]))
            == Declared(Stages(doc)) + (if i.From? && i.alias.Some? then {i.alias.value} else {})
  {
    DeclaredSnoc(doc + [i]);
    assert (doc + [i])[..|doc|] == doc;
  }

  lemma {:induction false} DeclaredConcat(a: seq<Instr>, b: seq<Instr>)
    ensures Declared(Stages(a + b)) == Declared(Stages(a)) + Declared(Stages(b))
  {
    if b == [] {
      assert a + b == a;
    } else {
      var b', i := b[..|b| - 1], b[|b| - 1];
      assert b == b' + [i] && a + b == (a + b') + [i];
      DeclaredConcat(a, b');
      DeclaredOne(b', i);
      DeclaredOne(a + b', i);
    }
  }

  lemma {:induction false} DeclaredFramed(text: string, display: string, kind: string, v: seq<Instr>)
    ensures Declared(Stages(Framed(text, display, kind, v))) == Declared(Stages(v))
  {
    var start, end := Comment(StartComment(text, display, kind)), Comment(EndComment(text, display, kind));
    NoOpLine(start);
    DeclaredConcat([start], v);
    DeclaredOne([start] + v, end);
  }

  lemma {:induction false} AlikeFramed(hash: string -> string, names: set<string>, text: string, display: string,
                                       kind: string, v: seq<Instr>, u: seq<Instr>)
    requires Alike(hash, names, v, u)
    ensures Alike(hash, names, Framed(text, display, kind, v), Framed(text, display, kind, u))
  {
  }

  lemma {:induction false} AlikeMore(hash: string -> string, names: set<string>, a: seq<Instr>, b: seq<Instr>,
                                     more: seq<Instr>)
    requires Alike(hash, names, a, b)
    ensures Alike(hash, names, a + more, b + more) && Alike(hash, names, more + a, more + b)
  {
    AlikeSame(hash, names, more);
    AlikeConcat(hash, names, a, b, more, more);
    AlikeConcat(hash, names, more, more, a, b);
  }

  /** Instruction n of the root, loaded. */
  lemma {:induction false} RootLoaded(w: World, root: string, n: nat)
    requires root in w.files && n < |w.files[root].items| && RefOfItem(w.files[root].items[n]).Some?
    requires Lines(w, w.files[root], 0, [root], n + 1).Ok?
    ensures LoadOf(w, w.files[root].items[n], false, 0, [root]).Ok?
  {
    NextLoads(w, w.files[root], 0, [root], n);
  }

  /** An INCLUDE of stages: what it brings is alike to what the text has in its place. */
  lemma {:induction false} RootBlockAlike(w: World, root: string, n: nat, names: set<string>)
    requires HexDigest(w.hash) && root in w.files && n < |w.files[root].items|
    requires StageInclude(w, w.files[root].items[n])
    requires Lines(w, w.files[root], 0, [root], n + 1).Ok?
    requires Declared(Stages(RootBlock(w, root, w.files[root].items[n]))) <= names
    ensures Alike(w.hash, names, LoadOf(w, w.files[root].items[n], false, 0, [root]).value,
                  RootBlock(w, root, w.files[root].items[n]))
  {
    var item := w.files[root].items[n];
    var c := ChildOf(w, item, 0, [root]);
    RootLoaded(w, root, n);
    LoadParts(w, item.ref.path, c);
    assert [root] + [item.ref.path] == [root, item.ref.path];
    IncludeText(w, item.ref.path, c, IncludedLines(w, root, item.ref.path));
    AlikeSanitized(w.hash, names, Deduplicated(IncludedLines(w, root, item.ref.path)));
  }

  lemma {:induction false} BlockAlike(w: World, root: string, n: nat, names: set<string>)
    requires HexDigest(w.hash) && root in w.files && n < |w.files[root].items|
    requires RefOfItem(w.files[root].items[n]).Some?
    requires Lines(w, w.files[root], 0, [root], n + 1).Ok?
    requires Declared(Stages(RootBlock(w, root, w.files[root].items[n]))) <= names
    ensures Alike(w.hash, names, LoadOf(w, w.files[root].items[n], false, 0, [root]).value,
                  RootBlock(w, root, w.files[root].items[n]))
  {
    if StageInclude(w, w.files[root].items[n]) {
      RootBlockAlike(w, root, n, names);
    } else {
      AlikeSame(w.hash, names, RootBlock(w, root, w.files[root].items[n]));
      RootLoaded(w, root, n);
    }
  }

  /** The text before instruction n and the text it brings declare less. */
  lemma {:induction false} RootTextDeclares(w: World, root: string, n: nat)
    requires root in w.files && n < |w.files[root].items|
    ensures Declared(Stages(RootText(w, root, n))) <= Declared(Stages(RootText(w, root, n + 1)))
    ensures RefOfItem(w.files[root].items[n]).Some? ==>
              Declared(Stages(RootBlock(w, root, w.files[root].items[n]))) <= Declared(Stages(RootText(w, root, n + 1)))
  {
    var f, item, a := w.files[root], w.files[root].items[n], RootText(w, root, n);
    var v := RootBlock(w, root, item);
    match item
    case Plain(i) => DeclaredOne(a, i);
    case IncludeEnv(text, content) => DeclaredConcat(a, Framed(text, f.display, "include", content));
    case Include(ref) =>
      DeclaredFramed(ref.text, f.display, "include", v);
      DeclaredConcat(a, Framed(ref.text, f.display, "include", v));
    case FromFile(ref, _, alias) =>
      var more := Framed(ref.text, f.display, "from", v);
      DeclaredFramed(ref.text, f.display, "from", v);
      DeclaredConcat(a, more);
      DeclaredOne(a + more, From(w.slug(ref.aliasBase), Some(StageNameOf(alias))));
    case CopyFile(verb, ref, _, rest) =>
      var more := Framed(ref.text, f.display, "fromParam", v);
      DeclaredFramed(ref.text, f.display, "fromParam", v);
      DeclaredConcat(more, a);
      DeclaredOne(more + a, Copy(verb, Some(w.slug(ref.aliasBase)), rest));
  }

  /** One more instruction, on lines and text that are alike. */
  lemma {:induction false} NextAlike(w: World, root: string, n: nat, names: set<string>, lines: seq<Instr>)
    requires root in w.files && n < |w.files[root].items|
    requires Lines(w, w.files[root], 0, [root], n) == Ok(lines) && Lines(w, w.files[root], 0, [root], n + 1).Ok?
    requires Alike(w.hash, names, lines, RootText(w, root, n))
    requires RefOfItem(w.files[root].items[n]).Some? ==>
               LoadOf(w, w.files[root].items[n], false, 0, [root]).Ok?
               && Alike(w.hash, names, LoadOf(w, w.files[root].items[n], false, 0, [root]).value,
                        RootBlock(w, root, w.files[root].items[n]))
    ensures Alike(w.hash, names, Lines(w, w.files[root], 0, [root], n + 1).value, RootText(w, root, n + 1))
  {
    var f, item, a := w.files[root], w.files[root].items[n], RootText(w, root, n);
    if item.Plain? {
      AlikeMore(w.hash, names, lines, a, [item.instr]);
    } else if item.IncludeEnv? {
      AlikeMore(w.hash, names, lines, a, Framed(item.text, f.display, "include", item.content));
    } else {
      BlockPlaced(w, root, n, names, lines, LoadOf(w, item, false, 0, [root]).value);
    }
  }

  lemma {:induction false} BlockPlaced(w: World, root: string, n: nat, names: set<string>, lines: seq<Instr>,
                                       v: seq<Instr>)
    requires root in w.files && n < |w.files[root].items| && RefOfItem(w.files[root].items[n]).Some?
    requires Lines(w, w.files[root], 0, [root], n) == Ok(lines)
    requires LoadOf(w, w.files[root].items[n], false, 0, [root]) == Ok(v)
    requires Alike(w.hash, names, lines, RootText(w, root, n))
    requires Alike(w.hash, names, v, RootBlock(w, root, w.files[root].items[n]))
    ensures Lines(w, w.files[root], 0, [root], n + 1).Ok?
    ensures Alike(w.hash, names, Lines(w, w.files[root], 0, [root], n + 1).value, RootText(w, root, n + 1))
  {
    var f, item, a := w.files[root], w.files[root].items[n], RootText(w, root, n);
    var u := RootBlock(w, root, item);
    match item {
      case Include(ref) =>
        AlikeFramed(w.hash, names, ref.text, f.display, "include", v, u);
        AlikeConcat(w.hash, names, lines, a, Framed(ref.text, f.display, "include", v),
                    Framed(ref.text, f.display, "include", u));
      case FromFile(ref, _, alias) =>
        AlikeFramed(w.hash, names, ref.text, f.display, "from", v, u);
        AlikeConcat(w.hash, names, lines, a, Framed(ref.text, f.display, "from", v),
                    Framed(ref.text, f.display, "from", u));
        AlikeMore(w.hash, names, lines + Framed(ref.text, f.display, "from", v),
                  a + Framed(ref.text, f.display, "from", u),
                  [From(w.slug(ref.aliasBase), Some(StageNameOf(alias)))]);
      case CopyFile(verb, ref, _, rest) =>
        AlikeFramed(w.hash, names, ref.text, f.display, "fromParam", v, u);
        AlikeConcat(w.hash, names, Framed(ref.text, f.display, "fromParam", v),
                    Framed(ref.text, f.display, "fromParam", u), lines, a);
        AlikeMore(w.hash, names, Framed(ref.text, f.display, "fromParam", v) + lines,
                  Framed(ref.text, f.display, "fromParam", u) + a,
                  [Copy(verb, Some(w.slug(ref.aliasBase)), rest)]);
    }
  }

  /** The lines of the root are its text, up to names that an INCLUDE sanitised. */
  lemma {:induction false} RootTextAlike(w: World, root: string, n: nat, names: set<string>)
    requires HexDigest(w.hash) && root in w.files && n <= |w.files[root].items|
    requires Lines(w, w.files[root], 0, [root], n).Ok? && Declared(Stages(RootText(w, root, n))) <= names
    ensures Alike(w.hash, names, Lines(w, w.files[root], 0, [root], n).value, RootText(w, root, n))
    decreases n
  {
    if n > 0 {
      var m := n - 1;
      LinesOkBefore(w, w.files[root], 0, [root], m, n);
      RootTextDeclares(w, root, m);
      RootTextAlike(w, root, m, names);
      if RefOfItem(w.files[root].items[m]).Some? {
        RootLoaded(w, root, m);
        BlockAlike(w, root, m, names);
      }
      NextAlike(w, root, m, names, Lines(w, w.files[root], 0, [root], m).value);
    }
  }

  // When all names are sanitised already

  lemma {:induction false} NextSame(w: World, root: string, n: nat)
    requires root in w.files && n < |w.files[root].items|
    requires Lines(w, w.files[root], 0, [root], n) == Ok(RootText(w, root, n))
    requires RefOfItem(w.files[root].items[n]).Some? ==>
               LoadOf(w, w.files[root].items[n], false, 0, [root]) == Ok(RootBlock(w, root, w.files[root].items[n]))
    ensures Lines(w, w.files[root], 0, [root], n + 1) == Ok(RootText(w, root, n + 1))
  {
  }

  lemma {:induction false} BlockSame(w: World, root: string, n: nat)
    requires root in w.files && n < |w.files[root].items| && RefOfItem(w.files[root].items[n]).Some?
    requires Lines(w, w.files[root], 0, [root], n + 1).Ok?
    requires forall u :: u in Declared(Stages(RootBlock(w, root, w.files[root].items[n]))) ==>
               SanitizeStageName(w.hash, u) == u
    ensures LoadOf(w, w.files[root].items[n], false, 0, [root]) == Ok(RootBlock(w, root, w.files[root].items[n]))
  {
    RootLoaded(w, root, n);
    var item := w.files[root].items[n];
    if StageInclude(w, item) {
      var c := ChildOf(w, item, 0, [root]);
      LoadParts(w, item.ref.path, c);
      assert [root] + [item.ref.path] == [root, item.ref.path];
      IncludeText(w, item.ref.path, c, IncludedLines(w, root, item.ref.path));
      FixedNamesUnchanged(w.hash, Deduplicated(IncludedLines(w, root, item.ref.path)));
    }
  }

  lemma {:induction false} RootTextSame(w: World, root: string, n: nat)
    requires root in w.files && n <= |w.files[root].items| && Lines(w, w.files[root], 0, [root], n).Ok?
    requires forall u :: u in Declared(Stages(RootText(w, root, n))) ==> SanitizeStageName(w.hash, u) == u
    ensures Lines(w, w.files[root], 0, [root], n) == Ok(RootText(w, root, n))
    decreases n
  {
    if n > 0 {
      var m := n - 1;
      LinesOkBefore(w, w.files[root], 0, [root], m, n);
      RootTextDeclares(w, root, m);
      RootTextSame(w, root, m);
      if RefOfItem(w.files[root].items[m]).Some? {
        BlockSame(w, root, m);
      }
      NextSame(w, root, m);
    }
  }
}
