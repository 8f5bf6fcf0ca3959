/** The passes over the root. Its lines differ from their text only in names that an INCLUDE has
    sanitised before; the last pass sanitises all names. */
module SanitizedRoots {
  import opened Dockerfile
  import opened Renaming
  import opened DeduplicateStages
  import opened SanitizeStageNames

  // Lines that are alike up to sanitising

  /** The same instruction, except that names of `names` may be sanitised in x. */
  ghost predicate AlikeInstr(hash: string -> string, names: set<string>, x: Instr, y: Instr) {
    && RenameInstr(SanitizeRenaming(hash, names), x) == RenameInstr(SanitizeRenaming(hash, names), y)
    && (y.Run? ==> x == y)
    && (x.From? ==>
          y.From?
          && (x.alias == y.alias || (y.alias.Some? && x.alias == Some(SanitizeStageName(hash, y.alias.value)))))
  }

  ghost predicate Alike(hash: string -> string, names: set<string>, a: seq<Instr>, b: seq<Instr>) {
    |a| == |b| && forall i :: 0 <= i < |a| ==> AlikeInstr(hash, names, a[i], b[i])
  }

  lemma {:induction false} AlikeConcat(hash: string -> string, names: set<string>, a: seq<Instr>, b: seq<Instr>,
                                       c: seq<Instr>, d: seq<Instr>)
    requires Alike(hash, names, a, b) && Alike(hash, names, c, d)
    ensures Alike(hash, names, a + c, b + d)
  {
  }

  lemma {:induction false} AlikeSame(hash: string -> string, names: set<string>, a: seq<Instr>)
    ensures Alike(hash, names, a, a)
  {
  }

  lemma {:induction false} AlikeSanitizedInstr(hash: string -> string, names: set<string>, aliases: Renaming, i: Instr)
    requires HexDigest(hash)
    requires forall n :: n in aliases ==> n in names && aliases[n] == SanitizeStageName(hash, n)
    requires i.From? && i.alias.Some? ==> i.alias.value in names
    ensures AlikeInstr(hash, names, SanitizeInstr(hash, aliases, i), i)
  {
    match i {
      case From(base, alias) =>
        SanitizedNameForm(hash, base);
        if alias.Some? {
          SanitizedNameForm(hash, alias.value);
        }
      case Copy(_, Some(ref), _) => SanitizedNameForm(hash, ref);
      case _ =>
    }
  }

  lemma {:induction false} AliasesKnown(hash: string -> string, names: set<string>, doc: seq<Instr>)
    requires Declared(Stages(doc)) <= names
    ensures forall n :: n in Aliases(hash, doc) ==> n in names && Aliases(hash, doc)[n] == SanitizeStageName(hash, n)
  {
    forall n | n in Aliases(hash, doc) ensures n in names && Aliases(hash, doc)[n] == SanitizeStageName(hash, n) {
      AliasesOf(hash, doc, n);
    }
  }

  lemma {:induction false} SanitizedSnoc(hash: string -> string, before: seq<Instr>, i: Instr)
    ensures Sanitized(hash, before + [i]) == Sanitized(hash, before) + [SanitizeInstr(hash, Aliases(hash, before), i)]
    ensures Declared(Stages(before)) <= Declared(Stages(before + [i]))
    ensures i.From? && i.alias.Some? ==> i.alias.value in Declared(Stages(before + [i]))
  {
    DeclaredSnoc(before + [i]);
    assert (before + [i])[..|before|] == before;
  }

  lemma {:induction false} AlikeSanitizedOne(hash: string -> string, names: set<string>, before: seq<Instr>, i: Instr)
    requires HexDigest(hash) && Declared(Stages(before + [i])) <= names
    requires Alike(hash, names, Sanitized(hash, before), before)
    ensures Alike(hash, names, Sanitized(hash, before + [i]), before + [i])
  {
    SanitizedSnoc(hash, before, i);
    AliasesKnown(hash, names, before);
    AlikeSanitizedInstr(hash, names, Aliases(hash, before), i);
    AlikeConcat(hash, names, Sanitized(hash, before), before, [SanitizeInstr(hash, Aliases(hash, before), i)], [i]);
  }

  /** Sanitising a part of a document on its own leaves it alike. */
  lemma {:induction false} AlikeSanitized(hash: string -> string, names: set<string>, doc: seq<Instr>)
    requires HexDigest(hash) && Declared(Stages(doc)) <= names
    ensures Alike(hash, names, Sanitized(hash, doc), doc)
  {
    if doc == [] {
    } else {
      var before, i := doc[..|doc| - 1], doc[|doc| - 1];
      assert doc == before + [i];
      SanitizedSnoc(hash, before, i);
      AlikeSanitized(hash, names, before);
      AlikeSanitizedOne(hash, names, before, i);
    }
  }

  lemma {:induction false} AlikeRenamed(hash: string -> string, names: set<string>, a: seq<Instr>, b: seq<Instr>)
    requires Alike(hash, names, a, b)
    ensures Rename(SanitizeRenaming(hash, names), a) == Rename(SanitizeRenaming(hash, names), b)
  {
    var rho := SanitizeRenaming(hash, names);
    forall i | 0 <= i < |a| ensures Rename(rho, a)[i] == Rename(rho, b)[i] {
      assert AlikeInstr(hash, names, a[i], b[i]);
    }
  }

  lemma {:induction false} AlikeBefore(hash: string -> string, names: set<string>, a: seq<Instr>, b: seq<Instr>)
    requires Alike(hash, names, a, b) && b != []
    ensures a != [] && Alike(hash, names, a[..|a| - 1], b[..|b| - 1]) && AlikeInstr(hash, names, a[|a| - 1], b[|b| - 1])
  {
  }

  /** A name is declared under its own name or sanitised. */
  lemma {:induction false} AlikeDeclares(hash: string -> string, names: set<string>, a: seq<Instr>, b: seq<Instr>,
                                         n: string)
    requires Alike(hash, names, a, b) && n in Declared(Stages(a))
    ensures n in Declared(Stages(b)) || exists m :: m in Declared(Stages(b)) && n == SanitizeStageName(hash, m)
  {
    if b != [] {
      AlikeBefore(hash, names, a, b);
      DeclaredSnoc(a);
      DeclaredSnoc(b);
      if n in Declared(Stages(a[..|a| - 1])) {
        AlikeDeclares(hash, names, a[..|a| - 1], b[..|b| - 1], n);
      }
    }
  }

  // The passes

  /** Every reference to a name that a stage declares, or would declare but for an INCLUDE, comes
      after a declaration of it. */
  ghost predicate NothingLost(lines: seq<Instr>, text: seq<Instr>) {
    Free(Stages(lines)) !! Declared(Stages(lines)) + Declared(Stages(text))
  }

  /** What the passes rely on: nothing is lost, and sanitising merges no names of the text, meets
      no external reference, and changes no name that a mount refers to. */
  ghost predicate PassesSafe(hash: string -> string, lines: seq<Instr>, text: seq<Instr>) {
    && HexDigest(hash) && SanitizeSafe(hash, text) && NothingLost(lines, text)
    && LastMetLast(Chunks(lines))
  }

  function NamesOfBoth(lines: seq<Instr>, text: seq<Instr>): set<string> {
    Declared(Stages(lines)) + Declared(Stages(text))
  }

  lemma {:induction false} SanitizedNotFree(hash: string -> string, text: seq<Instr>)
    requires SanitizeSafe(hash, text) && WellScoped(Stages(text))
    ensures forall m :: m in Declared(Stages(text)) ==> SanitizeStageName(hash, m) !in Free(Stages(text))
  {
    var rho := SanitizeRenaming(hash, Declared(Stages(text)));
    forall m, r | m in Declared(Stages(text)) && r in Free(Stages(text)) ensures SanitizeStageName(hash, m) != r {
      assert Apply(rho, m) == SanitizeStageName(hash, m) && Apply(rho, r) == r;
    }
  }

  /** On the names of the text the renaming is what it is for the text alone. */
  lemma {:induction false} NamesOfText(hash: string -> string, lines: seq<Instr>, text: seq<Instr>, n: string)
    requires HexDigest(hash) && SanitizeSafe(hash, text) && WellScoped(Stages(text))
    requires Alike(hash, NamesOfBoth(lines, text), lines, text)
    ensures n in Declared(Stages(text)) ==>
              Apply(SanitizeRenaming(hash, NamesOfBoth(lines, text)), n) == SanitizeStageName(hash, n)
    ensures n in Free(Stages(text)) ==> Apply(SanitizeRenaming(hash, NamesOfBoth(lines, text)), n) == n
  {
    var names := NamesOfBoth(lines, text);
    SanitizedNotFree(hash, text);
    if n in Free(Stages(text)) && n in Declared(Stages(lines)) {
      AlikeDeclares(hash, names, lines, text, n);
    }
  }

  lemma {:induction false} TextCaptureFree(hash: string -> string, lines: seq<Instr>, text: seq<Instr>)
    requires HexDigest(hash) && SanitizeSafe(hash, text) && WellScoped(Stages(text))
    requires Alike(hash, NamesOfBoth(lines, text), lines, text)
    ensures CaptureFree(SanitizeRenaming(hash, NamesOfBoth(lines, text)), Stages(text))
  {
    var small := SanitizeRenaming(hash, Declared(Stages(text)));
    var large := SanitizeRenaming(hash, NamesOfBoth(lines, text));
    forall n | n in Free(Stages(text)) + Declared(Stages(text)) ensures Apply(large, n) == Apply(small, n) {
      NamesOfText(hash, lines, text, n);
    }
    forall r | r in Free(Stages(text)) ensures Apply(large, r) == r {
      NamesOfText(hash, lines, text, r);
    }
  }

  lemma {:induction false} MountsStay(hash: string -> string, lines: seq<Instr>, text: seq<Instr>, m: string)
    requires HexDigest(hash) && Alike(hash, NamesOfBoth(lines, text), lines, text)
    requires Apply(SanitizeRenaming(hash, Declared(Stages(text))), m) == m
    ensures Apply(SanitizeRenaming(hash, NamesOfBoth(lines, text)), m) == m
  {
    if m in Declared(Stages(lines)) && m !in Declared(Stages(text)) {
      AlikeDeclares(hash, NamesOfBoth(lines, text), lines, text, m);
      var n :| n in Declared(Stages(text)) && m == SanitizeStageName(hash, n);
      SanitizedNameForm(hash, n);
    }
  }

  lemma {:induction false} LinesMountsFixed(hash: string -> string, lines: seq<Instr>, text: seq<Instr>,
                                            doc: seq<Instr>)
    requires HexDigest(hash) && SanitizeSafe(hash, text) && Alike(hash, NamesOfBoth(lines, text), lines, text)
    requires forall i :: i in doc ==> i in lines
    ensures MountsFixed(SanitizeRenaming(hash, NamesOfBoth(lines, text)), doc)
  {
    var names := NamesOfBoth(lines, text);
    forall i | i in doc && i.Run? && i.mount.Some?
      ensures Apply(SanitizeRenaming(hash, names), i.mount.value) == i.mount.value
    {
      var k :| 0 <= k < |lines| && lines[k] == i;
      assert AlikeInstr(hash, names, lines[k], text[k]);
      assert text[k] == i && text[k] in text;
      MountsStay(hash, lines, text, i.mount.value);
    }
  }

  lemma {:induction false} FlattenMembers(chunks: seq<Chunk>, i: Instr)
    ensures i in Flatten(chunks) <==> exists c: Chunk :: c in chunks && i in c
  {
    if chunks != [] {
      var before, c := chunks[..|chunks| - 1], chunks[|chunks| - 1];
      FlattenMembers(before, i);
      assert chunks == before + [c];
    }
  }

  lemma {:induction false} DeduplicatedMembers(doc: seq<Instr>, i: Instr)
    requires i in Deduplicated(doc)
    ensures i in doc
  {
    ChunksSplit(doc);
    FlattenMembers(KeepFirst(Chunks(doc)), i);
    var c: Chunk :| c in KeepFirst(Chunks(doc)) && i in c;
    KeepFirstMembers(Chunks(doc), c);
    FlattenMembers(Chunks(doc), i);
  }

  /** The passes rename the deduplicated lines. */
  lemma {:induction false} OutputRenamed(hash: string -> string, lines: seq<Instr>, text: seq<Instr>)
    requires Anchored(lines) && PassesSafe(hash, lines, text) && Alike(hash, NamesOfBoth(lines, text), lines, text)
    ensures var kept := Deduplicated(lines);
            && Anchored(kept) && Thinned(Stages(lines), Stages(kept))
            && Sanitized(hash, kept) == Rename(SanitizeRenaming(hash, NamesOfBoth(lines, text)), kept)
  {
    var kept := Deduplicated(lines);
    DeduplicationThins(lines);
    ThinnedDeclares(Stages(lines), Stages(kept));
    ThinnedFree(Stages(lines), Stages(kept));
    forall i | i in kept ensures i in lines {
      DeduplicatedMembers(lines, i);
    }
    LinesMountsFixed(hash, lines, text, kept);
    SanitizingIsRenaming(hash, kept, NamesOfBoth(lines, text));
  }

  lemma {:induction false} RenamedWellScoped(rho: Renaming, ss: seq<Stage>)
    requires WellScoped(ss) && Uniform(ss) && CaptureFree(rho, ss)
    ensures WellScoped(RenameStages(rho, ss)) && Uniform(RenameStages(rho, ss))
    ensures Free(RenameStages(rho, ss)) <= Free(ss)
  {
    RenamedFree(rho, ss, Free(ss));
    RenamedUniform(rho, ss);
    forall n | n in Declared(RenameStages(rho, ss)) ensures n !in Free(ss) {
      RenamedDeclares(rho, ss, n);
    }
  }

  /** The written lines, as stages: the text renamed, without some later copies. */
  lemma {:induction false} OutputStages(hash: string -> string, lines: seq<Instr>, text: seq<Instr>)
    requires Anchored(lines) && PassesSafe(hash, lines, text) && Alike(hash, NamesOfBoth(lines, text), lines, text)
    requires WellScoped(Stages(text)) && Stages(text) != []
    ensures var out := Stages(Sanitized(hash, Deduplicated(lines)));
            var v := RenameStages(SanitizeRenaming(hash, NamesOfBoth(lines, text)), Stages(text));
            && Anchored(Sanitized(hash, Deduplicated(lines)))
            && Thinned(v, out) && out != [] && out[|out| - 1] == v[|v| - 1]
  {
    var names, kept := NamesOfBoth(lines, text), Deduplicated(lines);
    var rho := SanitizeRenaming(hash, names);
    OutputRenamed(hash, lines, text);
    AlikeRenamed(hash, names, lines, text);
    StagesOfRenamed(rho, lines);
    StagesOfRenamed(rho, text);
    StagesOfRenamed(rho, kept);
    ThinnedRenamed(rho, Stages(lines), Stages(kept));
    assert |Stages(lines)| == |RenameStages(rho, Stages(lines))|;
    LastStageKept(lines);
  }

  /** The passes keep the image of the text and of each of its stages. */
  lemma {:induction false} PassesKeepMeaning(hash: string -> string, lines: seq<Instr>, text: seq<Instr>)
    requires Anchored(lines) && PassesSafe(hash, lines, text) && Alike(hash, NamesOfBoth(lines, text), lines, text)
    requires WellScoped(Stages(text)) && Uniform(Stages(text)) && Stages(text) != []
    ensures var out := Stages(Sanitized(hash, Deduplicated(lines)));
            && Anchored(Sanitized(hash, Deduplicated(lines))) && out != [] && Free(out) <= Free(Stages(text))
            && LastImage(map[], out) == LastImage(map[], Stages(text))
            && forall u :: u in Declared(Stages(text)) ==>
                 Resolve(EnvOf(map[], out), SanitizeStageName(hash, u)) == Resolve(EnvOf(map[], Stages(text)), u)
  {
    var rho := SanitizeRenaming(hash, NamesOfBoth(lines, text));
    var out, v := Stages(Sanitized(hash, Deduplicated(lines))), RenameStages(rho, Stages(text));
    OutputStages(hash, lines, text);
    TextCaptureFree(hash, lines, text);
    RenamedWellScoped(rho, Stages(text));
    RenamingKeepsMeaning(rho, Stages(text));
    ThinnedEnv(v, out);
    ThinnedLast(v, out);
    ThinnedFree(v, out);
    forall u | u in Declared(Stages(text)) ensures Apply(rho, u) == SanitizeStageName(hash, u) {
      NamesOfText(hash, lines, text, u);
    }
  }
}
