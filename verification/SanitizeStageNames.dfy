/** src/lib/sanitizeStageNames.js and src/utils/sanitizeStageName.js: stage names are brought to
    [a-z0-9_-] and at most 255 characters, in one forward pass over the document. */
module SanitizeStageNames {
  import opened Dockerfile
  import opened Renaming

  const MAX_STAGE_NAME_LENGTH := 255
  const KEPT_LENGTH := 244
  const HASH_LENGTH := 10

  predicate NameChar(c: char) {
    'a' <= c <= 'z' || '0' <= c <= '9' || c == '_' || c == '-'
  }

  predicate NameChars(s: string) {
    forall i :: 0 <= i < |s| ==> NameChar(s[i])
  }

  /** Lower case, and '_' for what stageNameFilter rejects. */
  function SanitizeChar(c: char): char {
    if 'A' <= c <= 'Z' then 'a' + (c - 'A')
    else if NameChar(c) then c
    else '_'
  }

  function Take(s: string, n: nat): string {
    if |s| <= n then s else s[..n]
  }

  /** `hash` is the hexadecimal digest of the source, which stays uninterpreted. */
  function SanitizeStageName(hash: string -> string, name: string): string {
    var clean := seq(|name|, i requires 0 <= i < |name| => SanitizeChar(name[i]));
    if |clean| > MAX_STAGE_NAME_LENGTH
    then clean[..KEPT_LENGTH] + "-" + Take(hash(clean), HASH_LENGTH)
    else clean
  }

  ghost predicate HexDigest(hash: string -> string) {
    forall s :: NameChars(hash(s))
  }

  lemma {:induction false} SanitizedNameForm(hash: string -> string, name: string)
    requires HexDigest(hash)
    ensures NameChars(SanitizeStageName(hash, name))
    ensures |SanitizeStageName(hash, name)| <= MAX_STAGE_NAME_LENGTH
    ensures SanitizeStageName(hash, SanitizeStageName(hash, name)) == SanitizeStageName(hash, name)
    ensures NameChars(name) && |name| <= MAX_STAGE_NAME_LENGTH ==> SanitizeStageName(hash, name) == name
  {
    assert NameChars(hash(seq(|name|, i requires 0 <= i < |name| => SanitizeChar(name[i]))));
  }

  /** A letter becomes its lower-case letter, whose code is 32 more than that of the upper-case one; a
      digit, '_' and '-' stay; everything else becomes '_'. */
  ghost predicate Becomes(c: char, d: char) {
    var code := c as int;
    if 65 <= code <= 90 then d as int == code + 32
    else if 97 <= code <= 122 || 48 <= code <= 57 || c == '_' || c == '-' then d == c
    else d == '_'
  }

  ghost predicate CleanText(name: string, clean: string) {
    |clean| == |name| && forall i :: 0 <= i < |name| ==> Becomes(name[i], clean[i])
  }

  /** A name up to the limit is cleaned character by character. Of a longer one the first 244 clean
      characters stay, with a dash and the first ten characters of the digest behind them. */
  lemma {:induction false} SanitizedExactly(hash: string -> string, name: string) returns (clean: string)
    ensures CleanText(name, clean)
    ensures |name| <= 255 ==> SanitizeStageName(hash, name) == clean
    ensures |name| > 255 && |hash(clean)| >= 10 ==>
              SanitizeStageName(hash, name) == clean[..244] + "-" + hash(clean)[..10]
  {
    clean := seq(|name|, i requires 0 <= i < |name| => SanitizeChar(name[i]));
  }

  lemma {:induction false} CleanTextOnce(name: string, a: string, b: string)
    requires CleanText(name, a) && CleanText(name, b)
    ensures a == b
  {
    forall i | 0 <= i < |name| ensures a[i] == b[i] {
      assert Becomes(name[i], a[i]) && Becomes(name[i], b[i]);
    }
  }

  /** Two names get the same result exactly if their clean texts agree, or both are long and agree in
      the part that stays and in the start of the digest. */
  lemma {:induction false} SanitizedSame(hash: string -> string, m: string, n: string, a: string, b: string)
    requires CleanText(m, a) && CleanText(n, b) && |hash(a)| >= 10 && |hash(b)| >= 10
    ensures SanitizeStageName(hash, m) == SanitizeStageName(hash, n)
            <==> || a == b
                 || (|m| > 255 && |n| > 255 && a[..244] == b[..244] && hash(a)[..10] == hash(b)[..10])
                 || (|m| <= 255 && |n| > 255 && a == b[..244] + "-" + hash(b)[..10])
                 || (|m| > 255 && |n| <= 255 && b == a[..244] + "-" + hash(a)[..10])
  {
    var a' := SanitizedExactly(hash, m);
    var b' := SanitizedExactly(hash, n);
    CleanTextOnce(m, a, a');
    CleanTextOnce(n, b, b');
    if |m| > 255 && |n| > 255 {
      LongSame(a[..244], hash(a)[..10], b[..244], hash(b)[..10]);
    }
  }

  lemma {:induction false} LongSame(a: string, x: string, b: string, y: string)
    requires |a| == |b|
    ensures a + "-" + x == b + "-" + y <==> a == b && x == y
  {
    if a + "-" + x == b + "-" + y {
      assert (a + "-" + x)[..|a|] == a && (a + "-" + x)[|a| + 1..] == x;
      assert (b + "-" + y)[..|b|] == b && (b + "-" + y)[|b| + 1..] == y;
    }
  }

  /** The alias map of the source after the document. */
  function Aliases(hash: string -> string, doc: seq<Instr>): Renaming {
    if doc == [] then map[]
    else
      var before, i := Aliases(hash, doc[..|doc| - 1]), doc[|doc| - 1];
      if i.From? && i.alias.Some?
      then before[i.alias.value := SanitizeStageName(hash, i.alias.value)]
      else before
  }

  function SanitizeInstr(hash: string -> string, aliases: Renaming, i: Instr): Instr {
    match i
    case From(base, alias) =>
      From(Apply(aliases, base), if alias.Some? then Some(SanitizeStageName(hash, alias.value)) else None)
    case Copy(verb, from, rest) => Copy(verb, ApplyOption(aliases, from), rest)
    case _ => i
  }

  function Sanitized(hash: string -> string, doc: seq<Instr>): seq<Instr> {
    if doc == [] then []
    else
      var before := doc[..|doc| - 1];
      Sanitized(hash, before) + [SanitizeInstr(hash, Aliases(hash, before), doc[|doc| - 1])]
  }

  method SanitizeDocument(hash: string -> string, doc: seq<Instr>) returns (result: seq<Instr>)
    ensures result == Sanitized(hash, doc)
  {
    var stageAliasMap: map<string, string> := map[];
    result := [];
    var k := 0;
    while k < |doc|
      invariant 0 <= k <= |doc|
      invariant stageAliasMap == Aliases(hash, doc[..k])
      invariant result == Sanitized(hash, doc[..k])
    {
      assert doc[..k + 1][..k] == doc[..k];
      match doc[k] {
        case From(base, alias) =>
          var imageName := base;
          if base in stageAliasMap {
            imageName := stageAliasMap[base];
          }
          if alias.Some? {
            var sanitizedAlias := SanitizeStageName(hash, alias.value);
            stageAliasMap := stageAliasMap[alias.value := sanitizedAlias];
            result := result + [From(imageName, Some(sanitizedAlias))];
          } else {
            result := result + [From(imageName, None)];
          }
        case Copy(verb, from, rest) =>
          if from.Some? && from.value in stageAliasMap {
            result := result + [Copy(verb, Some(stageAliasMap[from.value]), rest)];
          } else {
            result := result + [doc[k]];
          }
        case _ => result := result + [doc[k]];
      }
      k := k + 1;
    }
    assert doc[..k] == doc;
  }

  /** After the pass every alias has the form BuildKit accepts, and a second pass changes
      nothing. */
  lemma {:induction false} SanitizingIsIdempotent(hash: string -> string, doc: seq<Instr>)
    requires HexDigest(hash)
    ensures Sanitized(hash, Sanitized(hash, doc)) == Sanitized(hash, doc)
    ensures |Sanitized(hash, doc)| == |doc|
    ensures forall n :: n in Aliases(hash, Sanitized(hash, doc)) ==> Aliases(hash, Sanitized(hash, doc))[n] == n
    ensures forall i :: 0 <= i < |doc| && Sanitized(hash, doc)[i].From? && Sanitized(hash, doc)[i].alias.Some? ==>
              var alias := Sanitized(hash, doc)[i].alias.value;
              NameChars(alias) && |alias| <= MAX_STAGE_NAME_LENGTH
  {
    if doc != [] {
      var before, i := doc[..|doc| - 1], doc[|doc| - 1];
      SanitizingIsIdempotent(hash, before);
      var once := Sanitized(hash, doc);
      assert once[..|once| - 1] == Sanitized(hash, before);
      if i.From? && i.alias.Some? {
        SanitizedNameForm(hash, i.alias.value);
      }
    }
  }

  // The pass as a renaming

  function SanitizeRenaming(hash: string -> string, names: set<string>): Renaming {
    map n | n in names :: SanitizeStageName(hash, n)
  }

  /** The pass leaves mount references alone, so those to stages must be sanitised already. */
  ghost predicate MountsFixed(rho: Renaming, doc: seq<Instr>) {
    forall i :: i in doc && i.Run? && i.mount.Some? ==> Apply(rho, i.mount.value) == i.mount.value
  }

  /** Sanitising merges no names, meets no external reference, and changes no name that a mount
      refers to. */
  ghost predicate SanitizeSafe(hash: string -> string, doc: seq<Instr>) {
    var ss := Stages(doc);
    var rho := SanitizeRenaming(hash, Declared(ss));
    InjectiveOn(rho, Free(ss) + Declared(ss)) && MountsFixed(rho, doc)
  }

  /** Names that already have the form BuildKit accepts are safe. */
  lemma {:induction false} WellFormedNamesSafe(hash: string -> string, doc: seq<Instr>)
    requires forall n :: n in Declared(Stages(doc)) ==> NameChars(n) && |n| <= MAX_STAGE_NAME_LENGTH
    ensures SanitizeSafe(hash, doc)
  {
    var rho := SanitizeRenaming(hash, Declared(Stages(doc)));
    forall n ensures Apply(rho, n) == n {
      if n in rho {
        assert seq(|n|, i requires 0 <= i < |n| => SanitizeChar(n[i])) == n;
      }
    }
  }

  lemma {:induction false} AliasesOf(hash: string -> string, doc: seq<Instr>, n: string)
    ensures n in Aliases(hash, doc) <==> n in Declared(Stages(doc))
    ensures n in Aliases(hash, doc) ==> Aliases(hash, doc)[n] == SanitizeStageName(hash, n)
  {
    if doc != [] {
      AliasesOf(hash, doc[..|doc| - 1], n);
      DeclaredSnoc(doc);
    }
  }

  /** One instruction: its reference is renamed exactly if it is declared before. */
  lemma {:induction false} InstrRenamed(hash: string -> string, before: seq<Instr>, i: Instr, names: set<string>)
    requires Anchored(before + [i]) && Declared(Stages(before + [i])) <= names && Free(Stages(before + [i])) !! names
    requires i.Run? && i.mount.Some? ==> Apply(SanitizeRenaming(hash, names), i.mount.value) == i.mount.value
    ensures SanitizeInstr(hash, Aliases(hash, before), i) == RenameInstr(SanitizeRenaming(hash, names), i)
  {
    assert (before + [i])[..|before|] == before;
    DeclaredSnoc(before + [i]);
    match i {
      case From(base, _) => AliasesOf(hash, before, base);
      case Copy(_, Some(ref), _) =>
        AliasesOf(hash, before, ref);
        LastDeclared(Stages(before));
      case _ =>
    }
  }

  lemma {:induction false} LastDeclared(ss: seq<Stage>)
    requires ss != []
    ensures Declared(ss[..|ss| - 1]) <= Declared(ss)
  {
  }

  lemma {:induction false} SanitizingIsRenaming(hash: string -> string, doc: seq<Instr>, names: set<string>)
    requires Anchored(doc)
    requires Declared(Stages(doc)) <= names && Free(Stages(doc)) !! names
    requires MountsFixed(SanitizeRenaming(hash, names), doc)
    ensures Sanitized(hash, doc) == Rename(SanitizeRenaming(hash, names), doc)
  {
    if doc != [] {
      var before, i := doc[..|doc| - 1], doc[|doc| - 1];
      assert doc == before + [i];
      assert i in doc;
      DeclaredSnoc(doc);
      SanitizingIsRenaming(hash, before, names);
      InstrRenamed(hash, before, i, names);
      RenameSnoc(SanitizeRenaming(hash, names), doc);
    }
  }

  lemma {:induction false} SanitizedRun(hash: string -> string, doc: seq<Instr>, k: nat)
    requires k < |doc| && doc[k].Run?
    ensures |Sanitized(hash, doc)| == |doc| && Sanitized(hash, doc)[k] == doc[k]
  {
    SanitizedLength(hash, doc[..|doc| - 1]);
    if k < |doc| - 1 {
      SanitizedRun(hash, doc[..|doc| - 1], k);
    }
  }

  lemma {:induction false} SanitizedLength(hash: string -> string, doc: seq<Instr>)
    ensures |Sanitized(hash, doc)| == |doc|
  {
    if doc != [] {
      SanitizedLength(hash, doc[..|doc| - 1]);
    }
  }

  /** The pass is the renaming of the declared names exactly when it changes no mounted one. */
  lemma {:induction false} SanitizingExact(hash: string -> string, doc: seq<Instr>)
    requires Anchored(doc) && WellScoped(Stages(doc))
    ensures var rho := SanitizeRenaming(hash, Declared(Stages(doc)));
            Sanitized(hash, doc) == Rename(rho, doc) <==> MountsFixed(rho, doc)
  {
    var rho := SanitizeRenaming(hash, Declared(Stages(doc)));
    if MountsFixed(rho, doc) {
      SanitizingIsRenaming(hash, doc, Declared(Stages(doc)));
    } else {
      var i :| i in doc && i.Run? && i.mount.Some? && Apply(rho, i.mount.value) != i.mount.value;
      var k :| 0 <= k < |doc| && doc[k] == i;
      SanitizedRun(hash, doc, k);
      assert Rename(rho, doc)[k] != i;
    }
  }

  /** The pass keeps every image when sanitised names stay apart from each other and from the
      external references, and mounts refer to names it does not change. */
  lemma {:induction false} SanitizingKeepsMeaning(hash: string -> string, doc: seq<Instr>)
    requires Anchored(doc) && WellScoped(Stages(doc)) && SanitizeSafe(hash, doc)
    ensures var before, after := Stages(doc), Stages(Sanitized(hash, doc));
            && |after| == |before|
            && (forall n :: n in Declared(before) ==>
                  Resolve(EnvOf(map[], after), SanitizeStageName(hash, n)) == Resolve(EnvOf(map[], before), n))
            && (before != [] ==> LastImage(map[], after) == LastImage(map[], before))
  {
    var names := Declared(Stages(doc));
    var rho := SanitizeRenaming(hash, names);
    SanitizingIsRenaming(hash, doc, names);
    StagesOfRenamed(rho, doc);
    RenamingKeepsMeaning(rho, Stages(doc));
    assert forall n :: n in names ==> Apply(rho, n) == SanitizeStageName(hash, n);
  }
}
