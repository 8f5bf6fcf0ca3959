/** src/core/scopeStages.js: the stages of an included file get the file's slug as a prefix.

    The source rewrites the instructions in place, one stage name after the other, and matches
    the base of a FROM with `startsWith`. `Scoped` is that loop; the lemmas say when it is the
    simultaneous renaming it is meant to be. */
module ScopeStages {
  import opened Dockerfile
  import opened Renaming

  const FINAL_STAGE := "final-stage"

  /** A base the source takes for a file path. */
  predicate PathLike(base: string) {
    base != "" && (base[0] == '.' || base[0] == '/')
  }

  function WithDefault(i: Instr): Instr {
    if i.From? && i.alias.None? && !PathLike(i.base) then i.(alias := Some(FINAL_STAGE)) else i
  }

  function Defaulted(doc: seq<Instr>): seq<Instr> {
    seq(|doc|, k requires 0 <= k < |doc| => WithDefault(doc[k]))
  }

  /** A stage without a name is called `final-stage`, unless its base starts like a path. */
  lemma {:induction false} DefaultedExactly(doc: seq<Instr>, k: nat)
    requires k < |doc|
    ensures |Defaulted(doc)| == |doc|
    ensures Defaulted(doc)[k]
            == match doc[k]
               case From(base, None) =>
                 if base != "" && base[0] in "./" then doc[k] else From(base, Some("final-stage"))
               case _ => doc[k]
  {
  }

  /** The declared stage names, in document order. */
  function StageNames(doc: seq<Instr>): seq<string> {
    if doc == [] then []
    else
      var i := doc[|doc| - 1];
      StageNames(doc[..|doc| - 1]) + (if i.From? && i.alias.Some? then [i.alias.value] else [])
  }

  function ScopedName(prefix: string, n: string): string {
    prefix + "--" + n
  }

  // One round of the loop: what processing the name `s` does to a declaration or `--from`
  // reference, to a base, and to an instruction.

  function RenameExact(prefix: string, s: string, n: Option<string>): Option<string> {
    if n == Some(s) then Some(ScopedName(prefix, s)) else n
  }

  function RenameStart(prefix: string, s: string, base: string): string {
    if s <= base then ScopedName(prefix, s) else base
  }

  function Rewrite(prefix: string, s: string, i: Instr): Instr {
    match i
    case From(base, alias) => From(RenameStart(prefix, s, base), RenameExact(prefix, s, alias))
    case Copy(verb, from, rest) => Copy(verb, RenameExact(prefix, s, from), rest)
    case Run(mount, command) => Run(RenameExact(prefix, s, mount), command)
    case _ => i
  }

  function RewriteRounds(prefix: string, names: seq<string>, i: Instr): Instr {
    if names == [] then i
    else Rewrite(prefix, names[|names| - 1], RewriteRounds(prefix, names[..|names| - 1], i))
  }

  /** The document after the whole loop. */
  function Scoped(prefix: string, doc: seq<Instr>): seq<Instr> {
    var d := Defaulted(doc);
    var names := StageNames(d);
    seq(|d|, k requires 0 <= k < |d| => RewriteRounds(prefix, names, d[k]))
  }

  /** The first loop of the source: collect the names, naming unnamed stages on the way. */
  method IdentifyStages(doc: array<Instr>) returns (names: seq<string>)
    modifies doc
    ensures doc[..] == Defaulted(old(doc[..]))
    ensures names == StageNames(doc[..])
  {
    ghost var d := Defaulted(doc[..]);
    names := [];
    var k := 0;
    while k < doc.Length
      invariant 0 <= k <= doc.Length
      invariant forall j :: 0 <= j < k ==> doc[j] == d[j]
      invariant forall j :: k <= j < doc.Length ==> doc[j] == old(doc[j])
      invariant names == StageNames(d[..k])
    {
      assert d[..k + 1][..k] == d[..k];
      if doc[k].From? {
        if doc[k].alias.Some? {
          names := names + [doc[k].alias.value];
        } else if !PathLike(doc[k].base) {
          names := names + [FINAL_STAGE];
          doc[k] := doc[k].(alias := Some(FINAL_STAGE));
        }
      }
      k := k + 1;
    }
    assert d[..k] == d;
    assert doc[..] == d;
  }

  /** The inner loop of the source, for one name. */
  method RewriteStage(doc: array<Instr>, prefix: string, s: string)
    modifies doc
    ensures forall k :: 0 <= k < doc.Length ==> doc[k] == Rewrite(prefix, s, old(doc[k]))
  {
    var k := 0;
    while k < doc.Length
      invariant 0 <= k <= doc.Length
      invariant forall j :: 0 <= j < k ==> doc[j] == Rewrite(prefix, s, old(doc[j]))
      invariant forall j :: k <= j < doc.Length ==> doc[j] == old(doc[j])
    {
      match doc[k] {
        case From(base, alias) =>
          if alias == Some(s) {
            doc[k] := doc[k].(alias := Some(ScopedName(prefix, s)));
          }
          if s <= base {
            doc[k] := doc[k].(base := ScopedName(prefix, s));
          }
        case Copy(_, from, _) =>
          if from == Some(s) {
            doc[k] := doc[k].(from := Some(ScopedName(prefix, s)));
          }
        case Run(mount, _) =>
          if mount == Some(s) {
            doc[k] := doc[k].(mount := Some(ScopedName(prefix, s)));
          }
        case _ =>
      }
      k := k + 1;
    }
  }

  /** The whole pass, in place. */
  method ScopeInstructions(doc: array<Instr>, prefix: string)
    modifies doc
    ensures doc[..] == Scoped(prefix, old(doc[..]))
  {
    ghost var d := Defaulted(doc[..]);
    var names := IdentifyStages(doc);
    assert names[..0] == [];
    assert forall j :: 0 <= j < doc.Length ==> doc[j] == doc[..][j];
    var round := 0;
    while round < |names|
      invariant 0 <= round <= |names|
      invariant forall j :: 0 <= j < doc.Length ==> doc[j] == RewriteRounds(prefix, names[..round], d[j])
    {
      assert names[..round + 1][..round] == names[..round];
      RewriteStage(doc, prefix, names[round]);
      round := round + 1;
    }
    assert names[..round] == names;
  }

  // When the loop is one simultaneous renaming

  function ScopeRenaming(prefix: string, names: seq<string>): Renaming {
    map n | n in names :: ScopedName(prefix, n)
  }

  /** The first declared name that starts `b`. */
  function FirstStart(names: seq<string>, b: string): Option<string> {
    if names == [] then None
    else
      var first, s := FirstStart(names[..|names| - 1], b), names[|names| - 1];
      if first.Some? then first else if s <= b then Some(s) else None
  }

  /** The base that the loop takes `b` for. */
  function TakenFor(names: seq<string>, b: string): string {
    var first := FirstStart(names, b);
    if first.Some? then first.value else b
  }

  /** If declared names start `b`, the first that does is `b` itself. */
  predicate OrderedFor(names: seq<string>, b: string) {
    TakenFor(names, b) == b
  }

  ghost predicate Ordered(names: seq<string>, bases: set<string>) {
    forall b :: b in bases ==> OrderedFor(names, b)
  }

  // A base that was rewritten starts with the prefix, so a later name that starts the prefix
  // rewrites it again.

  /** The name that the loop leaves in place of `b`: the first that starts `b`, replaced by every
      later one that starts the prefix. */
  function Taken(prefix: string, names: seq<string>, b: string): Option<string> {
    if names == [] then None
    else
      var before, s := Taken(prefix, names[..|names| - 1], b), names[|names| - 1];
      if if before.Some? then s <= prefix else s <= b then Some(s) else before
  }

  /** The base that the loop takes `b` for. */
  function TakenBy(prefix: string, names: seq<string>, b: string): string {
    var taken := Taken(prefix, names, b);
    if taken.Some? then taken.value else b
  }

  /** The loop takes `b` for itself. */
  predicate TakenRight(prefix: string, names: seq<string>, b: string) {
    TakenBy(prefix, names, b) == b
  }

  /** A declared name that starts a prefixed name starts the prefix. */
  ghost predicate Clean(prefix: string, names: seq<string>) {
    forall s, t :: s in names && t in names && s <= ScopedName(prefix, t) ==> s <= prefix
  }

  /** No declared name is a prefixed one. */
  ghost predicate Fresh(prefix: string, names: seq<string>) {
    forall s, t :: s in names && t in names ==> s != ScopedName(prefix, t)
  }

  function Bases(stages: seq<Stage>): set<string> {
    set s | s in stages :: s.base
  }

  function RoundsExact(prefix: string, names: seq<string>, n: Option<string>): Option<string> {
    if names == [] then n
    else RenameExact(prefix, names[|names| - 1], RoundsExact(prefix, names[..|names| - 1], n))
  }

  function RoundsStart(prefix: string, names: seq<string>, base: string): string {
    if names == [] then base
    else RenameStart(prefix, names[|names| - 1], RoundsStart(prefix, names[..|names| - 1], base))
  }

  lemma {:induction false} RoundsByPart(prefix: string, names: seq<string>, i: Instr)
    ensures RewriteRounds(prefix, names, i) ==
            match i
            case From(base, alias) => From(RoundsStart(prefix, names, base), RoundsExact(prefix, names, alias))
            case Copy(verb, from, rest) => Copy(verb, RoundsExact(prefix, names, from), rest)
            case Run(mount, command) => Run(RoundsExact(prefix, names, mount), command)
            case _ => i
  {
    if names != [] {
      RoundsByPart(prefix, names[..|names| - 1], i);
    }
  }

  lemma {:induction false} CleanIsFresh(prefix: string, names: seq<string>)
    requires Clean(prefix, names)
    ensures Fresh(prefix, names)
  {
    forall s, t | s in names && t in names ensures s != ScopedName(prefix, t) {
      assert ScopedName(prefix, t) <= ScopedName(prefix, t);
    }
  }

  lemma {:induction false} FreshPrefix(prefix: string, names: seq<string>, s: string)
    requires Fresh(prefix, names + [s])
    ensures Fresh(prefix, names)
    ensures forall t :: t in names + [s] ==> s != ScopedName(prefix, t)
  {
    assert s in names + [s];
    assert forall t :: t in names ==> t in names + [s];
  }

  lemma {:induction false} ExactRoundsRename(prefix: string, names: seq<string>, n: Option<string>)
    requires Fresh(prefix, names)
    ensures RoundsExact(prefix, names, n) == ApplyOption(ScopeRenaming(prefix, names), n)
  {
    if names != [] {
      var before, s := names[..|names| - 1], names[|names| - 1];
      assert names == before + [s];
      FreshPrefix(prefix, before, s);
      ExactRoundsRename(prefix, before, n);
    }
  }

  lemma {:induction false} FirstStartOf(names: seq<string>, b: string)
    ensures var first := FirstStart(names, b);
            && (first.Some? ==> first.value in names && first.value <= b)
            && (first.None? ==> forall n :: n in names ==> !(n <= b))
  {
    if names != [] {
      var before, s := names[..|names| - 1], names[|names| - 1];
      assert names == before + [s];
      FirstStartOf(before, b);
    }
  }

  lemma {:induction false} TakenOf(prefix: string, names: seq<string>, b: string)
    ensures var taken := Taken(prefix, names, b);
            && (taken.Some? ==> taken.value in names)
            && (taken.None? <==> forall n :: n in names ==> !(n <= b))
  {
    if names != [] {
      var before, s := names[..|names| - 1], names[|names| - 1];
      assert names == before + [s];
      TakenOf(prefix, before, b);
      assert s in names && forall n :: n in names <==> n in before || n == s;
    }
  }

  lemma {:induction false} CleanPrefix(prefix: string, names: seq<string>, s: string)
    requires Clean(prefix, names + [s])
    ensures Clean(prefix, names)
    ensures forall t :: t in names ==> (s <= ScopedName(prefix, t) <==> s <= prefix)
  {
    assert s in names + [s];
    forall t | t in names ensures t in names + [s] && (s <= prefix ==> s <= ScopedName(prefix, t)) {
      if s <= prefix {
        assert prefix <= ScopedName(prefix, t);
        StartsThrough(s, prefix, ScopedName(prefix, t));
      }
    }
  }

  /** Whatever the order, the loop gives a base the prefixed name of what it takes it for. */
  lemma {:induction false} StartRounds(prefix: string, names: seq<string>, b: string)
    requires Clean(prefix, names)
    ensures RoundsStart(prefix, names, b) ==
            match Taken(prefix, names, b) case Some(n) => ScopedName(prefix, n) case None => b
  {
    if names != [] {
      var before, s := names[..|names| - 1], names[|names| - 1];
      assert names == before + [s];
      CleanPrefix(prefix, before, s);
      StartRounds(prefix, before, b);
      TakenOf(prefix, before, b);
    }
  }

  lemma {:induction false} BaseTaken(prefix: string, names: seq<string>, b: string)
    requires Clean(prefix, names)
    ensures RoundsStart(prefix, names, b) == Apply(ScopeRenaming(prefix, names), TakenBy(prefix, names, b))
  {
    TakenOf(prefix, names, b);
    StartRounds(prefix, names, b);
  }

  lemma {:induction false} OrderedMore(names: seq<string>, s: string, b: string)
    ensures OrderedFor(names + [s], b) <==> OrderedFor(names, b) && (s <= b ==> b in names + [s])
  {
    assert (names + [s])[..|names|] == names;
    FirstStartOf(names, b);
  }

  ghost predicate MetLast(prefix: string, names: seq<string>, b: string) {
    forall i, j :: 0 <= i <= j < |names| && names[i] <= b && names[j] <= prefix ==> b in names[j..]
  }

  ghost predicate DeclaredFirst(names: seq<string>, b: string) {
    forall i :: 0 <= i < |names| && names[i] <= b ==> b in names[..i + 1]
  }

  ghost predicate NoneBehind(prefix: string, names: seq<string>, b: string) {
    forall i, j :: 0 <= i < j < |names| && names[i] <= b ==> !(names[j] <= prefix)
  }

  /** If `b` does not start the prefix: every declared name that starts `b` is `b` or comes after a
      declaration of `b`, and no name that starts the prefix comes behind one. If `b` starts the
      prefix: it is met last of the names that start the prefix, from the first that starts `b` on. */
  ghost predicate MetInOrder(prefix: string, names: seq<string>, b: string) {
    if b <= prefix then MetLast(prefix, names, b) else DeclaredFirst(names, b) && NoneBehind(prefix, names, b)
  }

  lemma {:induction false} SnocAt(names: seq<string>, s: string)
    ensures (names + [s])[|names|] == s && forall i :: 0 <= i < |names| ==> (names + [s])[i] == names[i]
  {
  }

  lemma {:induction false} SnocPrefix(names: seq<string>, s: string, i: nat)
    requires i <= |names|
    ensures (names + [s])[..i] == names[..i] && (names + [s])[..|names| + 1] == names + [s]
  {
  }

  lemma {:induction false} SnocSuffix(names: seq<string>, s: string, j: nat)
    requires j <= |names|
    ensures (names + [s])[j..] == names[j..] + [s]
  {
  }

  /** No declared name starts `b`. */
  ghost predicate Untouched(names: seq<string>, b: string) {
    forall n :: n in names ==> !(n <= b)
  }

  lemma {:induction false} DeclaredBefore(names: seq<string>, s: string, b: string)
    requires DeclaredFirst(names + [s], b)
    ensures DeclaredFirst(names, b) && (s <= b && Untouched(names, b) ==> s == b)
  {
    SnocAt(names, s);
    forall i | 0 <= i < |names| && names[i] <= b ensures b in names[..i + 1] {
      assert (names + [s])[i] <= b;
      SnocPrefix(names, s, i + 1);
    }
    if s <= b && Untouched(names, b) {
      assert (names + [s])[|names|] <= b;
      SnocPrefix(names, s, 0);
      assert b <= b;
    }
  }

  lemma {:induction false} DeclaredBehind(names: seq<string>, s: string, b: string)
    requires DeclaredFirst(names, b) && (s <= b && Untouched(names, b) ==> s == b)
    ensures DeclaredFirst(names + [s], b)
  {
    SnocAt(names, s);
    forall i | 0 <= i < |names + [s]| && (names + [s])[i] <= b ensures b in (names + [s])[..i + 1] {
      if i < |names| {
        SnocPrefix(names, s, i + 1);
      } else {
        SnocPrefix(names, s, 0);
        if !Untouched(names, b) {
          var k :| 0 <= k < |names| && names[k] <= b;
          assert b in names[..k + 1];
        }
      }
    }
  }

  lemma {:induction false} DeclaredMore(names: seq<string>, s: string, b: string)
    ensures DeclaredFirst(names + [s], b) <==> DeclaredFirst(names, b) && (s <= b && Untouched(names, b) ==> s == b)
  {
    if DeclaredFirst(names + [s], b) {
      DeclaredBefore(names, s, b);
    }
    if DeclaredFirst(names, b) && (s <= b && Untouched(names, b) ==> s == b) {
      DeclaredBehind(names, s, b);
    }
  }

  lemma {:induction false} BehindMore(prefix: string, names: seq<string>, s: string, b: string)
    ensures NoneBehind(prefix, names + [s], b)
            <==> NoneBehind(prefix, names, b) && (Untouched(names, b) || !(s <= prefix))
  {
    var more := names + [s];
    SnocAt(names, s);
    if NoneBehind(prefix, more, b) {
      forall i, j | 0 <= i < j < |names| && names[i] <= b ensures !(names[j] <= prefix) {
        assert more[i] <= b && more[j] == names[j];
      }
      if !Untouched(names, b) {
        var k :| 0 <= k < |names| && names[k] <= b;
        assert more[k] <= b && more[|names|] == s;
      }
    } else {
      var i, j :| 0 <= i < j < |more| && more[i] <= b && more[j] <= prefix;
      assert names[i] in names;
    }
  }

  lemma {:induction false} LastKept(prefix: string, names: seq<string>, s: string, b: string)
    requires !(s <= b) && (s <= prefix ==> Untouched(names, b))
    ensures MetLast(prefix, names + [s], b) <==> MetLast(prefix, names, b)
  {
    var more := names + [s];
    SnocAt(names, s);
    assert b <= b;
    if MetLast(prefix, more, b) {
      forall i, j | 0 <= i <= j < |names| && names[i] <= b && names[j] <= prefix ensures b in names[j..] {
        assert more[i] <= b && more[j] <= prefix;
        SnocSuffix(names, s, j);
      }
    } else {
      var i, j :| 0 <= i <= j < |more| && more[i] <= b && more[j] <= prefix && b !in more[j..];
      assert i < |names|;
      assert names[i] in names;
      assert j < |names|;
      SnocSuffix(names, s, j);
    }
  }

  lemma {:induction false} LastReplaced(prefix: string, names: seq<string>, s: string, b: string)
    requires s <= prefix && (s <= b || !Untouched(names, b))
    ensures MetLast(prefix, names + [s], b) <==> s == b
  {
    var more := names + [s];
    SnocAt(names, s);
    SnocSuffix(names, s, |names|);
    if MetLast(prefix, more, b) {
      var i :| 0 <= i < |more| && more[i] <= b;
      assert more[i] <= b && more[|names|] <= prefix;
      assert b in more[|names|..];
    } else {
      var i, j :| 0 <= i <= j < |more| && more[i] <= b && more[j] <= prefix && b !in more[j..];
      assert more[|names|] in more[j..];
    }
  }

  lemma {:induction false} TakenMore(prefix: string, names: seq<string>, s: string, b: string)
    ensures Taken(prefix, names + [s], b)
            == if if Untouched(names, b) then s <= b else s <= prefix then Some(s) else Taken(prefix, names, b)
  {
    assert (names + [s])[..|names|] == names;
    TakenOf(prefix, names, b);
  }

  lemma {:induction false} TakenRightMeans(prefix: string, names: seq<string>, b: string)
    ensures TakenRight(prefix, names, b) <==> MetInOrder(prefix, names, b)
  {
    if names != [] {
      var before, s := names[..|names| - 1], names[|names| - 1];
      assert names == before + [s];
      TakenRightMeans(prefix, before, b);
      TakenMore(prefix, before, s, b);
      TakenOf(prefix, before, b);
      if b <= prefix {
        StartsThrough(s, b, prefix);
        if s <= prefix && (s <= b || !Untouched(before, b)) {
          LastReplaced(prefix, before, s, b);
        } else {
          LastKept(prefix, before, s, b);
        }
      } else {
        DeclaredMore(before, s, b);
        BehindMore(prefix, before, s, b);
      }
    }
  }

  /** Where no name that starts the prefix follows a name that starts `b`, the first name that starts
      `b` decides. */
  lemma {:induction false} TakenOnce(prefix: string, names: seq<string>, b: string)
    requires NoneBehind(prefix, names, b)
    ensures Taken(prefix, names, b) == FirstStart(names, b)
  {
    if names != [] {
      var before, s := names[..|names| - 1], names[|names| - 1];
      assert names == before + [s];
      BehindMore(prefix, before, s, b);
      TakenOnce(prefix, before, b);
      FirstStartOf(before, b);
    }
  }

  /** Where no name starts the prefix, the first name that starts `b` decides. */
  lemma {:induction false} TakenFirst(prefix: string, names: seq<string>, b: string)
    requires forall n :: n in names ==> !(n <= prefix)
    ensures TakenBy(prefix, names, b) == TakenFor(names, b)
  {
    assert forall j :: 0 <= j < |names| ==> names[j] in names;
    TakenOnce(prefix, names, b);
  }

  lemma {:induction false} FirstStartConcat(a: seq<string>, b: seq<string>, x: string)
    ensures FirstStart(a + b, x) == if FirstStart(a, x).Some? then FirstStart(a, x) else FirstStart(b, x)
  {
    if b == [] {
      assert a + b == a;
    } else {
      assert (a + b)[..|a + b| - 1] == a + b[..|b| - 1];
      FirstStartConcat(a, b[..|b| - 1], x);
    }
  }

  lemma {:induction false} OrderedConcat(a: seq<string>, b: seq<string>, x: string)
    requires OrderedFor(a, x) && OrderedFor(b, x)
    ensures OrderedFor(a + b, x)
  {
    FirstStartConcat(a, b, x);
  }

  lemma {:induction false} NoneStarts(names: seq<string>, b: string)
    requires forall n :: n in names ==> !(n <= b)
    ensures FirstStart(names, b) == None && OrderedFor(names, b)
  {
    FirstStartOf(names, b);
  }

  /** What a base is taken for is taken for itself. */
  lemma {:induction false} TakenIsOrdered(names: seq<string>, b: string)
    ensures OrderedFor(names, TakenFor(names, b))
  {
    if names != [] {
      var before, s := names[..|names| - 1], names[|names| - 1];
      TakenIsOrdered(before, b);
      FirstStartOf(before, b);
      FirstStartOf(before, TakenFor(before, b));
      if FirstStart(before, b).None? && s <= b {
        forall n | n in before ensures !(n <= s) {
          StartsThrough(n, s, b);
        }
        NoneStarts(before, s);
      }
    }
  }

  lemma {:induction false} StartsThrough(a: string, b: string, c: string)
    requires b <= c
    ensures a <= b ==> a <= c
  {
    if a <= b {
      assert a == c[..|b|][..|a|];
    }
  }

  /** The loop gives a base its own prefixed name, or leaves an external one, exactly if it takes it
      for itself. */
  lemma {:induction false} BaseExact(prefix: string, names: seq<string>, b: string)
    requires Clean(prefix, names) && forall t :: t in names ==> b != ScopedName(prefix, t)
    ensures RoundsStart(prefix, names, b) == Apply(ScopeRenaming(prefix, names), b) <==> TakenRight(prefix, names, b)
    ensures TakenRight(prefix, names, b) <==> MetInOrder(prefix, names, b)
  {
    TakenRightMeans(prefix, names, b);
    BaseTaken(prefix, names, b);
    TakenOf(prefix, names, b);
    var t := TakenBy(prefix, names, b);
    if t != b {
      assert ScopedName(prefix, t)[|prefix| + 2..] == t;
      assert ScopedName(prefix, b)[|prefix| + 2..] == b;
    }
  }

  // The loop as a renaming, whatever the order

  function RebaseInstr(prefix: string, names: seq<string>, i: Instr): Instr {
    if i.From? then i.(base := TakenBy(prefix, names, i.base)) else i
  }

  /** The document with the bases as the loop takes them. */
  function RebasedDoc(prefix: string, names: seq<string>, doc: seq<Instr>): seq<Instr> {
    seq(|doc|, k requires 0 <= k < |doc| => RebaseInstr(prefix, names, doc[k]))
  }

  /** On every document the loop is the simultaneous renaming s to prefix--s after each base was
      replaced by what the loop takes it for. */
  lemma {:induction false} ScopingRebases(prefix: string, doc: seq<Instr>)
    requires Clean(prefix, StageNames(Defaulted(doc)))
    ensures var names := StageNames(Defaulted(doc));
            Scoped(prefix, doc) == Rename(ScopeRenaming(prefix, names), RebasedDoc(prefix, names, Defaulted(doc)))
  {
    var d := Defaulted(doc);
    var names := StageNames(d);
    CleanIsFresh(prefix, names);
    forall k | 0 <= k < |d|
      ensures RewriteRounds(prefix, names, d[k])
           == RenameInstr(ScopeRenaming(prefix, names), RebaseInstr(prefix, names, d[k]))
    {
      RoundsByPart(prefix, names, d[k]);
      match d[k] {
        case From(base, alias) => BaseTaken(prefix, names, base); ExactRoundsRename(prefix, names, alias);
        case Copy(_, from, _) => ExactRoundsRename(prefix, names, from);
        case Run(mount, _) => ExactRoundsRename(prefix, names, mount);
        case _ =>
      }
    }
  }

  lemma {:induction false} BasesOfDoc(doc: seq<Instr>, b: string)
    ensures b in Bases(Stages(doc)) <==> exists k :: 0 <= k < |doc| && doc[k].From? && doc[k].base == b
  {
    if doc != [] {
      var before, i := doc[..|doc| - 1], doc[|doc| - 1];
      BasesOfDoc(before, b);
      assert forall k :: 0 <= k < |before| ==> before[k] == doc[k];
      var ss := Stages(before);
      if !i.From? && !NoOp(i) && ss != [] {
        assert Stages(doc) == ss[..|ss| - 1] + [Stages(doc)[|ss| - 1]];
        assert ss == ss[..|ss| - 1] + [ss[|ss| - 1]];
      }
    }
  }

  lemma {:induction false} StageNamesAreNames(doc: seq<Instr>)
    ensures StageNames(doc) == Names(Stages(doc))
  {
    if doc != [] {
      var before, i := doc[..|doc| - 1], doc[|doc| - 1];
      StageNamesAreNames(before);
      var ss := Stages(before);
      if i.From? {
        assert Stages(doc)[..|ss|] == ss;
      } else if !NoOp(i) && ss != [] {
        assert Stages(doc)[..|ss| - 1] == ss[..|ss| - 1];
      }
    }
  }

  /** The bases are told apart from the prefixed names. */
  ghost predicate BasesApart(prefix: string, d: seq<Instr>) {
    forall b, t :: b in Bases(Stages(d)) && t in StageNames(d) ==> b != ScopedName(prefix, t)
  }

  /** The loop is the simultaneous renaming s to prefix--s exactly when every base is met in
      order. */
  lemma {:induction false} ScopingIsRenaming(prefix: string, doc: seq<Instr>)
    requires Clean(prefix, StageNames(Defaulted(doc))) && BasesApart(prefix, Defaulted(doc))
    ensures Scoped(prefix, doc) == Rename(ScopeRenaming(prefix, StageNames(Defaulted(doc))), Defaulted(doc))
            <==> forall b :: b in Bases(Stages(Defaulted(doc))) ==>
                   MetInOrder(prefix, StageNames(Defaulted(doc)), b)
  {
    ScopingIsRight(prefix, doc);
    forall b
      ensures TakenRight(prefix, StageNames(Defaulted(doc)), b) <==> MetInOrder(prefix, StageNames(Defaulted(doc)), b)
    {
      TakenRightMeans(prefix, StageNames(Defaulted(doc)), b);
    }
  }

  lemma {:induction false} InstrRight(prefix: string, names: seq<string>, i: Instr)
    requires Clean(prefix, names) && Fresh(prefix, names)
    requires i.From? ==> forall t :: t in names ==> i.base != ScopedName(prefix, t)
    ensures RewriteRounds(prefix, names, i) == RenameInstr(ScopeRenaming(prefix, names), i)
            <==> (i.From? ==> TakenRight(prefix, names, i.base))
  {
    RoundsByPart(prefix, names, i);
    match i {
      case From(base, alias) =>
        BaseExact(prefix, names, base);
        ExactRoundsRename(prefix, names, alias);
      case Copy(_, from, _) => ExactRoundsRename(prefix, names, from);
      case Run(mount, _) => ExactRoundsRename(prefix, names, mount);
      case _ =>
    }
  }

  lemma {:induction false} ScopingIsRight(prefix: string, doc: seq<Instr>)
    requires Clean(prefix, StageNames(Defaulted(doc))) && BasesApart(prefix, Defaulted(doc))
    ensures Scoped(prefix, doc) == Rename(ScopeRenaming(prefix, StageNames(Defaulted(doc))), Defaulted(doc))
            <==> forall b :: b in Bases(Stages(Defaulted(doc))) ==>
                   TakenRight(prefix, StageNames(Defaulted(doc)), b)
  {
    var d := Defaulted(doc);
    var names := StageNames(d);
    var rho := ScopeRenaming(prefix, names);
    CleanIsFresh(prefix, names);
    forall k | 0 <= k < |d|
      ensures RewriteRounds(prefix, names, d[k]) == RenameInstr(rho, d[k])
              <==> (d[k].From? ==> TakenRight(prefix, names, d[k].base))
    {
      BasesOfDoc(d, if d[k].From? then d[k].base else "");
      InstrRight(prefix, names, d[k]);
    }
    forall b | b in Bases(Stages(d)) ensures exists k :: 0 <= k < |d| && d[k].From? && d[k].base == b {
      BasesOfDoc(d, b);
    }
    forall k | 0 <= k < |d| && d[k].From? ensures d[k].base in Bases(Stages(d)) {
      BasesOfDoc(d, d[k].base);
    }
    var x, y := Scoped(prefix, doc), Rename(rho, d);
    if forall b :: b in Bases(Stages(d)) ==> TakenRight(prefix, names, b) {
      assert x == y;
    } else {
      var b :| b in Bases(Stages(d)) && !TakenRight(prefix, names, b);
      var k :| 0 <= k < |d| && d[k].From? && d[k].base == b;
      assert x[k] != y[k];
    }
  }

  /** The file's own names are told apart from its external references and from the prefix. */
  ghost predicate NoClash(prefix: string, stages: seq<Stage>) {
    && Clean(prefix, Names(stages))
    && (forall b :: b in Bases(stages) ==> TakenRight(prefix, Names(stages), b))
    && WellScoped(stages)
    && forall r, n :: r in Free(stages) && n in Declared(stages) ==> r != ScopedName(prefix, n)
  }

  lemma {:induction false} ScopeRenamingCaptureFree(prefix: string, stages: seq<Stage>)
    requires WellScoped(stages)
    requires forall r, n :: r in Free(stages) && n in Declared(stages) ==> r != ScopedName(prefix, n)
    ensures CaptureFree(ScopeRenaming(prefix, Names(stages)), stages)
  {
    forall n ensures n in Names(stages) <==> n in Declared(stages) {
      DeclaredIff(stages, n);
    }
    forall x, y | ScopedName(prefix, x) == ScopedName(prefix, y) ensures x == y {
      assert ScopedName(prefix, x)[|prefix| + 2..] == x;
      assert ScopedName(prefix, y)[|prefix| + 2..] == y;
    }
  }

  /** A base that the loop takes for itself is declared or external, so no prefixed name. */
  lemma {:induction false} RightIsApart(prefix: string, d: seq<Instr>)
    requires NoClash(prefix, Stages(d)) && StageNames(d) == Names(Stages(d))
    ensures BasesApart(prefix, d)
  {
    forall b, t | b in Bases(Stages(d)) && t in StageNames(d) ensures b != ScopedName(prefix, t) {
      var x :| x in Stages(d) && x.base == b;
      RefsOfMember(Stages(d), x);
      DeclaredIff(Stages(d), b);
      DeclaredIff(Stages(d), t);
      CleanIsFresh(prefix, StageNames(d));
    }
  }

  /** Scoping an included file keeps the image of each of its stages and of the whole file. */
  lemma {:induction false} ScopingKeepsMeaning(prefix: string, doc: seq<Instr>)
    requires NoClash(prefix, Stages(Defaulted(doc)))
    ensures var before, after := Stages(Defaulted(doc)), Stages(Scoped(prefix, doc));
            && |after| == |before|
            && (forall n :: n in Declared(before) ==>
                  Resolve(EnvOf(map[], after), ScopedName(prefix, n)) == Resolve(EnvOf(map[], before), n))
            && (before != [] ==> LastImage(map[], after) == LastImage(map[], before))
  {
    var d := Defaulted(doc);
    StageNamesAreNames(d);
    RightIsApart(prefix, d);
    ScopingIsRight(prefix, doc);
    var rho := ScopeRenaming(prefix, StageNames(d));
    StagesOfRenamed(rho, d);
    ScopeRenamingCaptureFree(prefix, Stages(d));
    RenamingKeepsMeaning(rho, Stages(d));
    forall n | n in Declared(Stages(d)) ensures Apply(rho, n) == ScopedName(prefix, n) {
      DeclaredIff(Stages(d), n);
    }
  }
}
