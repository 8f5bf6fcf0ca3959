/** Include trees whose names can be told apart: what the compiler demands of its input. */
module TidyTrees {
  import opened Dockerfile
  import opened ScopeStages
  import opened PostProcessDockerfile
  import opened LoadDockerfile
  import opened IncludeGuards
  import opened Interpreter

  // Body text

  /** A file with body instructions only, INCLUDEs of such files among them. `depth` bounds the
      nesting; what lies deeper is never loaded. */
  predicate Snippet(w: World, f: File, depth: nat)
    decreases depth, 1
  {
    forall i :: 0 <= i < |f.items| ==> InlineTo(w, f.items[i], depth)
  }

  predicate InlineTo(w: World, item: Item, depth: nat)
    decreases depth, 0
  {
    match item
    case Plain(i) => !i.From?
    case IncludeEnv(_, content) => FromFree(content)
    case Include(ref) => depth > 0 && ref.path in w.files ==> Snippet(w, w.files[ref.path], depth - 1)
    case _ => false
  }

  /** The body instructions of the first n instructions, INCLUDEs written out. */
  function SnippetBody(w: World, f: File, depth: nat, n: nat): seq<Instr>
    requires n <= |f.items|
    decreases depth, 1, n
  {
    if n == 0 then [] else SnippetBody(w, f, depth, n - 1) + BodyTo(w, f.items[n - 1], depth)
  }

  function BodyTo(w: World, item: Item, depth: nat): seq<Instr>
    decreases depth, 0, 0
  {
    match item
    case Plain(i) => [i]
    case IncludeEnv(_, content) => content
    case Include(ref) =>
      if depth > 0 && ref.path in w.files
      then SnippetBody(w, w.files[ref.path], depth - 1, |w.files[ref.path].items|)
      else []
    case _ => []
  }

  predicate Inline(w: World, item: Item) {
    InlineTo(w, item, w.maxDepth)
  }

  /** The body instructions an instruction stands for. */
  function InlineBody(w: World, item: Item): seq<Instr> {
    BodyTo(w, item, w.maxDepth)
  }

  // What a file declares and brings in, read off its instructions

  /** The instruction uses a stage of another file. */
  predicate Uses(item: Item) {
    item.FromFile? || item.CopyFile?
  }

  /** An INCLUDE of a file that may have stages. */
  predicate StageInclude(w: World, item: Item) {
    item.Include? && item.ref.path in w.files && !Inline(w, item)
  }

  /** The instruction brings in the stages of another file. */
  predicate Brings(w: World, item: Item) {
    Uses(item) || StageInclude(w, item)
  }

  predicate StartsStage(w: World, item: Item) {
    match item
    case Plain(i) => i.From?
    case FromFile(_, _, _) => true
    case _ => StageInclude(w, item)
  }

  predicate HasStage(w: World, f: File, n: nat)
    requires n <= |f.items|
  {
    n > 0 && (StartsStage(w, f.items[n - 1]) || HasStage(w, f, n - 1))
  }

  /** The slug that the compiler gives the wanted stage of another file as alias. */
  function AliasSlug(w: World, item: Item): string
    requires RefOfItem(item).Some?
  {
    w.slug(RefOfItem(item).value.aliasBase)
  }

  /** The name of the stage that an instruction starts. Below the root the last stage of an INCLUDEd
      file gets the file's slug as name, and what follows the INCLUDE continues it. */
  function NameOf(w: World, isRoot: bool, item: Item): Option<string> {
    if StageInclude(w, item) then Some(AliasSlug(w, item)) else StageName(isRoot, item)
  }

  /** The names of the stages started by the first n instructions. */
  function OwnNames(w: World, f: File, isRoot: bool, n: nat): seq<string>
    requires n <= |f.items|
  {
    if n == 0 then []
    else
      var name := NameOf(w, isRoot, f.items[n - 1]);
      OwnNames(w, f, isRoot, n - 1) + (if name.Some? then [name.value] else [])
  }

  function NameSet(names: seq<string>): set<string> {
    set n | n in names
  }

  /** The names of the stages finished before instruction n. */
  function Finished(w: World, f: File, isRoot: bool, n: nat): set<string>
    requires n <= |f.items|
  {
    if n == 0 then {}
    else if StartsStage(w, f.items[n - 1]) then NameSet(OwnNames(w, f, isRoot, n - 1))
    else Finished(w, f, isRoot, n - 1)
  }

  /** Instruction k gives a stage of the file its own name u. */
  predicate NamesStage(f: File, isRoot: bool, k: nat, u: string) {
    k < |f.items| && StageName(isRoot, f.items[k]) == Some(u)
  }

  // INCLUDE at the root

  /** The first n instructions with INCLUDEd files in place of the INCLUDEs. */
  function Flat(w: World, f: File, n: nat): seq<Item>
    requires n <= |f.items|
  {
    if n == 0 then []
    else
      var item := f.items[n - 1];
      Flat(w, f, n - 1) + (if StageInclude(w, item) then w.files[item.ref.path].items else [item])
  }

  function FlatFile(w: World, f: File): File {
    File(f.display, Flat(w, f, |f.items|))
  }

  /** An INCLUDEd file copies from a file only behind a stage of its own, and if it has a stage then
      no body text stands before it. */
  ghost predicate IncludedOk(w: World, g: File) {
    && (forall m :: 0 <= m < |g.items| && g.items[m].CopyFile? ==> HasStage(w, g, m))
    && (HasStage(w, g, |g.items|) ==>
          forall m :: 0 <= m < |g.items| && !HasStage(w, g, m) && Inline(w, g.items[m]) ==>
            Effective(InlineBody(w, g.items[m])) == [])
  }

  // INCLUDE below the root

  /** What users know of a file: the external images that it and the files below it refer to, and the
      names of its stages and of those that it INCLUDEs. */
  datatype Outline = Outline(ext: set<string>, names: set<string>)

  type Outlines = string -> Outline

  /** The names that the compiler hides behind instruction n: those of INCLUDEd stages and their
      slugs, unless the file uses them again for stages of its own. */
  function Hidden(w: World, known: Outlines, f: File, isRoot: bool, n: nat): set<string>
    requires n <= |f.items|
  {
    if n == 0 then {}
    else
      var item, before := f.items[n - 1], Hidden(w, known, f, isRoot, n - 1);
      if StageInclude(w, item) then before + {AliasSlug(w, item)} + known(item.ref.path).names
      else if StageName(isRoot, item).Some? then before - {StageName(isRoot, item).value}
      else before
  }

  /** What an instruction refers to, of an INCLUDEd file what it refers to outside. */
  function ItemRefs(w: World, known: Outlines, item: Item): set<string> {
    match item
    case Plain(i) => if i.From? then {i.base} else BodyRefs([i])
    case IncludeEnv(_, content) => BodyRefs(content)
    case Include(ref) => if StageInclude(w, item) then known(ref.path).ext else BodyRefs(InlineBody(w, item))
    case _ => {}
  }

  // Generated names

  /** A slug that stands for a file that f brings in: as prefix of its stages or as alias. */
  ghost predicate NearSlug(w: World, f: File, path: string, t: string) {
    exists item :: item in f.items && Brings(w, item) && RefOfItem(item).value.path == path && path in w.files
                   && (t == w.slug(w.files[path].display) || t == AliasSlug(w, item))
  }

  /** The names that a file brought in may declare: its alias and names under its prefix. */
  ghost predicate Owned(w: World, ref: Ref, n: string) {
    ref.path in w.files &&
    (n == w.slug(ref.aliasBase) || w.slug(w.files[ref.path].display) + "--" <= n)
  }

  // The demands

  /** Slugs of different files that f brings in differ, none starts another or an external image. */
  ghost predicate SlugsApart(w: World, ext: set<string>, f: File) {
    && (forall p, q, t, u :: NearSlug(w, f, p, t) && NearSlug(w, f, q, u) && t <= u ==> p == q && t == u)
    && (forall p, t, e :: NearSlug(w, f, p, t) && e in ext ==> !(t <= e))
  }

  /** Body text comes after a FROM and refers to finished stages or external images. */
  ghost predicate BodyOk(w: World, ext: set<string>, f: File, isRoot: bool, k: nat, body: seq<Instr>)
    requires k <= |f.items|
  {
    && FromFree(body)
    && (HasStage(w, f, k) || Effective(body) == [])
    && BodyRefs(body) <= ext + Finished(w, f, isRoot, k)
  }

  /** The name of the stage that a target asks for: the target, else the last stage. */
  function WantedName(names: seq<string>, target: Option<string>): string {
    if IsTarget(target) then target.value
    else if names == [] then ""
    else names[|names| - 1]
  }

  /** The file has a stage, and a target is one of its stages and not INCLUDEd. Below the root the
      alias line is scoped again, so there the wanted name has to be met in order. */
  ghost predicate ChildOk(w: World, known: Outlines, ext: set<string>, isRoot: bool, ref: Ref, target: Option<string>) {
    ref.path in w.files ==>
      var g := w.files[ref.path];
      var names := OwnNames(w, g, false, |g.items|);
      && HasStage(w, g, |g.items|) && known(ref.path).ext <= ext
      && (IsTarget(target) ==> target.value in names && target.value !in Hidden(w, known, g, false, |g.items|))
      && (isRoot || OrderedFor(names, WantedName(names, target)))
  }

  /** Nothing behind an INCLUDE refers to one of its stages. */
  ghost predicate ItemOk(w: World, known: Outlines, ext: set<string>, f: File, isRoot: bool, k: nat)
    requires k < |f.items|
  {
    && ItemRefs(w, known, f.items[k]) !! Hidden(w, known, f, isRoot, k)
    && match f.items[k]
       case Plain(i) =>
         if i.From? then !PathLike(i.base) && (i.base in ext || i.base in OwnNames(w, f, isRoot, k))
         else BodyOk(w, ext, f, isRoot, k, [i])
       case IncludeEnv(_, content) => BodyOk(w, ext, f, isRoot, k, content)
       case Include(ref) =>
         if StageInclude(w, f.items[k]) then ChildOk(w, known, ext, isRoot, ref, None)
         else BodyOk(w, ext, f, isRoot, k, InlineBody(w, f.items[k]))
       case FromFile(ref, target, _) => ChildOk(w, known, ext, isRoot, ref, target)
       case CopyFile(_, ref, target, _) => HasStage(w, f, k) && ChildOk(w, known, ext, isRoot, ref, target)
  }

  function TargetOf(item: Item): Option<string> {
    match item
    case FromFile(_, target, _) => target
    case CopyFile(_, _, target, _) => target
    case _ => None
  }

  /** One file is used under one slug and for one target, and an INCLUDEd file is brought in once. */
  ghost predicate OneUse(w: World, f: File) {
    forall i, j :: 0 <= i < |f.items| && 0 <= j < |f.items| && Brings(w, f.items[i]) && Brings(w, f.items[j])
                   && RefOfItem(f.items[i]).value.path == RefOfItem(f.items[j]).value.path && i != j
      ==> && Uses(f.items[i]) && Uses(f.items[j])
          && AliasSlug(w, f.items[i]) == AliasSlug(w, f.items[j]) && TargetOf(f.items[i]) == TargetOf(f.items[j])
  }

  /** A FROM of the file names one of its own stages. */
  predicate OwnBase(f: File, b: string) {
    exists k :: 0 <= k < |f.items| && f.items[k].Plain? && f.items[k].instr.From? && f.items[k].instr.base == b
  }

  /** The stages of the file at `path` stand before those that instruction k starts: it is brought in
      by then, or put in front by copies only. */
  predicate BroughtBy(w: World, f: File, k: nat, path: string)
    requires k < |f.items|
  {
    || (exists i :: 0 <= i <= k && Brings(w, f.items[i]) && RefOfItem(f.items[i]).value.path == path)
    || (forall i :: 0 <= i < |f.items| && Brings(w, f.items[i]) && RefOfItem(f.items[i]).value.path == path ==>
          f.items[i].CopyFile?)
  }

  /** Up to instruction k the file has brought in nothing, and no copy puts anything in front. */
  predicate NothingBrought(w: World, f: File, k: nat)
    requires k < |f.items|
  {
    && (forall i :: 0 <= i <= k ==> !Brings(w, f.items[i]))
    && (forall i :: 0 <= i < |f.items| ==> !f.items[i].CopyFile?)
  }

  /** The names of a file against its own slug: the slug starts no name, image or other slug, and a
      name that starts the slug comes before everything that is brought in. */
  ghost predicate PrefixOk(w: World, ext: set<string>, f: File) {
    var prefix := w.slug(f.display);
    && (forall e :: e in ext ==> !(prefix <= e))
    && (forall p, t :: NearSlug(w, f, p, t) ==> !(prefix <= t) && !(t <= prefix))
    && (forall k: nat, u :: NamesStage(f, false, k, u) ==> !(prefix <= u) && (u <= prefix ==> NothingBrought(w, f, k)))
  }

  /** The names of an included file: bases are met in order, no name starts an external image, none is
      started by a slug, and a name that starts a slug stands behind the stages of that file. */
  ghost predicate IncludedNamesOk(w: World, ext: set<string>, f: File) {
    var names := OwnNames(w, f, false, |f.items|);
    && PrefixOk(w, ext, f)
    && (forall b :: OwnBase(f, b) && b in names ==>
          OrderedFor(names, b) && TakenRight(w.slug(f.display), names, b))
    && (forall k: nat, u, e :: NamesStage(f, false, k, u) && e in ext ==> !(u <= e))
    && (forall k: nat, u, p, t :: NamesStage(f, false, k, u) && NearSlug(w, f, p, t) ==>
          !(t <= u) && (u <= t ==> BroughtBy(w, f, k, p)))
  }

  /** The names of the root only have to be different from external and generated names. */
  ghost predicate RootNamesOk(w: World, ext: set<string>, f: File) {
    && (forall k: nat, u :: NamesStage(f, true, k, u) ==> u !in ext)
    && (forall k: nat, u, item :: NamesStage(f, true, k, u) && item in f.items && Brings(w, item) ==>
          !Owned(w, RefOfItem(item).value, u))
  }

  ghost predicate FileOk(w: World, known: Outlines, ext: set<string>, f: File, isRoot: bool) {
    && (forall k :: 0 <= k < |f.items| ==> ItemOk(w, known, ext, f, isRoot, k))
    && OneUse(w, f) && SlugsApart(w, ext, f)
    && Distinct(OwnNames(w, f, isRoot, |f.items|))
    && (if isRoot then RootNamesOk(w, ext, f) else IncludedNamesOk(w, ext, f))
  }

  /** The users of a file know its names and those that it INCLUDEs. */
  ghost predicate NamesKnown(w: World, known: Outlines, path: string)
    requires path in w.files
  {
    var f := w.files[path];
    NameSet(OwnNames(w, f, false, |f.items|)) + Hidden(w, known, f, false, |f.items|) <= known(path).names
  }

  /** The file is not the root, or the root INCLUDEs itself. */
  ghost predicate Below(w: World, root: string, path: string)
    requires path in w.files
  {
    path != root || exists item :: item in w.files[path].items && StageInclude(w, item) && item.ref.path == root
  }

  /** A FROM or `--from` uses the file, or a file below the root INCLUDEs it. */
  ghost predicate Brought(w: World, root: string, path: string) {
    exists p, item :: p in w.files && item in w.files[p].items && Brings(w, item)
                      && (Uses(item) || Below(w, root, p)) && RefOfItem(item).value.path == path
  }

  ghost predicate RootOk(w: World, known: Outlines, ext: set<string>, f: File) {
    && FileOk(w, known, ext, FlatFile(w, f), true)
    && HasStage(w, FlatFile(w, f), |Flat(w, f, |f.items|)|)
    && forall k :: 0 <= k < |f.items| && StageInclude(w, f.items[k]) ==> IncludedOk(w, w.files[f.items[k].ref.path])
  }

  /** Every file below the root meets the demands, and so does the root with its INCLUDEs written
      out. */
  ghost predicate Tidy(w: World, root: string, known: Outlines) {
    && (forall p :: p in w.files && p != root && Brought(w, root, p) ==>
          FileOk(w, known, known(p).ext, w.files[p], false) && NamesKnown(w, known, p))
    && (root in w.files ==> RootOk(w, known, known(root).ext, w.files[root]))
  }

  // Where slugs and files that are brought in come from

  lemma {:induction false} NearSlugOf(w: World, f: File, path: string, t: string) returns (item: Item)
    requires NearSlug(w, f, path, t)
    ensures item in f.items && Brings(w, item) && RefOfItem(item).Some? && RefOfItem(item).value.path == path
    ensures path in w.files && (t == w.slug(w.files[path].display) || t == AliasSlug(w, item))
  {
    item :| item in f.items && Brings(w, item) && RefOfItem(item).value.path == path && path in w.files
            && (t == w.slug(w.files[path].display) || t == AliasSlug(w, item));
  }

  lemma {:induction false} BroughtOf(w: World, root: string, path: string) returns (p: string, item: Item)
    requires Brought(w, root, path)
    ensures p in w.files && item in w.files[p].items && Brings(w, item)
    ensures RefOfItem(item).Some? && RefOfItem(item).value.path == path && (Uses(item) || Below(w, root, p))
  {
    p, item :| p in w.files && item in w.files[p].items && Brings(w, item)
               && (Uses(item) || Below(w, root, p)) && RefOfItem(item).value.path == path;
  }

  // Generated names are apart

  lemma {:induction false} PrefixesCompare(a: string, b: string, m: string)
    requires a <= m && b <= m
    ensures a <= b || b <= a
  {
    if |a| <= |b| {
      assert a == m[..|a|] == b[..|a|];
    } else {
      assert b == m[..|b|] == a[..|b|];
    }
  }

  /** An instruction of the file brings in what `ref` refers to. */
  ghost predicate Refers(w: World, f: File, ref: Ref) {
    ref.path in w.files && exists item :: item in f.items && Brings(w, item) && RefOfItem(item) == Some(ref)
  }

  lemma {:induction false} RefersSlugs(w: World, f: File, ref: Ref)
    requires Refers(w, f, ref)
    ensures NearSlug(w, f, ref.path, w.slug(ref.aliasBase))
    ensures NearSlug(w, f, ref.path, w.slug(w.files[ref.path].display))
  {
  }

  lemma {:induction false} OwnedSlug(w: World, f: File, ref: Ref, n: string) returns (t: string)
    requires Owned(w, ref, n) && Refers(w, f, ref)
    ensures NearSlug(w, f, ref.path, t) && t <= n
    ensures n == t || t + "--" <= n
  {
    RefersSlugs(w, f, ref);
    t := if n == w.slug(ref.aliasBase) then n else w.slug(w.files[ref.path].display);
    if n != t {
      assert t <= t + "--";
    }
  }

  /** A name of one file starts no name of another that the same file brings in. */
  lemma {:induction false} OwnedApart(w: World, ext: set<string>, f: File, r: Ref, q: Ref, n: string, m: string)
    requires SlugsApart(w, ext, f) && Owned(w, r, n) && Owned(w, q, m) && n <= m
    requires Refers(w, f, r) && Refers(w, f, q)
    ensures r.path == q.path
  {
    var t := OwnedSlug(w, f, r, n);
    var u := OwnedSlug(w, f, q, m);
    assert t <= m;
    PrefixesCompare(t, u, m);
  }

  /** A string that no slug of the file starts is apart from its generated names. */
  lemma {:induction false} OwnedNotPrefix(w: World, f: File, r: Ref, n: string, e: string)
    requires Owned(w, r, n) && Refers(w, f, r)
    requires forall t :: NearSlug(w, f, r.path, t) ==> !(t <= e)
    ensures !(n <= e)
    ensures e <= n ==> exists t :: NearSlug(w, f, r.path, t) && e <= t
  {
    var t := OwnedSlug(w, f, r, n);
    if e <= n {
      PrefixesCompare(e, t, n);
    }
  }
}
