/** A tree that meets all demands. The root INCLUDEs a file with a stage, continues the stage `build`
    of another file, which itself continues an early stage of a third, INCLUDEs body text that
    INCLUDEs more, and copies from the INCLUDEd stage and from a file. */
module ExampleTree {
  import opened Dockerfile
  import opened ScopeStages
  import opened SanitizeStageNames
  import opened LoadDockerfile
  import opened IncludeGuards
  import opened Interpreter
  import opened TidyTrees
  import opened CompilerCorrectness
  import opened TidyLoads
  import opened PlainTrees

  const BASE := Ref("base", "ctx/base", "./base")
  const OS := Ref("os", "os", "./os")
  const KIT := Ref("kit", "kit", "./kit")
  const TOOLS := Ref("tools", "tools", "./tools")
  const COMMON := Ref("common", "common", "./common")
  const LABELS := Ref("labels", "labels", "./labels")

  const FROM_TOOL := Item.Plain(From("alpine", Some("tool")))
  const FROM_BASE := FromFile(BASE, Some("build"), Some("app"))
  const COPY_TOOL := Item.Plain(Copy(COPY, Some("tool"), "/tool"))
  const COPY_KIT := CopyFile(COPY, KIT, None, "/kit")
  const FROM_OS := FromFile(OS, Some("thin"), Some("build"))
  const FROM_BUILD := Item.Plain(From("build", Some("test")))
  const FROM_THIN := Item.Plain(From("alpine", Some("thin")))
  const FROM_FULL := Item.Plain(From("thin", Some("full")))
  const FROM_KIT := Item.Plain(From("alpine", Some("bin")))

  function Line(text: string): Item {
    Item.Plain(Other(text))
  }

  const ROOT_FILE := File("Dockerfile", [Include(TOOLS), FROM_BASE, Include(COMMON), COPY_TOOL, COPY_KIT])
  const FLAT_FILE := File("Dockerfile", [FROM_TOOL, Line("tool"), FROM_BASE, Include(COMMON), COPY_TOOL, COPY_KIT])
  const TOOLS_FILE := File("tools", [FROM_TOOL, Line("tool")])
  const COMMON_FILE := File("common", [Line("common"), Include(LABELS)])
  const LABELS_FILE := File("labels", [Line("labels")])
  const BASE_FILE := File("base", [FROM_OS, Line("build"), FROM_BUILD])
  const OS_FILE := File("os", [FROM_THIN, Line("thin"), FROM_FULL])
  const KIT_FILE := File("kit", [FROM_KIT, Line("kit")])

  function SlugOfPath(path: string): string {
    if path == "base" then "slug1"
    else if path == "ctx/base" then "slug2"
    else if path == "tools" then "slug3"
    else if path == "common" then "slug4"
    else if path == "os" then "slug6"
    else if path == "kit" then "slug7"
    else if path == "labels" then "slug8"
    else "slug5"
  }

  const TREE := World(
    map["Dockerfile" := ROOT_FILE, "tools" := TOOLS_FILE, "common" := COMMON_FILE, "labels" := LABELS_FILE,
        "base" := BASE_FILE, "os" := OS_FILE, "kit" := KIT_FILE],
    SlugOfPath, (s: string) => "0", 2)

  const EXTERNAL := {"alpine"}

  function KnownOf(path: string): Outline {
    if path == "base" then Outline(EXTERNAL, {"build", "test"})
    else if path == "os" then Outline(EXTERNAL, {"thin", "full"})
    else if path == "kit" then Outline(EXTERNAL, {"bin"})
    else Outline(EXTERNAL, {})
  }

  // Slugs

  /** The files that the demands are about. */
  const FILES := [FLAT_FILE, BASE_FILE, OS_FILE, KIT_FILE]

  lemma {:induction false} TreeRefs(q: string, item: Item)
    requires q in TREE.files && item in TREE.files[q].items && RefOfItem(item).Some?
    ensures RefOfItem(item).value in [BASE, OS, KIT, TOOLS, COMMON, LABELS]
    ensures Uses(item) ==> item in [FROM_BASE, FROM_OS, COPY_KIT]
    ensures item.Include? ==> item in [Include(TOOLS), Include(COMMON), Include(LABELS)]
  {
  }

  lemma {:induction false} OnlyUses(f: File, item: Item)
    requires f in FILES && item in f.items
    ensures item.Include? ==> item == Include(COMMON)
    ensures Uses(item) ==> item in [FROM_BASE, FROM_OS, COPY_KIT]
  {
  }

  lemma {:induction false} OnlyBrings(f: File, item: Item)
    requires f in FILES && item in f.items && Brings(TREE, item)
    ensures item in [FROM_BASE, FROM_OS, COPY_KIT]
  {
    CommonInline();
    OnlyUses(f, item);
  }

  lemma {:induction false} NearSlugs(f: File, p: string, t: string)
    requires f in FILES && NearSlug(TREE, f, p, t)
    ensures (p == "base" && t in ["slug1", "slug2"]) || (p == "os" && t == "slug6") || (p == "kit" && t == "slug7")
  {
    var item := NearSlugOf(TREE, f, p, t);
    OnlyBrings(f, item);
  }

  lemma {:induction false} SlugChars(t: string, u: string)
    requires t in ["slug1", "slug2", "slug6", "slug7"] && u in ["slug1", "slug2", "slug6", "slug7"]
    ensures t != u ==> !(t <= u) && !(u <= t)
    ensures t[0] == 's' && Short(t, 5)
  {
    assert "slug1"[4] == '1' && "slug2"[4] == '2' && "slug6"[4] == '6' && "slug7"[4] == '7';
    assert t[0] == 's' && t[1] == 'l' && t[2] == 'u' && t[3] == 'g';
  }

  lemma {:induction false} TreeSlugsApart(f: File)
    requires f in FILES
    ensures SlugsApart(TREE, EXTERNAL, f)
  {
    forall p, q, t, u | NearSlug(TREE, f, p, t) && NearSlug(TREE, f, q, u) && t <= u ensures p == q && t == u {
      NearSlugs(f, p, t);
      NearSlugs(f, q, u);
      SlugChars(t, u);
    }
    forall p, t, e | NearSlug(TREE, f, p, t) && e in EXTERNAL ensures !(t <= e) {
      NearSlugs(f, p, t);
      SlugChars(t, t);
      assert "alpine"[0] == 'a';
    }
  }

  /** A name that does not begin as the slugs do. */
  lemma {:induction false} NameNoSlug(f: File, u: string)
    requires f in FILES && u != "" && u[0] != 's'
    ensures forall p, t :: NearSlug(TREE, f, p, t) ==> !(u <= t) && !(t <= u)
  {
    forall p, t | NearSlug(TREE, f, p, t) ensures !(u <= t) && !(t <= u) {
      NearSlugs(f, p, t);
      SlugChars(t, t);
    }
  }

  // Used files

  lemma {:induction false} PlainBody(f: File, isRoot: bool, k: nat, i: Instr)
    requires k < |f.items| && f.items[k] == Item.Plain(i) && HasStage(TREE, f, k) && !i.From?
    requires RefOf(i).Some? ==> RefOf(i).value in Finished(TREE, f, isRoot, k)
    requires Hidden(TREE, KnownOf, f, isRoot, k) == {}
    ensures ItemOk(TREE, KnownOf, EXTERNAL, f, isRoot, k)
  {
    assert [i][..0] == [];
  }

  /** No name starts a slug or `alpine`, and no slug starts a name. */
  ghost predicate PlainLetters(f: File) {
    && f in FILES && forall k: nat, u :: NamesStage(f, false, k, u) ==> u != "" && u[0] in "bftk"
  }

  lemma {:induction false} LettersApart(f: File)
    requires PlainLetters(f) && TREE.slug(f.display) in ["slug1", "slug6", "slug7"]
    requires forall p, t :: NearSlug(TREE, f, p, t) ==> t != TREE.slug(f.display)
    ensures PrefixOk(TREE, EXTERNAL, f)
    ensures forall k: nat, u, e :: NamesStage(f, false, k, u) && e in EXTERNAL ==> !(u <= e)
    ensures forall k: nat, u, p, t :: NamesStage(f, false, k, u) && NearSlug(TREE, f, p, t) ==> !(t <= u) && !(u <= t)
  {
    var prefix := TREE.slug(f.display);
    SlugChars(prefix, prefix);
    assert "alpine"[0] == 'a';
    forall p, t | NearSlug(TREE, f, p, t) ensures !(prefix <= t) && !(t <= prefix) {
      NearSlugs(f, p, t);
      SlugChars(prefix, t);
    }
    forall k: nat, u, p, t | NamesStage(f, false, k, u) && NearSlug(TREE, f, p, t) ensures !(t <= u) && !(u <= t) {
      NameNoSlug(f, u);
    }
  }

  /** The names of a file with the stages u and v. */
  lemma {:induction false} TwoNamesOk(prefix: string, u: string, v: string)
    requires u != "" && v != "" && u != v && u[0] in "bftk" && v[0] in "bftk" && u[0] != v[0]
    requires prefix in ["slug1", "slug6"]
    ensures Distinct([u, v]) && OrderedFor([u, v], u) && TakenRight(prefix, [u, v], u)
  {
    SlugChars(prefix, prefix);
    assert [u, v][..1] == [u] && [u][..0] == [];
    assert FirstStart([u], u) == Some(u);
    TakenFirst(prefix, [u, v], u);
  }

  lemma {:induction false} OsNames()
    ensures OwnNames(TREE, OS_FILE, false, 0) == [] && OwnNames(TREE, OS_FILE, false, 1) == ["thin"]
    ensures OwnNames(TREE, OS_FILE, false, 2) == ["thin"]
    ensures OwnNames(TREE, OS_FILE, false, 3) == ["thin", "full"]
    ensures HasStage(TREE, OS_FILE, 1) && HasStage(TREE, OS_FILE, 3)
  {
    assert OwnNames(TREE, OS_FILE, false, 0) == [] && OwnNames(TREE, OS_FILE, false, 1) == ["thin"];
    assert OwnNames(TREE, OS_FILE, false, 2) == ["thin"];
    assert HasStage(TREE, OS_FILE, 1);
  }

  lemma {:induction false} NothingHidden(f: File, isRoot: bool, n: nat)
    requires f in FILES && n <= |f.items|
    ensures Hidden(TREE, KnownOf, f, isRoot, n) == {}
  {
    if n > 0 {
      NothingHidden(f, isRoot, n - 1);
      if StageInclude(TREE, f.items[n - 1]) {
        OnlyBrings(f, f.items[n - 1]);
      }
    }
  }

  lemma {:induction false} OsPrefix()
    ensures PlainLetters(OS_FILE) && forall p, t :: !NearSlug(TREE, OS_FILE, p, t)
  {
    assert "thin"[0] == 't' && "full"[0] == 'f';
    forall p, t ensures !NearSlug(TREE, OS_FILE, p, t) {
      if NearSlug(TREE, OS_FILE, p, t) {
        var item := NearSlugOf(TREE, OS_FILE, p, t);
        OnlyUses(OS_FILE, item);
      }
    }
  }

  lemma {:induction false} OsLetters()
    ensures IncludedNamesOk(TREE, EXTERNAL, OS_FILE)
  {
    OsNames();
    OsPrefix();
    LettersApart(OS_FILE);
    assert "thin"[0] == 't' && "full"[0] == 'f' && "alpine"[0] == 'a';
    TwoNamesOk("slug6", "thin", "full");
    forall b | OwnBase(OS_FILE, b) ensures b == "thin" || b == "alpine" {
    }
  }

  lemma {:induction false} OsItems()
    ensures forall k :: 0 <= k < |OS_FILE.items| ==> ItemOk(TREE, KnownOf, EXTERNAL, OS_FILE, false, k)
  {
    OsNames();
    NothingHidden(OS_FILE, false, 0);
    NothingHidden(OS_FILE, false, 1);
    NothingHidden(OS_FILE, false, 2);
    PlainBody(OS_FILE, false, 1, Other("thin"));
    assert ItemOk(TREE, KnownOf, EXTERNAL, OS_FILE, false, 0);
    assert ItemOk(TREE, KnownOf, EXTERNAL, OS_FILE, false, 2);
  }

  lemma {:induction false} OsOk()
    ensures FileOk(TREE, KnownOf, EXTERNAL, OS_FILE, false) && OrderedFor(["thin", "full"], "thin")
  {
    OsNames();
    OsLetters();
    TwoNamesOk("slug6", "thin", "full");
    TreeSlugsApart(OS_FILE);
    OsItems();
  }

  lemma {:induction false} BaseNames()
    ensures OwnNames(TREE, BASE_FILE, false, 0) == [] && OwnNames(TREE, BASE_FILE, false, 1) == ["build"]
    ensures OwnNames(TREE, BASE_FILE, false, 2) == ["build"]
    ensures OwnNames(TREE, BASE_FILE, false, 3) == ["build", "test"]
    ensures HasStage(TREE, BASE_FILE, 1) && HasStage(TREE, BASE_FILE, 3)
  {
    assert OwnNames(TREE, BASE_FILE, false, 0) == [] && OwnNames(TREE, BASE_FILE, false, 1) == ["build"];
    assert OwnNames(TREE, BASE_FILE, false, 2) == ["build"];
    assert HasStage(TREE, BASE_FILE, 1);
  }

  lemma {:induction false} BaseLetters()
    ensures PlainLetters(BASE_FILE) && IncludedNamesOk(TREE, EXTERNAL, BASE_FILE)
  {
    BaseNames();
    assert "build"[0] == 'b' && "test"[0] == 't' && "alpine"[0] == 'a';
    forall p, t | NearSlug(TREE, BASE_FILE, p, t) ensures t == "slug6" {
      var item := NearSlugOf(TREE, BASE_FILE, p, t);
      OnlyUses(BASE_FILE, item);
    }
    SlugChars("slug6", "slug1");
    assert "slug6"[4] == '6' && "slug1"[4] == '1';
    LettersApart(BASE_FILE);
    TwoNamesOk("slug1", "build", "test");
    forall b | OwnBase(BASE_FILE, b) ensures b == "build" {
    }
  }

  lemma {:induction false} BaseUsesOs()
    ensures ItemOk(TREE, KnownOf, EXTERNAL, BASE_FILE, false, 0)
  {
    OsNames();
    OsOk();
    NothingHidden(BASE_FILE, false, 0);
    NothingHidden(OS_FILE, false, 3);
  }

  lemma {:induction false} BaseItems()
    ensures forall k :: 0 <= k < |BASE_FILE.items| ==> ItemOk(TREE, KnownOf, EXTERNAL, BASE_FILE, false, k)
  {
    BaseNames();
    NothingHidden(BASE_FILE, false, 1);
    NothingHidden(BASE_FILE, false, 2);
    PlainBody(BASE_FILE, false, 1, Other("build"));
    BaseUsesOs();
    assert ItemOk(TREE, KnownOf, EXTERNAL, BASE_FILE, false, 2);
  }

  lemma {:induction false} BaseOneUse()
    ensures OneUse(TREE, BASE_FILE)
  {
    forall i | 0 <= i < 3 && Brings(TREE, BASE_FILE.items[i]) ensures i == 0 {
    }
  }

  lemma {:induction false} BaseOk()
    ensures FileOk(TREE, KnownOf, EXTERNAL, BASE_FILE, false)
  {
    BaseNames();
    BaseLetters();
    assert "build"[0] == 'b' && "test"[0] == 't';
    TwoNamesOk("slug1", "build", "test");
    TreeSlugsApart(BASE_FILE);
    BaseItems();
    BaseOneUse();
  }

  lemma {:induction false} KitNames()
    ensures OwnNames(TREE, KIT_FILE, false, 0) == [] && OwnNames(TREE, KIT_FILE, false, 2) == ["bin"]
    ensures HasStage(TREE, KIT_FILE, 1) && HasStage(TREE, KIT_FILE, 2)
  {
    assert OwnNames(TREE, KIT_FILE, false, 1) == ["bin"];
    assert HasStage(TREE, KIT_FILE, 1);
  }

  lemma {:induction false} KitLetters()
    ensures PlainLetters(KIT_FILE) && IncludedNamesOk(TREE, EXTERNAL, KIT_FILE)
    ensures Distinct(["bin"]) && OrderedFor(["bin"], "bin")
  {
    KitNames();
    assert "bin"[0] == 'b' && "alpine"[0] == 'a';
    forall p, t | NearSlug(TREE, KIT_FILE, p, t) ensures false {
      var item := NearSlugOf(TREE, KIT_FILE, p, t);
      OnlyUses(KIT_FILE, item);
    }
    LettersApart(KIT_FILE);
    forall b | OwnBase(KIT_FILE, b) ensures b == "alpine" {
    }
    assert ["bin"][..0] == [];
  }

  lemma {:induction false} KitOk()
    ensures FileOk(TREE, KnownOf, EXTERNAL, KIT_FILE, false)
  {
    KitNames();
    KitLetters();
    TreeSlugsApart(KIT_FILE);
    NothingHidden(KIT_FILE, false, 0);
    NothingHidden(KIT_FILE, false, 1);
    PlainBody(KIT_FILE, false, 1, Other("kit"));
    assert ItemOk(TREE, KnownOf, EXTERNAL, KIT_FILE, false, 0);
  }

  /** Only the root INCLUDEs stages. */
  lemma {:induction false} NothingNested(q: string, item: Item)
    requires q in TREE.files && item in TREE.files[q].items && StageInclude(TREE, item)
    ensures q == "Dockerfile" && item == Include(TOOLS)
  {
    CommonInline();
    TreeRefs(q, item);
  }

  lemma {:induction false} NotBelow(q: string, item: Item)
    requires q in TREE.files && item in TREE.files[q].items && StageInclude(TREE, item)
    ensures !Below(TREE, "Dockerfile", q)
  {
    NothingNested(q, item);
    forall other | other in TREE.files[q].items && StageInclude(TREE, other) ensures other.ref.path != "Dockerfile" {
      NothingNested(q, other);
    }
  }

  lemma {:induction false} BroughtPath(p: string)
    requires Brought(TREE, "Dockerfile", p)
    ensures p == "base" || p == "os" || p == "kit"
  {
    var q, item := BroughtOf(TREE, "Dockerfile", p);
    if Uses(item) {
      TreeRefs(q, item);
    } else {
      NotBelow(q, item);
    }
  }

  lemma {:induction false} TreeFiles()
    ensures TREE.files["base"] == BASE_FILE && TREE.files["os"] == OS_FILE && TREE.files["kit"] == KIT_FILE
  {
  }

  lemma {:induction false} UsedOk(p: string)
    requires Brought(TREE, "Dockerfile", p)
    ensures p in TREE.files && FileOk(TREE, KnownOf, KnownOf(p).ext, TREE.files[p], false)
    ensures NamesKnown(TREE, KnownOf, p)
  {
    BroughtPath(p);
    TreeFiles();
    OsOk();
    BaseOk();
    KitOk();
    OsNames();
    BaseNames();
    KitNames();
    NothingHidden(TREE.files[p], false, |TREE.files[p].items|);
  }

  // The root with its INCLUDEs written out

  lemma {:induction false} CommonInline()
    ensures Inline(TREE, Include(COMMON)) && InlineBody(TREE, Include(COMMON)) == [Other("common"), Other("labels")]
    ensures !Inline(TREE, Include(TOOLS))
  {
    var f, g, item := COMMON_FILE, LABELS_FILE, Include(LABELS);
    assert Snippet(TREE, g, 0) && InlineTo(TREE, item, 1) && Snippet(TREE, f, 1);
    assert SnippetBody(TREE, g, 0, 1) == SnippetBody(TREE, g, 0, 0) + BodyTo(TREE, g.items[0], 0) == [Other("labels")];
    assert BodyTo(TREE, item, 1) == [Other("labels")];
    assert SnippetBody(TREE, f, 1, 1) == SnippetBody(TREE, f, 1, 0) + BodyTo(TREE, f.items[0], 1) == [Other("common")];
    assert SnippetBody(TREE, f, 1, 2) == [Other("common")] + [Other("labels")];
    assert !InlineTo(TREE, TOOLS_FILE.items[0], 1);
  }

  lemma {:induction false} FlatKeeps(n: nat, item: Item, before: seq<Item>)
    requires n < |ROOT_FILE.items| && ROOT_FILE.items[n] == item && !StageInclude(TREE, item)
    requires Flat(TREE, ROOT_FILE, n) == before
    ensures Flat(TREE, ROOT_FILE, n + 1) == before + [item]
  {
  }

  lemma {:induction false} FlatTools()
    ensures StageInclude(TREE, Include(TOOLS)) && Flat(TREE, ROOT_FILE, 1) == [FROM_TOOL, Line("tool")]
  {
    CommonInline();
    assert Flat(TREE, ROOT_FILE, 0) == [];
  }

  lemma {:induction false} OnlyTools()
    ensures forall item :: item in ROOT_FILE.items && StageInclude(TREE, item) ==> item == Include(TOOLS)
  {
    CommonInline();
  }

  lemma {:induction false} FlatStart()
    ensures Flat(TREE, ROOT_FILE, 3) == [FROM_TOOL, Line("tool"), FROM_BASE, Include(COMMON)]
  {
    var tool := [FROM_TOOL, Line("tool")];
    OnlyTools();
    FlatTools();
    assert COMMON.path != TOOLS.path;
    FlatKeeps(1, FROM_BASE, tool);
    FlatKeeps(2, Include(COMMON), tool + [FROM_BASE]);
  }

  lemma {:induction false} RootIsFlat()
    ensures FlatFile(TREE, ROOT_FILE) == FLAT_FILE
  {
    var start := [FROM_TOOL, Line("tool"), FROM_BASE, Include(COMMON)];
    OnlyTools();
    FlatStart();
    FlatKeeps(3, COPY_TOOL, start);
    FlatKeeps(4, COPY_KIT, start + [COPY_TOOL]);
  }

  lemma {:induction false} FlatNames()
    ensures OwnNames(TREE, FLAT_FILE, true, 0) == [] && OwnNames(TREE, FLAT_FILE, true, 6) == ["tool", "app"]
    ensures Finished(TREE, FLAT_FILE, true, 4) == {"tool"}
    ensures forall k :: 1 <= k <= 6 ==> HasStage(TREE, FLAT_FILE, k)
    ensures EndsNamed(TREE, FLAT_FILE, 6)
  {
    var f := FLAT_FILE;
    CommonInline();
    assert OwnNames(TREE, f, true, 0) == [] && OwnNames(TREE, f, true, 1) == ["tool"];
    assert OwnNames(TREE, f, true, 2) == ["tool"];
    assert OwnNames(TREE, f, true, 3) == ["tool", "app"] && OwnNames(TREE, f, true, 4) == ["tool", "app"];
    assert OwnNames(TREE, f, true, 5) == ["tool", "app"];
    assert NameSet(["tool"]) == {"tool"} && Finished(TREE, f, true, 3) == {"tool"};
    assert HasStage(TREE, f, 1) && HasStage(TREE, f, 2) && HasStage(TREE, f, 3) && HasStage(TREE, f, 4);
    assert HasStage(TREE, f, 5);
    assert EndsNamed(TREE, f, 3) && EndsNamed(TREE, f, 4) && EndsNamed(TREE, f, 5);
  }

  lemma {:induction false} UsesOk()
    ensures ChildOk(TREE, KnownOf, EXTERNAL, true, BASE, Some("build"))
    ensures ChildOk(TREE, KnownOf, EXTERNAL, true, KIT, None)
  {
    BaseNames();
    KitNames();
    NothingHidden(BASE_FILE, false, 3);
  }

  lemma {:induction false} FlatText(k: nat)
    requires k == 1 || k == 4
    ensures ItemOk(TREE, KnownOf, EXTERNAL, FLAT_FILE, true, k)
  {
    FlatNames();
    NothingHidden(FLAT_FILE, true, k);
    if k == 1 {
      PlainBody(FLAT_FILE, true, 1, Other("tool"));
    } else {
      PlainBody(FLAT_FILE, true, 4, Copy(COPY, Some("tool"), "/tool"));
    }
  }

  lemma {:induction false} FlatCommonBody()
    ensures BodyOk(TREE, EXTERNAL, FLAT_FILE, true, 3, [Other("common"), Other("labels")])
    ensures BodyRefs([Other("common"), Other("labels")]) == {}
  {
    var body := [Other("common"), Other("labels")];
    FlatNames();
    assert body[..1] == [Other("common")] && body[..1][..0] == [];
  }

  lemma {:induction false} FlatCommon()
    ensures ItemOk(TREE, KnownOf, EXTERNAL, FLAT_FILE, true, 3)
  {
    CommonInline();
    FlatCommonBody();
    assert FLAT_FILE.items[3] == Include(COMMON) && !StageInclude(TREE, FLAT_FILE.items[3]);
  }

  lemma {:induction false} FlatStages(k: nat)
    requires k == 0 || k == 2 || k == 5
    ensures ItemOk(TREE, KnownOf, EXTERNAL, FLAT_FILE, true, k)
  {
    FlatNames();
    UsesOk();
    NothingHidden(FLAT_FILE, true, k);
  }

  lemma {:induction false} FlatItems(k: nat)
    requires k < 6
    ensures ItemOk(TREE, KnownOf, EXTERNAL, FLAT_FILE, true, k)
  {
    if k == 1 || k == 4 {
      FlatText(k);
    } else if k == 3 {
      FlatCommon();
    } else {
      FlatStages(k);
    }
  }

  lemma {:induction false} NotOwned(ref: Ref, u: string)
    requires ref in [BASE, KIT] && u != "" && u[0] != 's'
    ensures !Owned(TREE, ref, u)
  {
    assert "slug1"[0] == 's' && "slug2"[0] == 's' && "slug7"[0] == 's';
    assert ("slug1" + "--")[0] == 's' && ("slug7" + "--")[0] == 's';
  }

  lemma {:induction false} FlatBrings(i: nat)
    requires i < 6 && Brings(TREE, FLAT_FILE.items[i])
    ensures i == 2 || i == 5
  {
    OnlyBrings(FLAT_FILE, FLAT_FILE.items[i]);
  }

  lemma {:induction false} FlatNamesOk()
    ensures RootNamesOk(TREE, EXTERNAL, FLAT_FILE)
  {
    assert "tool"[0] == 't' && "app"[0] == 'a' && |"app"| == 3 && |"alpine"| == 6;
    forall k: nat, u | NamesStage(FLAT_FILE, true, k, u) ensures u == "tool" || u == "app" {
    }
    forall k: nat, u, item | NamesStage(FLAT_FILE, true, k, u) && item in FLAT_FILE.items && Brings(TREE, item)
      ensures !Owned(TREE, RefOfItem(item).value, u)
    {
      OnlyBrings(FLAT_FILE, item);
      NotOwned(RefOfItem(item).value, u);
    }
  }

  lemma {:induction false} FlatOk()
    ensures FileOk(TREE, KnownOf, EXTERNAL, FLAT_FILE, true)
  {
    forall k | 0 <= k < 6 ensures ItemOk(TREE, KnownOf, EXTERNAL, FLAT_FILE, true, k) {
      FlatItems(k);
    }
    FlatNames();
    FlatNamesOk();
    TreeSlugsApart(FLAT_FILE);
    assert "tool"[0] == 't' && "app"[0] == 'a';
    assert OneUse(TREE, FLAT_FILE) by {
      forall i: nat | i < 6 && Brings(TREE, FLAT_FILE.items[i]) ensures i == 2 || i == 5 {
        FlatBrings(i);
      }
    }
  }

  lemma {:induction false} ToolsIncluded()
    ensures IncludedOk(TREE, TOOLS_FILE)
  {
    assert HasStage(TREE, TOOLS_FILE, 1) && !Inline(TREE, TOOLS_FILE.items[0]);
  }

  lemma {:induction false} TreeRootOk()
    ensures RootOk(TREE, KnownOf, EXTERNAL, ROOT_FILE)
  {
    RootIsFlat();
    OnlyTools();
    FlatOk();
    FlatNames();
    ToolsIncluded();
  }

  lemma {:induction false} TreeComplete()
    ensures AllPresent(TREE)
  {
    forall p, item | p in TREE.files && item in TREE.files[p].items && RefOfItem(item).Some?
      ensures RefOfItem(item).value.path in TREE.files
    {
      TreeRefs(p, item);
    }
  }

  /** The demands on a tree can be met. */
  lemma {:induction false} TreeIsTidy()
    ensures Tidy(TREE, "Dockerfile", KnownOf) && AllPresent(TREE)
  {
    TreeRootOk();
    TreeComplete();
    forall p | p in TREE.files && p != "Dockerfile" && Brought(TREE, "Dockerfile", p)
      ensures FileOk(TREE, KnownOf, KnownOf(p).ext, TREE.files[p], false) && NamesKnown(TREE, KnownOf, p)
    {
      UsedOk(p);
    }
  }

  // Names and depth

  lemma {:induction false} ItemNameShort(p: string, item: Item, isRoot: bool)
    requires p in TREE.files && item in TREE.files[p].items && StageName(isRoot, item).Some?
    ensures StageName(isRoot, item).value in ["tool", "app", "build", "test", "thin", "full", "bin"]
  {
  }

  lemma {:induction false} ShortOnes(n: string)
    requires n in ["tool", "app", "build", "test", "thin", "full", "bin"]
             || n in ["slug1", "slug2", "slug3", "slug4", "slug5", "slug6", "slug7", "slug8"]
    ensures Short(n, 5)
  {
  }

  lemma {:induction false} SlugIs(path: string)
    ensures SlugOfPath(path) in ["slug1", "slug2", "slug3", "slug4", "slug5", "slug6", "slug7", "slug8"]
  {
  }

  lemma {:induction false} TreeItemShort(p: string, item: Item, isRoot: bool)
    requires p in TREE.files && item in TREE.files[p].items
    ensures ItemShort(TREE, isRoot, item, 5)
  {
    if StageName(isRoot, item).Some? {
      ItemNameShort(p, item, isRoot);
      ShortOnes(StageName(isRoot, item).value);
    }
    if RefOfItem(item).Some? {
      SlugIs(RefOfItem(item).value.aliasBase);
      ShortOnes(AliasSlug(TREE, item));
    }
  }

  lemma {:induction false} TreeEndsNamed()
    ensures NamedEnds(TREE, "Dockerfile")
  {
    RootIsFlat();
    OnlyTools();
    FlatNames();
    assert EndsNamed(TREE, TOOLS_FILE, 1);
  }

  lemma {:induction false} TreeShortNames()
    ensures ShortNames(TREE, 5) && HexDigest(TREE.hash)
  {
    forall p | p in TREE.files ensures Short(TREE.slug(TREE.files[p].display), 5) {
      SlugIs(TREE.files[p].display);
      ShortOnes(TREE.slug(TREE.files[p].display));
    }
    forall p, item, isRoot | p in TREE.files && item in TREE.files[p].items ensures ItemShort(TREE, isRoot, item, 5) {
      TreeItemShort(p, item, isRoot);
    }
    assert NameChars("0");
  }

  function Rank(p: string): nat {
    if p == "Dockerfile" then 2 else if p == "base" || p == "common" then 1 else 0
  }

  lemma {:induction false} EdgesFall(p: string, q: string)
    requires Edge(TREE, p, q)
    ensures Rank(p) > Rank(q)
  {
    var item :| item in TREE.files[p].items && RefOfItem(item).Some? && RefOfItem(item).value.path == q;
  }

  lemma {:induction false} WalksEnd(ps: seq<string>)
    requires Walk(TREE, ps)
    ensures |ps| - 1 <= Rank(ps[0])
    decreases |ps|
  {
    if |ps| > 1 {
      assert Edge(TREE, ps[0], ps[1]);
      EdgesFall(ps[0], ps[1]);
      WalkTail(TREE, ps);
      WalksEnd(ps[1..]);
    }
  }

  lemma {:induction false} TreeNotTooDeep()
    ensures !TooDeep(TREE, "Dockerfile") && WalksWithin(TREE, "Dockerfile", 2)
  {
    forall ps | Walk(TREE, ps) && ps[0] == "Dockerfile" ensures |ps| - 1 <= 2 {
      WalksEnd(ps);
    }
  }

  lemma {:induction false} TreeIsPlain()
    ensures PlainTree(TREE, "Dockerfile", 5, 2)
  {
    TreeShortNames();
    TreeEndsNamed();
    TreeNotTooDeep();
  }

  // What the tree means

  function Alpine(texts: seq<string>): Image {
    Image("alpine", seq(|texts|, i requires 0 <= i < |texts| => Layer.Plain(texts[i])))
  }

  lemma {:induction false} AlpineMore(texts: seq<string>, text: string)
    ensures Image("alpine", Alpine(texts).layers + [Layer.Plain(text)]) == Alpine(texts + [text])
  {
  }

  /** A line of body text, read. */
  lemma {:induction false} LineRead(f: File, open: nat, n: nat, text: string, start: Progress, p: Progress,
                                    texts: seq<string>, fuel: nat)
    requires n < |f.items| && f.items[n] == Line(text) && fuel > 0
    requires Read(TREE, f, open, n, start, fuel) == Some(p) && p.img == Alpine(texts)
    ensures Read(TREE, f, open, n + 1, start, fuel) == Some(p.(img := Alpine(texts + [text])))
  {
    AlpineMore(texts, text);
    assert [Other(text)][..0] == [];
    assert Build(p.env, p.img, []) == p.img;
    assert Build(p.env, p.img, [Other(text)]) == Image("alpine", Alpine(texts).layers + [Layer.Plain(text)]);
  }

  /** A stage on the external image, read. */
  lemma {:induction false} StageRead(f: File, open: nat, n: nat, name: string, start: Progress, p: Progress,
                                     fuel: nat)
    requires n < |f.items| && f.items[n] == Item.Plain(From("alpine", Some(name))) && fuel > 0
    requires Read(TREE, f, open, n, start, fuel) == Some(p) && "alpine" !in Close(p)
    ensures Read(TREE, f, open, n + 1, start, fuel) == Some(Progress(Close(p), Some(name), Alpine([]), true))
  {
    assert Alpine([]) == Image("alpine", []);
  }

  lemma {:induction false} OsMeans()
    ensures Meaning(TREE, "os", Some("thin"), false, 1) == Some(Alpine(["thin"]))
  {
    var f := OS_FILE;
    assert Read(TREE, f, 0, 0, NOTHING, 1) == Some(NOTHING);
    StageRead(f, 0, 0, "thin", NOTHING, NOTHING, 1);
    var p := Progress(map[], Some("thin"), Alpine([]), true);
    LineRead(f, 0, 1, "thin", NOTHING, p, [], 1);
    assert [] + ["thin"] == ["thin"];
    var q := p.(img := Alpine(["thin"]));
    assert Read(TREE, f, 0, 3, NOTHING, 1)
           == Some(Progress(Close(q), Some("full"), Resolve(Close(q), "thin"), true));
    assert "thin" != "full" && "thin" != "";
  }

  lemma {:induction false} BaseMeans()
    ensures Meaning(TREE, "base", Some("build"), false, 2) == Some(Alpine(["thin", "build"]))
  {
    var f := BASE_FILE;
    OsMeans();
    assert Read(TREE, f, 0, 0, NOTHING, 2) == Some(NOTHING);
    var p := Progress(map[], Some("build"), Alpine(["thin"]), true);
    assert Read(TREE, f, 0, 1, NOTHING, 2) == Some(p);
    LineRead(f, 0, 1, "build", NOTHING, p, ["thin"], 2);
    assert ["thin"] + ["build"] == ["thin", "build"];
    var q := p.(img := Alpine(["thin", "build"]));
    assert Read(TREE, f, 0, 3, NOTHING, 2)
           == Some(Progress(Close(q), Some("test"), Resolve(Close(q), "build"), true));
    assert "build" != "test" && "build" != "";
  }

  lemma {:induction false} KitMeans()
    ensures Meaning(TREE, "kit", None, false, 2) == Some(Alpine(["kit"]))
  {
    var f := KIT_FILE;
    assert Read(TREE, f, 0, 0, NOTHING, 2) == Some(NOTHING);
    StageRead(f, 0, 0, "bin", NOTHING, NOTHING, 2);
    LineRead(f, 0, 1, "kit", NOTHING, Progress(map[], Some("bin"), Alpine([]), true), [], 2);
    assert [] + ["kit"] == ["kit"];
  }

  lemma {:induction false} ToolsRead()
    ensures Read(TREE, TOOLS_FILE, 1, 2, NOTHING, 2) == Some(Progress(map[], Some("tool"), Alpine(["tool"]), true))
  {
    var f := TOOLS_FILE;
    assert Read(TREE, f, 1, 0, NOTHING, 2) == Some(NOTHING);
    StageRead(f, 1, 0, "tool", NOTHING, NOTHING, 2);
    LineRead(f, 1, 1, "tool", NOTHING, Progress(map[], Some("tool"), Alpine([]), true), [], 2);
    assert [] + ["tool"] == ["tool"];
  }

  lemma {:induction false} CommonRead(p: Progress, texts: seq<string>)
    requires p.img == Alpine(texts)
    ensures Read(TREE, COMMON_FILE, 1, 2, p, 2) == Some(p.(img := Alpine(texts + ["common", "labels"])))
  {
    assert Read(TREE, COMMON_FILE, 1, 0, p, 2) == Some(p);
    LineRead(COMMON_FILE, 1, 0, "common", p, p, texts, 2);
    var q := p.(img := Alpine(texts + ["common"]));
    assert Read(TREE, LABELS_FILE, 0, 0, q, 1) == Some(q);
    LineRead(LABELS_FILE, 0, 0, "labels", q, q, texts + ["common"], 1);
    assert texts + ["common"] + ["labels"] == texts + ["common", "labels"];
    assert Read(TREE, COMMON_FILE, 1, 2, p, 2) == Read(TREE, LABELS_FILE, 0, 1, q, 1);
  }

  const TEXTS := ["thin", "build", "common", "labels"]

  /** The image of the root: the stage `build` of the base, which stands on the early stage `thin`,
      then the INCLUDEd text, and what is copied from the INCLUDEd stage and from the kit. */
  function Expected(): Image {
    Image("alpine", Alpine(TEXTS).layers + [Copied(COPY, Alpine(["tool"]), "/tool")]
      + [Copied(COPY, Alpine(["kit"]), "/kit")])
  }

  lemma {:induction false} RootTools()
    ensures Read(TREE, ROOT_FILE, 2, 1, NOTHING, 3) == Some(Progress(map[], Some("tool"), Alpine(["tool"]), true))
  {
    assert Read(TREE, ROOT_FILE, 2, 0, NOTHING, 3) == Some(NOTHING);
    ToolsRead();
  }

  lemma {:induction false} RootBase()
    ensures Read(TREE, ROOT_FILE, 2, 2, NOTHING, 3)
            == Some(Progress(map["tool" := Alpine(["tool"])], Some("app"), Alpine(["thin", "build"]), true))
  {
    var p := Progress(map[], Some("tool"), Alpine(["tool"]), true);
    RootTools();
    BaseMeans();
    assert Close(p) == map["tool" := Alpine(["tool"])];
    assert ROOT_FILE.items[1] == FROM_BASE;
  }

  lemma {:induction false} ReadInclude(w: World, f: File, g: File, open: nat, n: nat, start: Progress, p: Progress,
                                       fuel: nat, less: nat)
    requires n < |f.items| && f.items[n].Include? && f.items[n].ref.path in w.files && w.files[f.items[n].ref.path] == g
    requires less > 0 && fuel == less + 1 && Read(w, f, open, n, start, fuel) == Some(p)
    ensures Read(w, f, open, n + 1, start, fuel) == Read(w, g, OneLess(open), |g.items|, p, less)
  {
  }

  /** The root up to its two copies, read. */
  lemma {:induction false} RootStart()
    ensures Read(TREE, ROOT_FILE, 2, 3, NOTHING, 3)
            == Some(Progress(map["tool" := Alpine(["tool"])], Some("app"), Alpine(TEXTS), true))
  {
    var p := Progress(map["tool" := Alpine(["tool"])], Some("app"), Alpine(["thin", "build"]), true);
    RootBase();
    CommonRead(p, ["thin", "build"]);
    assert ["thin", "build"] + ["common", "labels"] == TEXTS;
    assert ROOT_FILE.items[2] == Include(COMMON) && |COMMON_FILE.items| == 2;
    ReadInclude(TREE, ROOT_FILE, COMMON_FILE, 2, 2, NOTHING, p, 3, 2);
  }

  lemma {:induction false} RootMeans()
    ensures Meaning(TREE, "Dockerfile", None, true, 3) == Some(Expected())
  {
    var f, copy := ROOT_FILE, Copy(COPY, Some("tool"), "/tool");
    RootStart();
    KitMeans();
    var p := Progress(map["tool" := Alpine(["tool"])], Some("app"), Alpine(TEXTS), true);
    assert [copy][..0] == [];
    var q := p.(img := Image("alpine", Alpine(TEXTS).layers + [Copied(COPY, Alpine(["tool"]), "/tool")]));
    assert Build(p.env, p.img, [copy]) == q.img by {
      assert Build(p.env, p.img, []) == p.img;
    }
    assert Read(TREE, f, 2, 4, NOTHING, 3) == Some(q);
    assert Read(TREE, f, 2, 5, NOTHING, 3) == Some(q.(img := Expected()));
  }

  /** The tree loads, and the demands on its gathered lines are met too. */
  lemma {:induction false} TreeIsSafe()
    ensures Load(TREE, "Dockerfile", ROOT_CONTEXT).Ok? && LinesSafe(TREE, "Dockerfile") && !TooDeep(TREE, "Dockerfile")
  {
    TreeIsTidy();
    TreeIsPlain();
    TreeNotTooDeep();
    PlainTreeIsWritten(TREE, "Dockerfile", KnownOf, 5, 2);
    PlainTreeSafe(TREE, "Dockerfile", KnownOf, 5, 2);
  }

  /** The compiler writes the tree, and what it writes builds this image. */
  lemma {:induction false} TreeIsWritten()
    ensures var r := Load(TREE, "Dockerfile", ROOT_CONTEXT);
            r.Ok? && Stages(r.value) != [] && LastImage(map[], Stages(r.value)) == Expected()
  {
    TreeIsTidy();
    TreeIsPlain();
    TreeNotTooDeep();
    PlainTreeIsWritten(TREE, "Dockerfile", KnownOf, 5, 2);
    RootMeans();
  }
}
