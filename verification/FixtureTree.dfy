/** The include tree of the repository's fixtures fromWithTarget and include: a file INCLUDEs
    ubuntu.dockerfile below the root and goes on with its stage. The texts of commands are abridged;
    both roots meet all demands, and the theorem says what is written for them. */
module FixtureTree {
  import opened Dockerfile
  import opened ScopeStages
  import opened SanitizeStageNames
  import opened LoadDockerfile
  import opened IncludeGuards
  import opened Interpreter
  import opened TidyTrees
  import opened LineMeaning
  import opened TidyLoads
  import opened PlainTrees

  const IMAGE := "ubuntu:$UBUNTU_VERSION"

  const UBUNTU := "inc/ubuntu.dockerfile"
  const DOWNLOADER := "inc/downloader.dockerfile"
  const NODE := "inc/node.dockerfile"
  const FROM_ROOT := "fromWithTarget.dockerfile"
  const INCLUDE_ROOT := "include.dockerfile"

  function Line(text: string): Item {
    Item.Plain(Other(text))
  }

  const ARG_LINE := Item.Plain(Arg(["UBUNTU_VERSION=22.04"]))
  const NODE_ARG := Item.Plain(Arg(["NODE_VERSION=20.3.0"]))
  const PACKAGE_ARG := Item.Plain(Arg(["NODE_PACKAGE=node-v$NODE_VERSION-linux-x64"]))
  const SYNTAX := Item.Plain(Comment("# syntax = devthefuture/dockerfile-x"))
  const RENOVATE := Item.Plain(Comment("# renovate: datasource=node"))
  const FROM_IMAGE := Item.Plain(From(IMAGE, None))
  const INCLUDE_UBUNTU := Include(Ref(UBUNTU, UBUNTU, "ubuntu.dockerfile"))
  const INCLUDE_DOWNLOADER := Include(Ref(DOWNLOADER, DOWNLOADER, "inc/downloader.dockerfile"))
  const FROM_DOWNLOADER := FromFile(Ref(DOWNLOADER, DOWNLOADER, "./downloader.dockerfile"), None, Some("build-node"))
  const FROM_UBUNTU := FromFile(Ref(UBUNTU, UBUNTU, "./ubuntu.dockerfile"), None, None)
  const FROM_NODE := FromFile(Ref(NODE, NODE, "./inc/node.dockerfile"), Some("build-node"), None)
  const COPY_NODE := Item.Plain(Copy(COPY, Some("build-node"), "/opt/node /opt/node"))

  const UBUNTU_FILE :=
    File(UBUNTU, [ARG_LINE, FROM_IMAGE, Line("useradd"), Line("HOME"), Line("chmod"), Line("mkdir")])
  const DOWNLOADER_FILE := File(DOWNLOADER, [INCLUDE_UBUNTU, Line("apt-get")])
  const NODE_FILE :=
    File(NODE, [FROM_DOWNLOADER, RENOVATE, NODE_ARG, PACKAGE_ARG, Line("curl"), FROM_UBUNTU, COPY_NODE,
                Line("NODE_PATH"), Line("PATH"), Line("yarn"), Line("mkdir"), Line("chown"), Line("CACHE"),
                Line("WORKDIR"), Line("USER")])
  const FROM_FILE := File(FROM_ROOT, [SYNTAX, FROM_NODE, Line("yarn")])
  const INCLUDE_FILE := File(INCLUDE_ROOT, [SYNTAX, INCLUDE_DOWNLOADER])
  const FLAT_FILE := File(INCLUDE_ROOT, [SYNTAX, INCLUDE_UBUNTU, Line("apt-get")])

  function SlugOfPath(path: string): string {
    if path == UBUNTU then "ubuntu9e4275"
    else if path == DOWNLOADER then "downlo550515"
    else if path == NODE then "nodee5203c"
    else "slug"
  }

  const TREE := World(
    map[UBUNTU := UBUNTU_FILE, DOWNLOADER := DOWNLOADER_FILE, NODE := NODE_FILE,
        FROM_ROOT := FROM_FILE, INCLUDE_ROOT := INCLUDE_FILE],
    SlugOfPath, (s: string) => "0", 32)

  const EXTERNAL := {IMAGE}

  function KnownOf(path: string): Outline {
    if path == UBUNTU then Outline(EXTERNAL, {"final-stage"})
    else if path == DOWNLOADER then Outline(EXTERNAL, {"ubuntu9e4275", "final-stage"})
    else if path == NODE then Outline(EXTERNAL, {"build-node", "final-stage"})
    else Outline(EXTERNAL, {})
  }

  lemma {:induction false} TreeFiles()
    ensures UBUNTU != DOWNLOADER && UBUNTU != NODE && DOWNLOADER != NODE && FROM_ROOT != INCLUDE_ROOT
    ensures FROM_ROOT !in [UBUNTU, DOWNLOADER, NODE] && INCLUDE_ROOT !in [UBUNTU, DOWNLOADER, NODE]
    ensures TREE.files[UBUNTU] == UBUNTU_FILE && TREE.files[DOWNLOADER] == DOWNLOADER_FILE
    ensures TREE.files[NODE] == NODE_FILE && TREE.files[FROM_ROOT] == FROM_FILE
    ensures TREE.files[INCLUDE_ROOT] == INCLUDE_FILE
    ensures TREE.files.Keys == {UBUNTU, DOWNLOADER, NODE, FROM_ROOT, INCLUDE_ROOT}
  {
    assert UBUNTU[4] == 'u' && DOWNLOADER[4] == 'd' && NODE[4] == 'n' && FROM_ROOT[0] == 'f';
    assert UBUNTU[0] == 'i' && DOWNLOADER[0] == 'i' && NODE[0] == 'i';
    assert INCLUDE_ROOT[4] == 'u' && INCLUDE_ROOT[3] == 'l';
    assert UBUNTU[3] == '/';
  }

  // What brings in stages

  lemma {:induction false} Includes()
    ensures StageInclude(TREE, INCLUDE_UBUNTU) && StageInclude(TREE, INCLUDE_DOWNLOADER)
  {
    TreeFiles();
    assert !InlineTo(TREE, UBUNTU_FILE.items[1], 31) && !Snippet(TREE, UBUNTU_FILE, 31);
    assert !InlineTo(TREE, UBUNTU_FILE.items[1], 30) && !Snippet(TREE, UBUNTU_FILE, 30);
    assert !InlineTo(TREE, INCLUDE_UBUNTU, 31);
    assert !InlineTo(TREE, DOWNLOADER_FILE.items[0], 31);
  }

  const FILES := [UBUNTU_FILE, DOWNLOADER_FILE, NODE_FILE, FROM_FILE, FLAT_FILE]

  lemma {:induction false} Bringers(f: File, item: Item)
    requires f in FILES && item in f.items && RefOfItem(item).Some?
    ensures f == DOWNLOADER_FILE ==> item == INCLUDE_UBUNTU
    ensures f == NODE_FILE ==> item == FROM_DOWNLOADER || item == FROM_UBUNTU
    ensures f == FROM_FILE ==> item == FROM_NODE
    ensures f == FLAT_FILE ==> item == INCLUDE_UBUNTU
    ensures f != UBUNTU_FILE
  {
  }

  lemma {:induction false} SlugOfBringer(f: File, item: Item)
    requires f in FILES && item in f.items && RefOfItem(item).Some?
    ensures RefOfItem(item).value.path in TREE.files
    ensures AliasSlug(TREE, item) == SlugOfPath(RefOfItem(item).value.path)
    ensures TREE.files[RefOfItem(item).value.path].display == RefOfItem(item).value.path
  {
    TreeFiles();
    Bringers(f, item);
  }

  lemma {:induction false} NearSlugs(f: File, p: string, t: string)
    requires f in FILES && NearSlug(TREE, f, p, t)
    ensures f != UBUNTU_FILE && t == SlugOfPath(p)
    ensures f == DOWNLOADER_FILE || f == FLAT_FILE ==> p == UBUNTU
    ensures f == NODE_FILE ==> p == UBUNTU || p == DOWNLOADER
    ensures f == FROM_FILE ==> p == NODE
  {
    var item := NearSlugOf(TREE, f, p, t);
    Bringers(f, item);
    SlugOfBringer(f, item);
  }

  lemma {:induction false} SlugLetters(p: string)
    requires p in [UBUNTU, DOWNLOADER, NODE]
    ensures SlugOfPath(p) != "" && !(SlugOfPath(p) <= IMAGE)
    ensures SlugOfPath(p)[0] == if p == UBUNTU then 'u' else if p == DOWNLOADER then 'd' else 'n'
  {
    TreeFiles();
    assert "ubuntu9e4275"[6] == '9' && IMAGE[6] == ':' && IMAGE[0] == 'u';
    assert "downlo550515"[0] == 'd' && "nodee5203c"[0] == 'n' && "ubuntu9e4275"[0] == 'u';
  }

  lemma {:induction false} TreeSlugsApart(f: File)
    requires f in FILES
    ensures SlugsApart(TREE, EXTERNAL, f)
  {
    TreeFiles();
    forall p, q, t, u | NearSlug(TREE, f, p, t) && NearSlug(TREE, f, q, u) && t <= u ensures p == q && t == u {
      NearSlugs(f, p, t);
      NearSlugs(f, q, u);
      SlugLetters(p);
      SlugLetters(q);
    }
    forall p, t, e | NearSlug(TREE, f, p, t) && e in EXTERNAL ensures !(t <= e) {
      NearSlugs(f, p, t);
      SlugLetters(p);
    }
  }

  lemma {:induction false} NameLetters(u: string)
    requires u == "build-node" || u == "final-stage"
    ensures u != "" && (u[0] == 'b' || u[0] == 'f') && !(u <= IMAGE) && u != IMAGE
  {
    assert "build-node"[0] == 'b' && "final-stage"[0] == 'f' && IMAGE[0] == 'u';
  }

  // The names of a file

  lemma {:induction false} StageNamesOf(f: File, isRoot: bool, k: nat, u: string)
    requires f in FILES && NamesStage(f, isRoot, k, u)
    ensures u == "build-node" || u == "final-stage"
  {
  }

  lemma {:induction false} SlugsElsewhere(f: File, p: string, t: string)
    requires f in [UBUNTU_FILE, DOWNLOADER_FILE, NODE_FILE] && NearSlug(TREE, f, p, t)
    ensures var prefix := TREE.slug(f.display); !(prefix <= t) && !(t <= prefix)
    ensures t != "" && t[0] != 'b' && t[0] != 'f'
  {
    NearSlugs(f, p, t);
    TreeFiles();
    SlugLetters(p);
    SlugLetters(f.display);
  }

  lemma {:induction false} NamesOk(f: File)
    requires f in [UBUNTU_FILE, DOWNLOADER_FILE, NODE_FILE]
    requires forall b :: OwnBase(f, b) ==> b == IMAGE
    requires IMAGE !in OwnNames(TREE, f, false, |f.items|)
    ensures IncludedNamesOk(TREE, EXTERNAL, f)
  {
    SlugLetters(f.display);
    forall p, t | NearSlug(TREE, f, p, t)
      ensures var prefix := TREE.slug(f.display); !(prefix <= t) && !(t <= prefix)
      ensures t != "" && t[0] != 'b' && t[0] != 'f'
    {
      SlugsElsewhere(f, p, t);
    }
    forall k: nat, u | NamesStage(f, false, k, u) ensures u != "" && (u[0] == 'b' || u[0] == 'f') && !(u <= IMAGE) {
      StageNamesOf(f, false, k, u);
      NameLetters(u);
    }
  }

  /** A line of body text. */
  lemma {:induction false} BodyLineOk(f: File, isRoot: bool, k: nat, i: Instr)
    requires k < |f.items| && f.items[k] == Item.Plain(i) && !i.From? && RefOf(i).None?
    requires HasStage(TREE, f, k) || NoOp(i)
    ensures ItemOk(TREE, KnownOf, EXTERNAL, f, isRoot, k)
  {
    assert [i][..0] == [] && BodyRefs([i]) == {};
    assert NoOp(i) ==> Effective([i]) == [];
  }

  /** Lines of body text name and hide nothing. */
  lemma {:induction false} LinesNameNothing(f: File, isRoot: bool, n: nat, m: nat)
    requires n <= m <= |f.items| && forall k :: n <= k < m ==> f.items[k].Plain? && !f.items[k].instr.From?
    ensures OwnNames(TREE, f, isRoot, m) == OwnNames(TREE, f, isRoot, n)
    ensures HasStage(TREE, f, m) == HasStage(TREE, f, n)
    ensures Finished(TREE, f, isRoot, m) == Finished(TREE, f, isRoot, n)
    ensures Hidden(TREE, KnownOf, f, isRoot, m) == Hidden(TREE, KnownOf, f, isRoot, n)
  {
    if n < m {
      LinesNameNothing(f, isRoot, n, m - 1);
      NoStageStarts(TREE, f, isRoot, m - 1);
    }
  }

  /** A stage that the file starts itself, where nothing is hidden. */
  lemma {:induction false} StageNamed(f: File, n: nat, own: seq<string>, name: string)
    requires n < |f.items| && StageName(false, f.items[n]) == Some(name) && !f.items[n].Include?
    requires OwnNames(TREE, f, false, n) == own && Hidden(TREE, KnownOf, f, false, n) == {}
    ensures OwnNames(TREE, f, false, n + 1) == own + [name] && HasStage(TREE, f, n + 1)
    ensures Finished(TREE, f, false, n + 1) == NameSet(own) && Hidden(TREE, KnownOf, f, false, n + 1) == {}
  {
  }

  // ubuntu.dockerfile

  lemma {:induction false} UbuntuLine(k: nat) returns (i: Instr)
    requires k < 6 && k != 1
    ensures UBUNTU_FILE.items[k] == Item.Plain(i) && !i.From? && RefOf(i).None? && (k == 0 ==> NoOp(i))
  {
    i := UBUNTU_FILE.items[k].instr;
  }

  lemma {:induction false} UbuntuFirst(n: nat)
    requires n <= 1
    ensures OwnNames(TREE, UBUNTU_FILE, false, n) == [] && Hidden(TREE, KnownOf, UBUNTU_FILE, false, n) == {}
  {
    if n == 1 {
      var i := UbuntuLine(0);
      LinesNameNothing(UBUNTU_FILE, false, 0, 1);
    }
  }

  lemma {:induction false} UbuntuNames(n: nat)
    requires 2 <= n <= 6
    ensures OwnNames(TREE, UBUNTU_FILE, false, n) == ["final-stage"] && HasStage(TREE, UBUNTU_FILE, n)
    ensures Hidden(TREE, KnownOf, UBUNTU_FILE, false, n) == {}
  {
    UbuntuFirst(1);
    forall k | 2 <= k < n ensures UBUNTU_FILE.items[k].Plain? && !UBUNTU_FILE.items[k].instr.From? {
      var i := UbuntuLine(k);
    }
    StageNamed(UBUNTU_FILE, 1, [], "final-stage");
    LinesNameNothing(UBUNTU_FILE, false, 2, n);
  }

  lemma {:induction false} UbuntuItem(k: nat)
    requires k < 6
    ensures ItemOk(TREE, KnownOf, EXTERNAL, UBUNTU_FILE, false, k)
  {
    if k == 1 {
      UbuntuFirst(1);
      assert IMAGE[0] == 'u';
    } else {
      if k > 1 {
        UbuntuNames(k);
      }
      var i := UbuntuLine(k);
      BodyLineOk(UBUNTU_FILE, false, k, i);
    }
  }

  lemma {:induction false} UbuntuOneUse()
    ensures OneUse(TREE, UBUNTU_FILE)
  {
    forall i | 0 <= i < 6 ensures !Brings(TREE, UBUNTU_FILE.items[i]) {
      if Brings(TREE, UBUNTU_FILE.items[i]) {
        Bringers(UBUNTU_FILE, UBUNTU_FILE.items[i]);
      }
    }
  }

  lemma {:induction false} UbuntuNamesOk()
    ensures IncludedNamesOk(TREE, EXTERNAL, UBUNTU_FILE) && Distinct(OwnNames(TREE, UBUNTU_FILE, false, 6))
  {
    UbuntuNames(6);
    NameLetters("final-stage");
    NamesOk(UBUNTU_FILE);
  }

  lemma {:induction false} UbuntuOk()
    ensures FileOk(TREE, KnownOf, EXTERNAL, UBUNTU_FILE, false)
  {
    UbuntuNamesOk();
    TreeSlugsApart(UBUNTU_FILE);
    UbuntuOneUse();
    forall k | 0 <= k < 6 ensures ItemOk(TREE, KnownOf, EXTERNAL, UBUNTU_FILE, false, k) {
      UbuntuItem(k);
    }
  }

  lemma {:induction false} OneNameOrdered(u: string)
    ensures OrderedFor([u], u) && Distinct([u])
  {
    assert [u][..0] == [] && FirstStart([], u) == None && u <= u;
  }

  lemma {:induction false} UbuntuAsChild(isRoot: bool, text: string)
    ensures ChildOk(TREE, KnownOf, EXTERNAL, isRoot, Ref(UBUNTU, UBUNTU, text), None)
  {
    TreeFiles();
    UbuntuNames(6);
    OneNameOrdered("final-stage");
  }

  // downloader.dockerfile

  lemma {:induction false} DownloaderNames()
    ensures OwnNames(TREE, DOWNLOADER_FILE, false, 2) == ["ubuntu9e4275"]
    ensures HasStage(TREE, DOWNLOADER_FILE, 1) && HasStage(TREE, DOWNLOADER_FILE, 2)
    ensures Hidden(TREE, KnownOf, DOWNLOADER_FILE, false, 2) == {"ubuntu9e4275", "final-stage"}
  {
    var f := DOWNLOADER_FILE;
    Includes();
    assert OwnNames(TREE, f, false, 0) == [] && OwnNames(TREE, f, false, 1) == ["ubuntu9e4275"];
    assert Hidden(TREE, KnownOf, f, false, 0) == {};
    assert Hidden(TREE, KnownOf, f, false, 1) == {} + {"ubuntu9e4275"} + {"final-stage"};
    assert HasStage(TREE, f, 1);
  }

  lemma {:induction false} DownloaderNamesOk()
    ensures IncludedNamesOk(TREE, EXTERNAL, DOWNLOADER_FILE) && Distinct(OwnNames(TREE, DOWNLOADER_FILE, false, 2))
  {
    DownloaderNames();
    assert IMAGE[6] == ':' && "ubuntu9e4275"[6] == '9';
    OneNameOrdered("ubuntu9e4275");
    NamesOk(DOWNLOADER_FILE);
  }

  lemma {:induction false} DownloaderItems()
    ensures ItemOk(TREE, KnownOf, EXTERNAL, DOWNLOADER_FILE, false, 0)
    ensures ItemOk(TREE, KnownOf, EXTERNAL, DOWNLOADER_FILE, false, 1)
  {
    Includes();
    DownloaderNames();
    UbuntuAsChild(false, "ubuntu.dockerfile");
    BodyLineOk(DOWNLOADER_FILE, false, 1, DOWNLOADER_FILE.items[1].instr);
  }

  lemma {:induction false} DownloaderOneUse()
    ensures OneUse(TREE, DOWNLOADER_FILE)
  {
    assert !Brings(TREE, DOWNLOADER_FILE.items[1]);
  }

  /** The first instruction INCLUDEs ubuntu.dockerfile, the second goes on with its stage. */
  lemma {:induction false} DownloaderOk()
    ensures FileOk(TREE, KnownOf, EXTERNAL, DOWNLOADER_FILE, false)
  {
    DownloaderNamesOk();
    TreeSlugsApart(DOWNLOADER_FILE);
    DownloaderOneUse();
    DownloaderItems();
  }

  // node.dockerfile

  lemma {:induction false} NodeLine(k: nat) returns (i: Instr)
    requires 0 < k < 15 && k != 5
    ensures NODE_FILE.items[k] == Item.Plain(i) && !i.From? && (k != 6 ==> RefOf(i).None?)
  {
    i := NODE_FILE.items[k].instr;
  }

  lemma {:induction false} NodeLines(n: nat, m: nat)
    requires 0 < n <= m <= 5 || 6 <= n <= m <= 15
    ensures forall k :: n <= k < m ==> NODE_FILE.items[k].Plain? && !NODE_FILE.items[k].instr.From?
  {
    forall k | n <= k < m ensures NODE_FILE.items[k].Plain? && !NODE_FILE.items[k].instr.From? {
      var i := NodeLine(k);
    }
  }

  lemma {:induction false} NodeFirst(n: nat)
    requires n <= 5
    ensures OwnNames(TREE, NODE_FILE, false, n) == if n == 0 then [] else ["build-node"]
    ensures n > 0 ==> HasStage(TREE, NODE_FILE, n)
    ensures Hidden(TREE, KnownOf, NODE_FILE, false, n) == {}
  {
    if n > 0 {
      assert NODE_FILE.items[0] == FROM_DOWNLOADER;
      StageNamed(NODE_FILE, 0, [], "build-node");
      NodeLines(1, n);
      LinesNameNothing(NODE_FILE, false, 1, n);
    }
  }

  lemma {:induction false} NodeRest(n: nat)
    requires 6 <= n <= 15
    ensures OwnNames(TREE, NODE_FILE, false, n) == ["build-node", "final-stage"]
    ensures HasStage(TREE, NODE_FILE, n) && Finished(TREE, NODE_FILE, false, n) == {"build-node"}
    ensures Hidden(TREE, KnownOf, NODE_FILE, false, n) == {}
  {
    NodeFirst(5);
    assert NODE_FILE.items[5] == FROM_UBUNTU && NameSet(["build-node"]) == {"build-node"};
    StageNamed(NODE_FILE, 5, ["build-node"], "final-stage");
    NodeLines(6, n);
    LinesNameNothing(NODE_FILE, false, 6, n);
  }

  lemma {:induction false} DownloaderAsChild(isRoot: bool, text: string)
    ensures ChildOk(TREE, KnownOf, EXTERNAL, isRoot, Ref(DOWNLOADER, DOWNLOADER, text), None)
  {
    TreeFiles();
    DownloaderNames();
    OneNameOrdered("ubuntu9e4275");
  }

  lemma {:induction false} NodeUses(k: nat)
    requires k == 0 || k == 5
    ensures ItemOk(TREE, KnownOf, EXTERNAL, NODE_FILE, false, k)
  {
    DownloaderAsChild(false, "./downloader.dockerfile");
    UbuntuAsChild(false, "./ubuntu.dockerfile");
    NodeFirst(k);
  }

  lemma {:induction false} NodeCopies()
    ensures ItemOk(TREE, KnownOf, EXTERNAL, NODE_FILE, false, 6)
  {
    var copy := COPY_NODE.instr;
    NodeRest(6);
    assert [copy][..0] == [] && BodyRefs([copy]) == {"build-node"};
  }

  lemma {:induction false} NodeHasStage(k: nat)
    requires 0 < k <= 15
    ensures HasStage(TREE, NODE_FILE, k)
  {
    if k <= 5 {
      NodeFirst(k);
    } else {
      NodeRest(k);
    }
  }

  lemma {:induction false} NodeItem(k: nat)
    requires k < 15
    ensures ItemOk(TREE, KnownOf, EXTERNAL, NODE_FILE, false, k)
  {
    if k == 0 || k == 5 {
      NodeUses(k);
    } else if k == 6 {
      NodeCopies();
    } else {
      var i := NodeLine(k);
      NodeHasStage(k);
      BodyLineOk(NODE_FILE, false, k, i);
    }
  }

  lemma {:induction false} NodeBrings(i: nat)
    requires i < 15 && Brings(TREE, NODE_FILE.items[i])
    ensures i == 0 || i == 5
  {
    assert NODE_FILE.items[i] in NODE_FILE.items;
    Bringers(NODE_FILE, NODE_FILE.items[i]);
  }

  lemma {:induction false} NodeOneUse()
    ensures OneUse(TREE, NODE_FILE)
  {
    TreeFiles();
    forall i: nat | i < 15 && Brings(TREE, NODE_FILE.items[i]) ensures i == 0 || i == 5 {
      NodeBrings(i);
    }
  }

  lemma {:induction false} NodeNamesOk()
    ensures IncludedNamesOk(TREE, EXTERNAL, NODE_FILE) && Distinct(OwnNames(TREE, NODE_FILE, false, 15))
  {
    NodeRest(15);
    NameLetters("build-node");
    NameLetters("final-stage");
    assert "build-node"[0] == 'b' && "final-stage"[0] == 'f';
    NamesOk(NODE_FILE);
  }

  lemma {:induction false} NodeOk()
    ensures FileOk(TREE, KnownOf, EXTERNAL, NODE_FILE, false)
  {
    NodeNamesOk();
    TreeSlugsApart(NODE_FILE);
    NodeOneUse();
    forall k | 0 <= k < 15 ensures ItemOk(TREE, KnownOf, EXTERNAL, NODE_FILE, false, k) {
      NodeItem(k);
    }
  }

  // The roots

  lemma {:induction false} FromFlat()
    ensures FlatFile(TREE, FROM_FILE) == FROM_FILE
  {
    var f := FROM_FILE;
    assert Flat(TREE, f, 0) == [] && Flat(TREE, f, 1) == [SYNTAX] && Flat(TREE, f, 2) == [SYNTAX, FROM_NODE];
  }

  lemma {:induction false} FromNames()
    ensures OwnNames(TREE, FROM_FILE, true, 3) == ["final-stage"] && HasStage(TREE, FROM_FILE, 2)
    ensures HasStage(TREE, FROM_FILE, 3) && Hidden(TREE, KnownOf, FROM_FILE, true, 1) == {}
    ensures EndsNamed(TREE, FROM_FILE, 3)
  {
    var f := FROM_FILE;
    assert OwnNames(TREE, f, true, 0) == [] && OwnNames(TREE, f, true, 1) == [];
    assert OwnNames(TREE, f, true, 2) == ["final-stage"] && HasStage(TREE, f, 2) && EndsNamed(TREE, f, 2);
  }

  lemma {:induction false} RootNames(f: File)
    requires f == FROM_FILE || f == FLAT_FILE
    ensures RootNamesOk(TREE, EXTERNAL, f)
  {
    TreeFiles();
    forall k: nat, u | NamesStage(f, true, k, u) ensures u !in EXTERNAL {
      StageNamesOf(f, true, k, u);
      NameLetters(u);
    }
    forall k: nat, u, item | NamesStage(f, true, k, u) && item in f.items && Brings(TREE, item)
      ensures !Owned(TREE, RefOfItem(item).value, u)
    {
      StageNamesOf(f, true, k, u);
      NameLetters(u);
      Bringers(f, item);
      SlugLetters(RefOfItem(item).value.path);
      assert (SlugOfPath(RefOfItem(item).value.path) + "--")[0] == SlugOfPath(RefOfItem(item).value.path)[0];
    }
  }

  lemma {:induction false} FromItems()
    ensures forall k :: 0 <= k < 3 ==> ItemOk(TREE, KnownOf, EXTERNAL, FROM_FILE, true, k)
  {
    TreeFiles();
    FromNames();
    NodeRest(15);
    BodyLineOk(FROM_FILE, true, 0, FROM_FILE.items[0].instr);
    assert ItemOk(TREE, KnownOf, EXTERNAL, FROM_FILE, true, 1);
    BodyLineOk(FROM_FILE, true, 2, FROM_FILE.items[2].instr);
  }

  lemma {:induction false} FromOk()
    ensures FileOk(TREE, KnownOf, EXTERNAL, FROM_FILE, true)
  {
    FromNames();
    RootNames(FROM_FILE);
    TreeSlugsApart(FROM_FILE);
    OneNameOrdered("final-stage");
    FromItems();
  }

  lemma {:induction false} FromRootOk()
    ensures RootOk(TREE, KnownOf, EXTERNAL, FROM_FILE)
  {
    FromFlat();
    FromNames();
    FromOk();
  }

  lemma {:induction false} IncludeFlat()
    ensures FlatFile(TREE, INCLUDE_FILE) == FLAT_FILE
  {
    var f := INCLUDE_FILE;
    TreeFiles();
    Includes();
    assert Flat(TREE, f, 0) == [] && Flat(TREE, f, 1) == [SYNTAX];
    assert Flat(TREE, f, 2) == [SYNTAX] + DOWNLOADER_FILE.items;
  }

  lemma {:induction false} FlatNames()
    ensures OwnNames(TREE, FLAT_FILE, true, 3) == ["ubuntu9e4275"] && HasStage(TREE, FLAT_FILE, 2)
    ensures HasStage(TREE, FLAT_FILE, 3) && Hidden(TREE, KnownOf, FLAT_FILE, true, 1) == {}
    ensures EndsNamed(TREE, FLAT_FILE, 3)
  {
    var f := FLAT_FILE;
    Includes();
    assert OwnNames(TREE, f, true, 0) == [] && OwnNames(TREE, f, true, 1) == [];
    assert OwnNames(TREE, f, true, 2) == ["ubuntu9e4275"] && HasStage(TREE, f, 2) && EndsNamed(TREE, f, 2);
  }

  lemma {:induction false} FlatInclude()
    ensures ItemOk(TREE, KnownOf, EXTERNAL, FLAT_FILE, true, 1)
  {
    Includes();
    FlatNames();
    UbuntuAsChild(true, "ubuntu.dockerfile");
    assert FLAT_FILE.items[1] == INCLUDE_UBUNTU;
  }

  lemma {:induction false} FlatItems()
    ensures forall k :: 0 <= k < 3 ==> ItemOk(TREE, KnownOf, EXTERNAL, FLAT_FILE, true, k)
  {
    FlatInclude();
    FlatNames();
    assert FLAT_FILE.items[0] == SYNTAX && FLAT_FILE.items[2] == Line("apt-get");
    BodyLineOk(FLAT_FILE, true, 0, SYNTAX.instr);
    BodyLineOk(FLAT_FILE, true, 2, Other("apt-get"));
  }

  lemma {:induction false} FlatOneUse()
    ensures OneUse(TREE, FLAT_FILE)
  {
    assert !Brings(TREE, FLAT_FILE.items[0]) && !Brings(TREE, FLAT_FILE.items[2]);
  }

  lemma {:induction false} FlatOk()
    ensures FileOk(TREE, KnownOf, EXTERNAL, FLAT_FILE, true)
  {
    FlatNames();
    RootNames(FLAT_FILE);
    TreeSlugsApart(FLAT_FILE);
    OneNameOrdered("ubuntu9e4275");
    FlatOneUse();
    FlatItems();
  }

  lemma {:induction false} IncludeRootOk()
    ensures RootOk(TREE, KnownOf, EXTERNAL, INCLUDE_FILE)
  {
    TreeFiles();
    IncludeFlat();
    FlatNames();
    FlatOk();
    DownloaderNames();
    Includes();
  }

  lemma {:induction false} TreeFile(p: string)
    requires p in TREE.files
    ensures TREE.files[p] in FILES || TREE.files[p] == INCLUDE_FILE
  {
    TreeFiles();
  }

  lemma {:induction false} FileRefs(f: File, item: Item)
    requires (f in FILES || f == INCLUDE_FILE) && item in f.items && RefOfItem(item).Some?
    ensures RefOfItem(item).value.path in [UBUNTU, DOWNLOADER, NODE]
  {
  }

  lemma {:induction false} TreeRefs(q: string, item: Item)
    requires q in TREE.files && item in TREE.files[q].items && RefOfItem(item).Some?
    ensures RefOfItem(item).value.path in [UBUNTU, DOWNLOADER, NODE]
  {
    TreeFile(q);
    FileRefs(TREE.files[q], item);
  }

  ghost predicate MeetsDemands(p: string) {
    p in TREE.files && FileOk(TREE, KnownOf, KnownOf(p).ext, TREE.files[p], false) && NamesKnown(TREE, KnownOf, p)
  }

  lemma {:induction false} UbuntuMeets()
    ensures MeetsDemands(UBUNTU)
  {
    TreeFiles();
    UbuntuOk();
    UbuntuNames(6);
  }

  lemma {:induction false} DownloaderMeets()
    ensures MeetsDemands(DOWNLOADER)
  {
    TreeFiles();
    DownloaderOk();
    DownloaderNames();
  }

  lemma {:induction false} NodeMeets()
    ensures MeetsDemands(NODE)
  {
    TreeFiles();
    NodeOk();
    NodeRest(15);
  }

  lemma {:induction false} BelowRoots(root: string, p: string)
    requires Brought(TREE, root, p)
    ensures MeetsDemands(p)
  {
    var q, item := BroughtOf(TREE, root, p);
    TreeRefs(q, item);
    UbuntuMeets();
    DownloaderMeets();
    NodeMeets();
  }

  /** Both roots meet the demands. */
  lemma {:induction false} TreeIsTidy(root: string)
    requires root in [FROM_ROOT, INCLUDE_ROOT]
    ensures Tidy(TREE, root, KnownOf)
  {
    TreeFiles();
    forall p | p in TREE.files && p != root && Brought(TREE, root, p)
      ensures FileOk(TREE, KnownOf, KnownOf(p).ext, TREE.files[p], false) && NamesKnown(TREE, KnownOf, p)
    {
      BelowRoots(root, p);
      assert MeetsDemands(p);
    }
    FromRootOk();
    IncludeRootOk();
  }

  lemma {:induction false} TreeComplete()
    ensures AllPresent(TREE)
  {
    TreeFiles();
    forall p, item | p in TREE.files && item in TREE.files[p].items && RefOfItem(item).Some?
      ensures RefOfItem(item).value.path in TREE.files
    {
      TreeRefs(p, item);
    }
  }

  // Names and depth

  lemma {:induction false} ShortOnes(n: string)
    requires n in ["ubuntu9e4275", "downlo550515", "nodee5203c", "slug", "build-node", "final-stage"]
    ensures Short(n, 12)
  {
  }

  lemma {:induction false} FileStageNames(f: File, item: Item, isRoot: bool)
    requires f in FILES || f == INCLUDE_FILE
    requires item in f.items && StageName(isRoot, item).Some?
    ensures StageName(isRoot, item).value in ["build-node", "final-stage"]
  {
  }

  lemma {:induction false} TreeStageNames(p: string, item: Item, isRoot: bool)
    requires p in TREE.files && item in TREE.files[p].items && StageName(isRoot, item).Some?
    ensures StageName(isRoot, item).value in ["build-node", "final-stage"]
  {
    TreeFile(p);
    FileStageNames(TREE.files[p], item, isRoot);
  }

  lemma {:induction false} TreeItemShort(p: string, item: Item, isRoot: bool)
    requires p in TREE.files && item in TREE.files[p].items
    ensures ItemShort(TREE, isRoot, item, 12)
  {
    if StageName(isRoot, item).Some? {
      TreeStageNames(p, item, isRoot);
      ShortOnes(StageName(isRoot, item).value);
    }
    if RefOfItem(item).Some? {
      ShortOnes(AliasSlug(TREE, item));
    }
  }

  lemma {:induction false} TreeShortNames()
    ensures ShortNames(TREE, 12) && HexDigest(TREE.hash) && Longest(3, 12) <= MAX_STAGE_NAME_LENGTH
  {
    forall p | p in TREE.files ensures Short(TREE.slug(TREE.files[p].display), 12) {
      ShortOnes(TREE.slug(TREE.files[p].display));
    }
    forall p, item, isRoot | p in TREE.files && item in TREE.files[p].items ensures ItemShort(TREE, isRoot, item, 12) {
      TreeItemShort(p, item, isRoot);
    }
    assert NameChars("0");
    assert Longest(0, 12) == 12 && Longest(1, 12) == 26 && Longest(2, 12) == 40;
  }

  lemma {:induction false} TreeEndsNamed(root: string)
    requires root in [FROM_ROOT, INCLUDE_ROOT]
    ensures root in TREE.files && NamedEnds(TREE, root)
  {
    TreeFiles();
    Includes();
    FromFlat();
    FromNames();
    IncludeFlat();
    FlatNames();
    assert EndsNamed(TREE, DOWNLOADER_FILE, 1) && EndsNamed(TREE, DOWNLOADER_FILE, 2);
  }

  function Rank(p: string): nat {
    if p == UBUNTU then 0 else if p == DOWNLOADER then 1 else if p == NODE then 2 else 3
  }

  lemma {:induction false} EdgesFall(p: string, q: string)
    requires Edge(TREE, p, q)
    ensures Rank(p) > Rank(q)
  {
    TreeFiles();
    var item :| item in TREE.files[p].items && RefOfItem(item).Some? && RefOfItem(item).value.path == q;
    TreeRefs(p, item);
    if p != INCLUDE_ROOT {
      Bringers(TREE.files[p], item);
    }
  }

  lemma {:induction false} WalksEnd(ps: seq<string>)
    requires Walk(TREE, ps)
    ensures |ps| - 1 <= Rank(ps[0])
    decreases |ps|
  {
    if |ps| > 1 {
      assert Edge(TREE, ps[0], ps[1]);
      EdgesFall(ps[0], ps[1]);
      WalkTail(TREE, ps);
      WalksEnd(ps[1..]);
    }
  }

  lemma {:induction false} TreeNotTooDeep(root: string)
    ensures !TooDeep(TREE, root) && WalksWithin(TREE, root, 3)
  {
    forall ps | Walk(TREE, ps) && ps[0] == root ensures |ps| - 1 <= 3 {
      WalksEnd(ps);
    }
  }

  lemma {:induction false} TreeIsPlain(root: string)
    requires root in [FROM_ROOT, INCLUDE_ROOT]
    ensures root in TREE.files && PlainTree(TREE, root, 12, 3)
  {
    TreeShortNames();
    TreeEndsNamed(root);
    TreeNotTooDeep(root);
  }

  // What the trees mean

  function On(texts: seq<string>): Image {
    Image(IMAGE, seq(|texts|, i requires 0 <= i < |texts| => Layer.Plain(texts[i])))
  }

  /** A line of body text, read. */
  lemma {:induction false} LineRead(f: File, open: nat, n: nat, text: string, start: Progress, p: Progress,
                                    texts: seq<string>, fuel: nat)
    requires n < |f.items| && f.items[n] == Line(text) && fuel > 0
    requires Read(TREE, f, open, n, start, fuel) == Some(p) && p.img == On(texts)
    ensures Read(TREE, f, open, n + 1, start, fuel) == Some(p.(img := On(texts + [text])))
  {
    assert [Other(text)][..0] == [] && Build(p.env, p.img, []) == p.img;
    assert On(texts + [text]) == Image(IMAGE, On(texts).layers + [Layer.Plain(text)]);
  }

  /** A line that builds nothing, read. */
  lemma {:induction false} NoOpRead(f: File, open: nat, n: nat, i: Instr, start: Progress, p: Progress, fuel: nat)
    requires n < |f.items| && f.items[n] == Item.Plain(i) && NoOp(i) && fuel > 0
    requires Read(TREE, f, open, n, start, fuel) == Some(p)
    ensures Read(TREE, f, open, n + 1, start, fuel) == Some(p)
  {
    assert [i][..0] == [] && Build(p.env, p.img, []) == p.img && p.img.layers + [] == p.img.layers;
  }

  const SYSTEM := ["useradd", "HOME", "chmod", "mkdir"]

  lemma {:induction false} UbuntuFromRead(start: Progress, fuel: nat)
    requires fuel > 0 && IMAGE !in Close(start)
    ensures Read(TREE, UBUNTU_FILE, 0, 2, start, fuel)
            == Some(Progress(Close(start), Some("final-stage"), On([]), true))
  {
    var f := UBUNTU_FILE;
    assert Read(TREE, f, 0, 0, start, fuel) == Some(start) && f.items[0] == ARG_LINE && f.items[1] == FROM_IMAGE;
    NoOpRead(f, 0, 0, ARG_LINE.instr, start, start, fuel);
    assert On([]) == Image(IMAGE, []);
  }

  lemma {:induction false} UbuntuLines()
    ensures UBUNTU_FILE.items[2] == Line("useradd") && UBUNTU_FILE.items[3] == Line("HOME")
    ensures UBUNTU_FILE.items[4] == Line("chmod") && UBUNTU_FILE.items[5] == Line("mkdir") && |UBUNTU_FILE.items| == 6
  {
  }

  lemma {:induction false} UbuntuRead(f: File, start: Progress, fuel: nat)
    requires fuel > 0 && IMAGE !in Close(start) && f == UBUNTU_FILE
    ensures Read(TREE, f, 0, 6, start, fuel) == Some(Progress(Close(start), Some("final-stage"), On(SYSTEM), true))
  {
    var p := Progress(Close(start), Some("final-stage"), On([]), true);
    UbuntuFromRead(start, fuel);
    UbuntuLines();
    LineRead(f, 0, 2, "useradd", start, p, [], fuel);
    LineRead(f, 0, 3, "HOME", start, p.(img := On([] + ["useradd"])), [] + ["useradd"], fuel);
    LineRead(f, 0, 4, "chmod", start, p.(img := On([] + ["useradd"] + ["HOME"])), [] + ["useradd"] + ["HOME"], fuel);
    LineRead(f, 0, 5, "mkdir", start, p.(img := On([] + ["useradd"] + ["HOME"] + ["chmod"])),
             [] + ["useradd"] + ["HOME"] + ["chmod"], fuel);
    assert [] + ["useradd"] + ["HOME"] + ["chmod"] + ["mkdir"] == SYSTEM;
  }

  /** INCLUDE of the file and one more line. */
  lemma {:induction false} DownloaderRead(open: nat, start: Progress, fuel: nat)
    requires open <= 1 && fuel > 1 && IMAGE !in Close(start)
    ensures Read(TREE, DOWNLOADER_FILE, open, 2, start, fuel)
            == Some(Progress(Close(start), Some("final-stage"), On(SYSTEM + ["apt-get"]), true))
  {
    var f, less := DOWNLOADER_FILE, fuel - 1;
    TreeFiles();
    UbuntuRead(UBUNTU_FILE, start, less);
    assert Read(TREE, f, open, 0, start, fuel) == Some(start) && f.items[0] == INCLUDE_UBUNTU;
    var p := Progress(Close(start), Some("final-stage"), On(SYSTEM), true);
    assert Read(TREE, f, open, 1, start, fuel) == Some(p);
    LineRead(f, open, 1, "apt-get", start, p, SYSTEM, fuel);
  }

  lemma {:induction false} UbuntuMeans(fuel: nat)
    requires fuel > 0
    ensures Meaning(TREE, UBUNTU, None, false, fuel) == Some(On(SYSTEM))
  {
    TreeFiles();
    UbuntuRead(UBUNTU_FILE, NOTHING, fuel);
  }

  lemma {:induction false} DownloaderMeans(fuel: nat)
    requires fuel > 1
    ensures Meaning(TREE, DOWNLOADER, None, false, fuel) == Some(On(SYSTEM + ["apt-get"]))
  {
    TreeFiles();
    DownloaderRead(0, NOTHING, fuel);
  }

  /** Body text leaves the finished stages and the name of the current one alone. */
  lemma {:induction false} BodyRead(f: File, open: nat, n: nat, m: nat, start: Progress, p: Progress, fuel: nat)
    returns (q: Progress)
    requires n <= m <= |f.items| && fuel > 0 && Read(TREE, f, open, n, start, fuel) == Some(p)
    requires forall k :: n <= k < m ==> f.items[k].Plain? && !f.items[k].instr.From?
    ensures Read(TREE, f, open, m, start, fuel) == Some(q)
    ensures q.env == p.env && q.name == p.name && q.started == p.started
  {
    if n == m {
      q := p;
    } else {
      q := BodyRead(f, open, n, m - 1, start, p, fuel);
      q := q.(img := Build(q.env, q.img, [f.items[m - 1].instr]));
    }
  }

  const TOOLS := SYSTEM + ["apt-get"] + ["curl"]

  lemma {:induction false} NodePreamble()
    ensures NODE_FILE.items[1] == RENOVATE && NODE_FILE.items[2] == NODE_ARG && NODE_FILE.items[3] == PACKAGE_ARG
    ensures NODE_FILE.items[4] == Line("curl") && |NODE_FILE.items| == 15
    ensures NoOp(RENOVATE.instr) && NoOp(NODE_ARG.instr) && NoOp(PACKAGE_ARG.instr)
  {
  }

  lemma {:induction false} NodeCurlRead(f: File, p: Progress, fuel: nat)
    requires fuel > 0 && f == NODE_FILE
    requires Read(TREE, f, 0, 1, NOTHING, fuel) == Some(p) && p.img == On(SYSTEM + ["apt-get"])
    ensures Read(TREE, f, 0, 5, NOTHING, fuel) == Some(p.(img := On(TOOLS)))
  {
    NodePreamble();
    NoOpRead(f, 0, 1, RENOVATE.instr, NOTHING, p, fuel);
    NoOpRead(f, 0, 2, NODE_ARG.instr, NOTHING, p, fuel);
    NoOpRead(f, 0, 3, PACKAGE_ARG.instr, NOTHING, p, fuel);
    LineRead(f, 0, 4, "curl", NOTHING, p, SYSTEM + ["apt-get"], fuel);
  }

  lemma {:induction false} NodeBuildRead(fuel: nat)
    requires fuel > 2
    ensures Read(TREE, NODE_FILE, 0, 5, NOTHING, fuel) == Some(Progress(map[], Some("build-node"), On(TOOLS), true))
  {
    var f := NODE_FILE;
    DownloaderMeans(fuel - 1);
    assert Read(TREE, f, 0, 0, NOTHING, fuel) == Some(NOTHING) && f.items[0] == FROM_DOWNLOADER;
    var p := Progress(map[], Some("build-node"), On(SYSTEM + ["apt-get"]), true);
    assert Close(NOTHING) == map[] && Read(TREE, f, 0, 1, NOTHING, fuel) == Some(p);
    NodeCurlRead(f, p, fuel);
  }

  lemma {:induction false} NodeMeans(fuel: nat)
    requires fuel > 2
    ensures Meaning(TREE, NODE, Some("build-node"), false, fuel) == Some(On(TOOLS))
  {
    var f := NODE_FILE;
    TreeFiles();
    NodeBuildRead(fuel);
    UbuntuMeans(fuel - 1);
    var p := Progress(map["build-node" := On(TOOLS)], Some("final-stage"), On(SYSTEM), true);
    assert f.items[5] == FROM_UBUNTU && Read(TREE, f, 0, 6, NOTHING, fuel) == Some(p);
    var q := BodyRead(f, 0, 6, 15, NOTHING, p, fuel);
    assert "build-node"[0] == 'b' && "final-stage"[0] == 'f' && "build-node" != "";
  }

  lemma {:induction false} FromMeans()
    ensures Meaning(TREE, FROM_ROOT, None, true, 33) == Some(On(TOOLS + ["yarn"]))
  {
    var f := FROM_FILE;
    TreeFiles();
    NodeMeans(32);
    assert Read(TREE, f, 2, 0, NOTHING, 33) == Some(NOTHING);
    NoOpRead(f, 2, 0, f.items[0].instr, NOTHING, NOTHING, 33);
    var p := Progress(map[], Some("final-stage"), On(TOOLS), true);
    assert Close(NOTHING) == map[] && f.items[1] == FROM_NODE && Read(TREE, f, 2, 2, NOTHING, 33) == Some(p);
    LineRead(f, 2, 2, "yarn", NOTHING, p, TOOLS, 33);
  }

  lemma {:induction false} IncludeMeans()
    ensures Meaning(TREE, INCLUDE_ROOT, None, true, 33) == Some(On(SYSTEM + ["apt-get"]))
  {
    var f := INCLUDE_FILE;
    TreeFiles();
    assert Read(TREE, f, 2, 0, NOTHING, 33) == Some(NOTHING);
    NoOpRead(f, 2, 0, f.items[0].instr, NOTHING, NOTHING, 33);
    DownloaderRead(1, NOTHING, 32);
    assert f.items[1] == INCLUDE_DOWNLOADER;
    assert Read(TREE, f, 2, 2, NOTHING, 33) == Read(TREE, DOWNLOADER_FILE, 1, 2, NOTHING, 32);
  }

  /** What the compiler writes for both fixtures builds these images. */
  lemma {:induction false} FixturesAreWritten()
    ensures var r := Load(TREE, FROM_ROOT, ROOT_CONTEXT);
            r.Ok? && Stages(r.value) != [] && LastImage(map[], Stages(r.value)) == On(TOOLS + ["yarn"])
    ensures var r := Load(TREE, INCLUDE_ROOT, ROOT_CONTEXT);
            r.Ok? && Stages(r.value) != [] && LastImage(map[], Stages(r.value)) == On(SYSTEM + ["apt-get"])
  {
    TreeComplete();
    TreeIsTidy(FROM_ROOT);
    TreeIsPlain(FROM_ROOT);
    TreeNotTooDeep(FROM_ROOT);
    PlainTreeIsWritten(TREE, FROM_ROOT, KnownOf, 12, 3);
    FromMeans();
    TreeIsTidy(INCLUDE_ROOT);
    TreeIsPlain(INCLUDE_ROOT);
    TreeNotTooDeep(INCLUDE_ROOT);
    PlainTreeIsWritten(TREE, INCLUDE_ROOT, KnownOf, 12, 3);
    IncludeMeans();
  }
}
