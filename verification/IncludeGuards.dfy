/** The depth and cycle guards of src/core/loadDockerfile.js: which loads they let through, and
    what their errors report. */
module IncludeGuards {
  import opened Dockerfile
  import opened PostProcessDockerfile
  import opened LoadDockerfile

  function RefOfItem(item: Item): Option<Ref> {
    match item
    case FromFile(ref, _, _) => Some(ref)
    case CopyFile(_, ref, _, _) => Some(ref)
    case Include(ref) => Some(ref)
    case _ => None
  }

  /** `p` includes `q`. Environment files are leaves and not part of the graph. */
  ghost predicate Edge(w: World, p: string, q: string) {
    p in w.files &&
    exists item :: item in w.files[p].items && RefOfItem(item).Some? && RefOfItem(item).value.path == q
  }

  ghost predicate Walk(w: World, ps: seq<string>) {
    ps != [] && forall i :: 0 <= i < |ps| - 1 ==> Edge(w, ps[i], ps[i + 1])
  }

  /** Some walk from `root` has more edges than the limit. */
  ghost predicate TooDeep(w: World, root: string) {
    exists ps :: Walk(w, ps) && ps[0] == root && |ps| - 1 > w.maxDepth
  }

  predicate GuardError(e: LoadError) {
    e.DepthExceeded? || e.Cycle?
  }

  // A load that succeeds bounds every walk

  lemma {:induction false} LinesOkBefore(w: World, f: File, level: nat, chain: seq<string>, n: nat, m: nat)
    requires level <= w.maxDepth && n <= m <= |f.items|
    requires Lines(w, f, level, chain, m).Ok?
    ensures Lines(w, f, level, chain, n).Ok?
    decreases m
  {
    if n < m {
      LinesOkBefore(w, f, level, chain, n, m - 1);
    }
  }

  lemma {:induction false} WalkTail(w: World, ps: seq<string>)
    requires Walk(w, ps) && |ps| > 1
    ensures Walk(w, ps[1..])
  {
    forall i | 0 <= i < |ps[1..]| - 1 ensures Edge(w, ps[1..][i], ps[1..][i + 1]) {
      assert Edge(w, ps[i + 1], ps[i + 2]);
    }
  }

  function ChildOf(w: World, item: Item, level: nat, chain: seq<string>): LoadContext
    requires RefOfItem(item).Some?
  {
    match item
    case Include(ref) => ChildContext(w, ref, None, level, chain, level == 0)
    case FromFile(ref, target, _) => ChildContext(w, ref, target, level, chain, false)
    case CopyFile(_, ref, target, _) => ChildContext(w, ref, target, level, chain, false)
  }

  lemma {:induction false} LoadParts(w: World, path: string, c: LoadContext)
    requires Load(w, path, c).Ok?
    ensures c.level <= w.maxDepth && path in w.files && path !in c.chain
    ensures var f := w.files[path];
            && Lines(w, f, c.level, c.chain + [path], |f.items|).Ok?
            && Load(w, path, c) == PostProcessed(w.hash, PostContext(w, f, c),
                                                 Lines(w, f, c.level, c.chain + [path], |f.items|).value)
  {
  }

  /** The next instruction loads another file. */
  lemma {:induction false} NextLoads(w: World, f: File, level: nat, chain: seq<string>, n: nat)
    requires level <= w.maxDepth && n < |f.items| && RefOfItem(f.items[n]).Some?
    requires Lines(w, f, level, chain, n + 1).Ok?
    ensures Lines(w, f, level, chain, n).Ok?
    ensures Load(w, RefOfItem(f.items[n]).value.path, ChildOf(w, f.items[n], level, chain)).Ok?
  {
  }

  lemma {:induction false} ChildLoads(w: World, f: File, level: nat, chain: seq<string>, n: nat)
    requires level <= w.maxDepth && n < |f.items| && RefOfItem(f.items[n]).Some?
    requires Lines(w, f, level, chain, |f.items|).Ok?
    ensures Load(w, RefOfItem(f.items[n]).value.path, ChildOf(w, f.items[n], level, chain)).Ok?
  {
    LinesOkBefore(w, f, level, chain, n + 1, |f.items|);
  }

  /** Success bounds the walks below: a file loaded at some level starts no walk past the limit, and
      none to a file that is not there. */
  lemma {:induction false} SuccessBoundsWalks(w: World, c: LoadContext, ps: seq<string>)
    requires Walk(w, ps) && Load(w, ps[0], c).Ok?
    ensures c.level + |ps| - 1 <= w.maxDepth && ps[|ps| - 1] in w.files
    decreases |ps|
  {
    if |ps| > 1 {
      assert Edge(w, ps[0], ps[1]);
      var f := w.files[ps[0]];
      var item :| item in f.items && RefOfItem(item).Some? && RefOfItem(item).value.path == ps[1];
      var n :| 0 <= n < |f.items| && f.items[n] == item;
      ChildLoads(w, f, c.level, c.chain + [ps[0]], n);
      WalkTail(w, ps);
      SuccessBoundsWalks(w, ChildOf(w, item, c.level, c.chain + [ps[0]]), ps[1..]);
    }
  }

  // What a guard error reports

  /** What every call of the compiler keeps: the chain is a simple path from the root, as long as
      the nesting level, that can be continued to the file being loaded. */
  ghost predicate OnPath(w: World, root: string, path: string, c: LoadContext) {
    && c.level == |c.chain| <= w.maxDepth + 1
    && Distinct(c.chain)
    && Walk(w, c.chain + [path])
    && (c.chain + [path])[0] == root
  }

  ghost predicate WalksTo(w: World, root: string, path: string) {
    exists ps :: Walk(w, ps) && ps[0] == root && ps[|ps| - 1] == path
  }

  /** Some file that is reached uses another one for this target. */
  ghost predicate Wants(w: World, root: string, target: string) {
    exists path, item :: path in w.files && WalksTo(w, root, path) && item in w.files[path].items
                         && RefOfItem(item).Some? && ChildOf(w, item, 0, []).target == Some(target)
  }

  /** A depth error carries a simple path of limit + 1 files that can be continued; a cycle error
      carries a simple path and one of its files again; a read error names a file that is reached and
      not there, and a target error a target that is asked for. */
  ghost predicate Reported(w: World, root: string, e: LoadError) {
    match e
    case DepthExceeded(depth, max, chain) =>
      && depth == max + 1 == |chain| && max == w.maxDepth
      && Distinct(chain) && chain[0] == root
      && exists q :: Walk(w, chain + [q])
    case Cycle(key, chain) =>
      && 2 <= |chain| <= w.maxDepth + 1
      && Walk(w, chain) && chain[0] == root && chain[|chain| - 1] == key
      && Distinct(chain[..|chain| - 1]) && key in chain[..|chain| - 1]
    case Missing(key) => key !in w.files && WalksTo(w, root, key)
    case TargetNotFound(target) => Wants(w, root, target)
  }

  lemma {:induction false} WalkSnoc(w: World, ps: seq<string>, q: string)
    requires Walk(w, ps) && Edge(w, ps[|ps| - 1], q)
    ensures Walk(w, ps + [q])
  {
  }

  lemma {:induction false} ChildOnPath(w: World, root: string, path: string, c: LoadContext, ref: Ref,
                                       child: LoadContext)
    requires OnPath(w, root, path, c) && c.level <= w.maxDepth && path !in c.chain && path in w.files
    requires exists item :: item in w.files[path].items && RefOfItem(item) == Some(ref)
    requires child.level == c.level + 1 && child.chain == c.chain + [path]
    ensures OnPath(w, root, ref.path, child)
  {
    var item :| item in w.files[path].items && RefOfItem(item) == Some(ref);
    assert Edge(w, path, ref.path);
    WalkSnoc(w, c.chain + [path], ref.path);
  }

  lemma {:induction false} ErrorsReport(w: World, root: string, path: string, c: LoadContext)
    requires OnPath(w, root, path, c)
    ensures Load(w, path, c).Err? ==>
              var e := Load(w, path, c).error;
              Reported(w, root, e) || (e.TargetNotFound? && c.target == Some(e.target))
    decreases if c.level <= w.maxDepth then w.maxDepth - c.level + 1 else 0, 1, 0
  {
    if c.level > w.maxDepth {
      assert (c.chain + [path])[0] == c.chain[0];
    } else if path in c.chain {
      assert (c.chain + [path])[..|c.chain|] == c.chain;
    } else if path in w.files {
      LinesReport(w, root, path, c, |w.files[path].items|);
    }
  }

  lemma {:induction false} TargetWanted(w: World, root: string, path: string, c: LoadContext, item: Item)
    requires OnPath(w, root, path, c) && path in w.files && item in w.files[path].items && RefOfItem(item).Some?
    ensures forall target ::
              ChildOf(w, item, c.level, c.chain + [path]).target == Some(target) ==> Wants(w, root, target)
  {
    assert (c.chain + [path])[|c.chain|] == path;
    assert WalksTo(w, root, path);
    assert ChildOf(w, item, 0, []).target == ChildOf(w, item, c.level, c.chain + [path]).target;
  }

  lemma {:induction false} LinesReport(w: World, root: string, path: string, c: LoadContext, n: nat)
    requires OnPath(w, root, path, c) && c.level <= w.maxDepth && path !in c.chain && path in w.files
    requires n <= |w.files[path].items|
    ensures var r := Lines(w, w.files[path], c.level, c.chain + [path], n); r.Err? ==> Reported(w, root, r.error)
    decreases w.maxDepth - c.level + 1, 0, n
  {
    if n > 0 {
      LinesReport(w, root, path, c, n - 1);
      var item := w.files[path].items[n - 1];
      if RefOfItem(item).Some? {
        var ref, child := RefOfItem(item).value, ChildOf(w, item, c.level, c.chain + [path]);
        assert item in w.files[path].items;
        ChildOnPath(w, root, path, c, ref, child);
        ErrorsReport(w, root, ref.path, child);
        TargetWanted(w, root, path, c, item);
      }
    }
  }

  // A guard error means a walk past the limit

  lemma {:induction false} WalkJoin(w: World, ps: seq<string>, qs: seq<string>)
    requires Walk(w, ps) && Walk(w, qs) && ps[|ps| - 1] == qs[0]
    ensures Walk(w, ps + qs[1..])
  {
    var all := ps + qs[1..];
    forall i | 0 <= i < |all| - 1 ensures Edge(w, all[i], all[i + 1]) {
      if i < |ps| - 1 {
        assert Edge(w, ps[i], ps[i + 1]);
      } else {
        assert Edge(w, qs[i - |ps| + 1], qs[i - |ps| + 2]);
      }
    }
  }

  /** A closed walk can be followed again and again. */
  lemma {:induction false} Pump(w: World, ps: seq<string>, loop: seq<string>, m: nat)
    requires Walk(w, ps) && Walk(w, loop) && |loop| > 1
    requires ps[|ps| - 1] == loop[0] == loop[|loop| - 1]
    ensures exists qs :: Walk(w, qs) && qs[0] == ps[0] && |qs| > m
    decreases if |ps| <= m then m - |ps| + 1 else 0
  {
    if |ps| <= m {
      WalkJoin(w, ps, loop);
      Pump(w, ps + loop[1..], loop, m);
    } else {
      assert Walk(w, ps) && |ps| > m;
    }
  }

  lemma {:induction false} ReportedTooDeep(w: World, root: string, e: LoadError)
    requires GuardError(e) && Reported(w, root, e)
    ensures TooDeep(w, root)
  {
    match e
    case DepthExceeded(_, _, chain) =>
      var q :| Walk(w, chain + [q]);
      assert (chain + [q])[0] == root;
    case Cycle(key, chain) =>
      var i :| 0 <= i < |chain| - 1 && chain[i] == key;
      var loop := chain[i..];
      forall j | 0 <= j < |loop| - 1 ensures Edge(w, loop[j], loop[j + 1]) {
        assert Edge(w, chain[i + j], chain[i + j + 1]);
      }
      Pump(w, chain, loop, w.maxDepth + 1);
  }

  /** Guard exactness: unless a source is unreadable or a target is absent, the root loads exactly
      when no walk through the includes has more edges than the limit. In any case a guard error
      is justified and carries the path that led to it. */
  lemma {:induction false} GuardsAreExact(w: World, root: string)
    ensures var r := Load(w, root, ROOT_CONTEXT);
            && (r.Ok? || GuardError(r.error) ==> (r.Ok? <==> !TooDeep(w, root)))
            && (r.Err? ==> Reported(w, root, r.error))
            && (r.Ok? ==> forall path :: WalksTo(w, root, path) ==> path in w.files)
  {
    var r := Load(w, root, ROOT_CONTEXT);
    assert OnPath(w, root, root, ROOT_CONTEXT);
    ErrorsReport(w, root, root, ROOT_CONTEXT);
    if r.Ok? {
      forall ps | Walk(w, ps) && ps[0] == root ensures |ps| - 1 <= w.maxDepth && ps[|ps| - 1] in w.files {
        SuccessBoundsWalks(w, ROOT_CONTEXT, ps);
      }
    } else if GuardError(r.error) {
      ReportedTooDeep(w, root, r.error);
    }
  }
}
