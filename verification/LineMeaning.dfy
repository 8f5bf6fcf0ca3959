/** What the lines gathered from a file of a tidy tree build: step by step the images that reading
    the file directly gives. */
module LineMeaning {
  import opened Dockerfile
  import opened StageSets
  import opened LoadDockerfile
  import opened Interpreter
  import opened TidyTrees
  import opened LineInvariants

  function MeaningAt(s: Site, i: nat): Option<Image>
    requires i < |s.f.items| && Brings(s.w, s.f.items[i])
  {
    if i < |s.means| then s.means[i] else None
  }

  /** Every file that is brought in means the image its block gives its alias. */
  ghost predicate ChildrenMean(s: Site)
  {
    forall i: nat :: UsedAt(s, i) ==>
      MeaningAt(s, i) == Some(Resolve(EnvOf(map[], Block(s, i)), AliasAt(s, i)))
  }

  /** The aliases of the files used so far mean what the files mean. */
  ghost predicate AliasesMean(s: Site, n: nat, e: Env) {
    forall i: nat :: i < n && UsedAt(s, i) && Uses(s.f.items[i]) ==>
      MeaningAt(s, i) == Some(Resolve(e, AliasAt(s, i)))
  }

  /** `e`, the images after some lines, agrees with `env`, the images read directly, on external
      references and on `names`; and it has the images of the files used so far. */
  ghost predicate ImagesOk(s: Site, names: set<string>, n: nat, e: Env, env: Env) {
    (forall r :: r in s.ext + names ==> Resolve(e, r) == Resolve(env, r)) && AliasesMean(s, n, e)
  }

  ghost predicate AliasesIn(s: Site, n: nat, declared: set<string>) {
    forall i: nat :: i < n && UsedAt(s, i) && Uses(s.f.items[i]) ==> AliasAt(s, i) in declared
  }

  /** After n instructions with current stage `cur`: what reading the file knows, `p`, and what
      the stages build. */
  ghost predicate Running(s: Site, n: nat, before: seq<Stage>, cur: Stage, p: Progress)
    requires n <= |s.f.items|
  {
    && p.started
    && cur.alias == p.name && OwnStage(s, OwnNames(s.w, s.f, s.isRoot, n), cur)
    && (p.name.Some? ==>
          OwnNames(s.w, s.f, s.isRoot, n) != []
          && p.name.value == OwnNames(s.w, s.f, s.isRoot, n)[|OwnNames(s.w, s.f, s.isRoot, n)| - 1])
    && Finished(s.w, s.f, s.isRoot, n) <= p.env.Keys
    && NameSet(OwnNames(s.w, s.f, s.isRoot, n))
       == Finished(s.w, s.f, s.isRoot, n) + (if p.name.Some? then {p.name.value} else {})
    && ImageOf(EnvOf(map[], before), cur) == p.img
    && Finished(s.w, s.f, s.isRoot, n) <= Declared(before)
    && AliasesIn(s, n, Declared(before))
    && ImagesOk(s, Finished(s.w, s.f, s.isRoot, n), n, EnvOf(map[], before), p.env)
  }

  ghost predicate Semantics(s: Site, n: nat, ss: seq<Stage>, p: Progress)
    requires n <= |s.f.items|
  {
    if ss == [] then
      p.env == map[] && p.name == None && !p.started && OwnNames(s.w, s.f, s.isRoot, n) == [] && AliasesIn(s, n, {})
    else
      Running(s, n, ss[..|ss| - 1], ss[|ss| - 1], p)
  }

  // Facts about names

  lemma {:induction false} OwnNamesGrow(s: Site, n: nat, u: string)
    requires n <= |s.f.items| && u in OwnNames(s.w, s.f, s.isRoot, n)
    ensures u in AllNames(s)
    decreases |s.f.items| - n
  {
    if n < |s.f.items| {
      OwnNamesGrow(s, n + 1, u);
    }
  }

  lemma {:induction false} AliasNotOwn(s: Site, i: nat, u: string)
    requires SiteOk(s) && UsedAt(s, i) && Uses(s.f.items[i]) && u in AllNames(s)
    ensures AliasAt(s, i) != u
  {
    BlockNameNotOwn(s, i, AliasAt(s, i), u);
  }

  lemma {:induction false} BlockApart(s: Site, i: nat, e: string)
    requires SiteOk(s) && UsedAt(s, i) && e in s.ext
    ensures e !in Declared(Block(s, i))
  {
    if e in Declared(Block(s, i)) {
      BlockNameOwned(s, i, e);
      BlockNameNotExternal(s, i, e, e);
    }
  }

  // Finishing the current stage

  lemma {:induction false} FinishStage(s: Site, n: nat, ss: seq<Stage>, p: Progress)
    requires n <= |s.f.items| && SiteOk(s)
    requires Semantics(s, n, ss, p)
    ensures ImagesOk(s, NameSet(OwnNames(s.w, s.f, s.isRoot, n)), n, EnvOf(map[], ss), Close(p))
    ensures AliasesIn(s, n, Declared(ss))
    ensures NameSet(OwnNames(s.w, s.f, s.isRoot, n)) <= Declared(ss) * Close(p).Keys
  {
    if ss != [] && p.name.Some? {
      var u := p.name.value;
      assert u in NameSet(OwnNames(s.w, s.f, s.isRoot, n));
      OwnNamesGrow(s, n, u);
      OwnNotExternal(s, u);
      forall i: nat | i < n && UsedAt(s, i) && Uses(s.f.items[i]) ensures AliasAt(s, i) != u {
        AliasNotOwn(s, i, u);
      }
    }
  }

  // A used file's stages among the lines

  lemma {:induction false} SyntaxScoped(s: Site, n: nat, own: seq<string>, ss: seq<Stage>)
    requires SiteOk(s) && Syntax(s, n, own, ss) && Known(s, own)
    ensures WellScoped(ss) && Uniform(ss)
    ensures forall e :: e in s.ext ==> e !in Declared(ss)
  {
    SyntaxUniform(s, n, own, ss);
    forall e | e in s.ext ensures e !in Declared(ss) {
      DeclaredNotExternal(s, n, own, ss, e);
    }
  }

  /** More stages that keep the invariant change no image. */
  lemma {:induction false} ImageStays(s: Site, n: nat, own: seq<string>, ss: seq<Stage>, m: nat, tt: seq<Stage>,
                                      r: string)
    requires SiteOk(s) && Known(s, own) && Syntax(s, n, own, ss) && Syntax(s, m, own, tt)
    requires forall x :: x in ss ==> x in tt
    requires r in s.ext || r in Declared(ss)
    ensures Resolve(EnvOf(map[], tt), r) == Resolve(EnvOf(map[], ss), r)
  {
    SyntaxScoped(s, n, own, ss);
    SyntaxScoped(s, m, own, tt);
    MoreStagesSameImage(ss, tt, r);
    EnvFrame(map[], ss, r);
    EnvFrame(map[], tt, r);
  }

  /** Among them the alias of a file means what the file means. */
  lemma {:induction false} AliasMeans(s: Site, n: nat, own: seq<string>, tt: seq<Stage>, i: nat)
    requires SiteOk(s) && ChildrenMean(s) && UsedAt(s, i)
    requires Known(s, own) && Syntax(s, n, own, tt) && forall x :: x in Block(s, i) ==> x in tt
    ensures AliasAt(s, i) in Declared(tt)
    ensures MeaningAt(s, i) == Some(Resolve(EnvOf(map[], tt), AliasAt(s, i)))
  {
    SyntaxScoped(s, n, own, tt);
    forall e | e in s.ext ensures e !in Declared(Block(s, i)) {
      BlockApart(s, i, e);
    }
    MoreStagesSameImage(Block(s, i), tt, AliasAt(s, i));
  }

  lemma {:induction false} NamesStay(s: Site, n: nat, own: seq<string>, names: set<string>, ss: seq<Stage>,
                                     tt: seq<Stage>, env: Env)
    requires SiteOk(s) && Known(s, own)
    requires Syntax(s, n, own, ss) && Syntax(s, n + 1, own, tt) && forall x :: x in ss ==> x in tt
    requires names <= Declared(ss) && ImagesOk(s, names, n, EnvOf(map[], ss), env)
    ensures forall r :: r in s.ext + names ==> Resolve(EnvOf(map[], tt), r) == Resolve(env, r)
  {
    forall r | r in s.ext + names ensures Resolve(EnvOf(map[], tt), r) == Resolve(env, r) {
      ImageStays(s, n, own, ss, n + 1, tt, r);
    }
  }

  lemma {:induction false} AliasStays(s: Site, n: nat, own: seq<string>, ss: seq<Stage>, tt: seq<Stage>, i: nat)
    requires SiteOk(s) && Known(s, own) && UsedAt(s, i)
    requires Syntax(s, n, own, ss) && Syntax(s, n + 1, own, tt) && forall x :: x in ss ==> x in tt
    requires AliasAt(s, i) in Declared(ss)
    requires MeaningAt(s, i) == Some(Resolve(EnvOf(map[], ss), AliasAt(s, i)))
    ensures MeaningAt(s, i) == Some(Resolve(EnvOf(map[], tt), AliasAt(s, i)))
  {
    ImageStays(s, n, own, ss, n + 1, tt, AliasAt(s, i));
  }

  lemma {:induction false} AliasesStay(s: Site, n: nat, own: seq<string>, ss: seq<Stage>, tt: seq<Stage>)
    requires SiteOk(s) && ChildrenMean(s) && UsedAt(s, n) && Known(s, own)
    requires Syntax(s, n, own, ss) && Syntax(s, n + 1, own, tt) && forall x :: x in ss ==> x in tt
    requires Uses(s.f.items[n]) ==> forall x :: x in Block(s, n) ==> x in tt
    requires AliasesIn(s, n, Declared(ss))
    requires AliasesMean(s, n, EnvOf(map[], ss))
    ensures AliasesMean(s, n + 1, EnvOf(map[], tt))
  {
    forall i: nat | i < n + 1 && UsedAt(s, i) && Uses(s.f.items[i])
      ensures MeaningAt(s, i) == Some(Resolve(EnvOf(map[], tt), AliasAt(s, i)))
    {
      if i == n {
        AliasMeans(s, n + 1, own, tt, n);
      } else {
        AliasStays(s, n, own, ss, tt, i);
      }
    }
  }

  /** The stages of the file that instruction n brings in are put between others. */
  lemma {:induction false} BlockImages(s: Site, n: nat, own: seq<string>, names: set<string>, ss: seq<Stage>,
                                       tt: seq<Stage>, env: Env)
    requires SiteOk(s) && ChildrenMean(s) && UsedAt(s, n) && Known(s, own)
    requires Syntax(s, n, own, ss) && Syntax(s, n + 1, own, tt) && forall x :: x in ss ==> x in tt
    requires Uses(s.f.items[n]) ==> forall x :: x in Block(s, n) ==> x in tt
    requires names <= Declared(ss) <= Declared(tt) && AliasesIn(s, n, Declared(ss))
    requires ImagesOk(s, names, n, EnvOf(map[], ss), env)
    ensures ImagesOk(s, names, n + 1, EnvOf(map[], tt), env)
    ensures AliasesIn(s, n + 1, Declared(tt))
  {
    if Uses(s.f.items[n]) {
      AliasMeans(s, n + 1, own, tt, n);
    }
    NamesStay(s, n, own, names, ss, tt, env);
    AliasesStay(s, n, own, ss, tt);
  }

  lemma {:induction false} DeclaredInserted(a: seq<Stage>, c: seq<Stage>, b: seq<Stage>)
    ensures Declared(a + c + b) == Declared(a + b) + Declared(c)
  {
    NamesConcat(a, b);
    NamesConcat(a, c);
    NamesConcat(a + c, b);
  }

  // One instruction more

  lemma {:induction false} NoStageStarts(w: World, f: File, isRoot: bool, n: nat)
    requires n < |f.items| && !StartsStage(w, f.items[n])
    ensures OwnNames(w, f, isRoot, n + 1) == OwnNames(w, f, isRoot, n)
    ensures Finished(w, f, isRoot, n + 1) == Finished(w, f, isRoot, n)
    ensures HasStage(w, f, n + 1) == HasStage(w, f, n)
  {
    assert NameOf(w, isRoot, f.items[n]) == None;
    assert OwnNames(w, f, isRoot, n) + [] == OwnNames(w, f, isRoot, n);
  }

  lemma {:induction false} NothingUsed(s: Site, names: set<string>, n: nat, declared: set<string>, e: Env, env: Env)
    requires n < |s.f.items| && !Uses(s.f.items[n])
    requires AliasesIn(s, n, declared) && ImagesOk(s, names, n, e, env)
    ensures AliasesIn(s, n + 1, declared) && ImagesOk(s, names, n + 1, e, env)
  {
    forall i: nat | i < n + 1 && UsedAt(s, i) && Uses(s.f.items[i]) ensures i < n {
    }
  }

  /** More instructions build on the image so far. */
  lemma {:induction false} ExtendedImage(e: Env, cur: Stage, env: Env, body: seq<Instr>)
    requires forall r :: r in BodyRefs(body) ==> Resolve(e, r) == Resolve(env, r)
    ensures ImageOf(e, cur.(body := cur.body + body)) == Build(env, ImageOf(e, cur), body)
  {
    BuildConcat(e, Resolve(e, cur.base), cur.body, body);
    BuildAgree(env, e, ImageOf(e, cur), body);
  }

  /** The current stage goes on with another image, and perhaps with more stages before it. */
  lemma {:induction false} RunningOn(s: Site, n: nat, before: seq<Stage>, cur: Stage, p: Progress, before': seq<Stage>,
                                     cur': Stage)
    requires n < |s.f.items| && !StartsStage(s.w, s.f.items[n])
    requires Running(s, n, before, cur, p)
    requires cur'.alias == cur.alias && Declared(before) <= Declared(before')
    requires AliasesIn(s, n + 1, Declared(before'))
    requires ImagesOk(s, Finished(s.w, s.f, s.isRoot, n), n + 1, EnvOf(map[], before'), p.env)
    ensures Running(s, n + 1, before', cur', p.(img := ImageOf(EnvOf(map[], before'), cur')))
  {
    NoStageStarts(s.w, s.f, s.isRoot, n);
  }

  /** Body instructions run on the current stage. */
  lemma {:induction false} BodyRuns(s: Site, n: nat, before: seq<Stage>, cur: Stage, body: seq<Instr>, p: Progress)
    requires n < |s.f.items|
    requires !StartsStage(s.w, s.f.items[n]) && !Uses(s.f.items[n])
    requires Running(s, n, before, cur, p)
    requires BodyRefs(body) <= s.ext + Finished(s.w, s.f, s.isRoot, n)
    ensures Running(s, n + 1, before, cur.(body := cur.body + body), p.(img := Build(p.env, p.img, body)))
  {
    NothingUsed(s, Finished(s.w, s.f, s.isRoot, n), n, Declared(before), EnvOf(map[], before), p.env);
    forall r | r in BodyRefs(body) ensures Resolve(EnvOf(map[], before), r) == Resolve(p.env, r) {
    }
    ExtendedImage(EnvOf(map[], before), cur, p.env, body);
    RunningOn(s, n, before, cur, p, before, cur.(body := cur.body + body));
  }

  /** A new stage starts with an image that both sides agree on. */
  lemma {:induction false} StageStarts(s: Site, n: nat, done: seq<Stage>, x: Stage, p: Progress, img: Image)
    requires n < |s.f.items| && StartsStage(s.w, s.f.items[n])
    requires ImagesOk(s, NameSet(OwnNames(s.w, s.f, s.isRoot, n)), n + 1, EnvOf(map[], done), Close(p))
    requires AliasesIn(s, n + 1, Declared(done))
    requires NameSet(OwnNames(s.w, s.f, s.isRoot, n)) <= Declared(done) * Close(p).Keys
    requires x.alias == NameOf(s.w, s.isRoot, s.f.items[n]) && ImageOf(EnvOf(map[], done), x) == img
    ensures Semantics(s, n + 1, done + [x], Progress(Close(p), x.alias, img, true))
  {
    var ss := done + [x];
    assert ss[..|done|] == done;
    assert x.alias.None? ==> s.isRoot;
  }

  lemma {:induction false} LastMeans(done: seq<Stage>, x: Stage, alias: string)
    requires x.alias == Some(alias)
    ensures Resolve(EnvOf(map[], done + [x]), alias) == ImageOf(EnvOf(map[], done), x)
  {
    assert (done + [x])[..|done|] == done;
  }

  /** Behind an INCLUDE the file goes on with the image that the INCLUDEd file means. */
  lemma {:induction false} AliasStageMeans(s: Site, n: nat, own: seq<string>, done: seq<Stage>)
    requires SiteOk(s) && ChildrenMean(s) && UsedAt(s, n) && s.f.items[n].Include? && Known(s, own)
    requires Syntax(s, n + 1, own, done) && forall x :: x in Inserted(s, n) ==> x in done
    requires Declared(Inserted(s, n)) <= Declared(done) && AliasAt(s, n) !in own && AliasAt(s, n) in AllNames(s)
    ensures Block(s, n) != [] && MeaningAt(s, n) == Some(ImageOf(EnvOf(map[], done), AliasStage(s, n)))
  {
    IncludeParts(s, n);
    AliasStageAdded(s, n + 1, own, done, n);
    AliasMeans(s, n + 1, own + [AliasAt(s, n)], done + [AliasStage(s, n)], n);
    LastMeans(done, AliasStage(s, n), AliasAt(s, n));
  }

  lemma {:induction false} StageImageKept(s: Site, n: nat, own: seq<string>, ss: seq<Stage>, m: nat, tt: seq<Stage>,
                                          cur: Stage)
    requires SiteOk(s) && Known(s, own) && Syntax(s, n, own, ss) && Syntax(s, m, own, tt)
    requires forall x :: x in ss ==> x in tt
    requires Refs(cur) <= s.ext + Declared(ss)
    ensures ImageOf(EnvOf(map[], tt), cur) == ImageOf(EnvOf(map[], ss), cur)
  {
    forall r | r in Refs(cur) ensures Resolve(EnvOf(map[], tt), r) == Resolve(EnvOf(map[], ss), r) {
      ImageStays(s, n, own, ss, m, tt, r);
    }
    ImageAgree(EnvOf(map[], ss), EnvOf(map[], tt), cur);
  }

  lemma {:induction false} CopiedImage(e: Env, cur: Stage, verb: Verb, ref: string, rest: string)
    ensures var img := ImageOf(e, cur);
            ImageOf(e, cur.(body := cur.body + [Copy(verb, Some(ref), rest)]))
            == Image(img.root, img.layers + [Copied(verb, Resolve(e, ref), rest)])
  {
    var copy := Copy(verb, Some(ref), rest);
    BuildConcat(e, Resolve(e, cur.base), cur.body, [copy]);
    assert [copy][..0] == [];
  }

  function CopyLine(s: Site, n: nat): Instr
    requires n < |s.f.items| && s.f.items[n].CopyFile?
  {
    Copy(s.f.items[n].verb, Some(AliasAt(s, n)), s.f.items[n].rest)
  }

  /** `COPY --from=file` copies from the image the file means. */
  lemma {:induction false} CopyRuns(s: Site, n: nat, own: seq<string>, a: seq<Stage>, b: seq<Stage>, cur: Stage,
                                    p: Progress)
    requires n < |s.f.items| && s.f.items[n].CopyFile?
    requires SiteOk(s) && ChildrenMean(s) && UsedAt(s, n) && Known(s, own)
    requires Running(s, n, a + b, cur, p)
    requires Syntax(s, n, own, a + b) && Syntax(s, n + 1, own, a + Block(s, n) + b)
    requires Refs(cur) <= s.ext + Declared(a + b)
    ensures MeaningAt(s, n).Some?
    ensures var layer := Copied(s.f.items[n].verb, MeaningAt(s, n).value, s.f.items[n].rest);
            Running(s, n + 1, a + Block(s, n) + b, cur.(body := cur.body + [CopyLine(s, n)]),
                    p.(img := Image(p.img.root, p.img.layers + [layer])))
  {
    var tt := a + Block(s, n) + b;
    DeclaredInserted(a, Block(s, n), b);
    BlockImages(s, n, own, Finished(s.w, s.f, s.isRoot, n), a + b, tt, p.env);
    AliasMeans(s, n + 1, own, tt, n);
    StageImageKept(s, n, own, a + b, n + 1, tt, cur);
    CopiedImage(EnvOf(map[], tt), cur, s.f.items[n].verb, AliasAt(s, n), s.f.items[n].rest);
    RunningOn(s, n, a + b, cur, p, tt, cur.(body := cur.body + [CopyLine(s, n)]));
  }
}
