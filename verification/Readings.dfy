/** Reading a file in place, and reading it with the stages of INCLUDEd files apart. The first is what
    INCLUDE means, the second what the compiler makes of it; both agree outside the names that an
    INCLUDE hides. */
module Readings {
  import opened Dockerfile
  import opened IncludeGuards
  import opened Interpreter
  import opened TidyTrees
  import opened Snippets
  import opened LineInvariants
  import opened LineMeaning
  import opened LineSteps
  import opened GatheredLines

  function OpenAt(s: Site): nat {
    if !s.isRoot then 0 else if s.level == 0 then 2 else 1
  }

  function ReadAt(s: Site, n: nat, start: Progress): Option<Progress>
    requires s.level <= s.w.maxDepth && n <= |s.f.items|
  {
    Read(s.w, s.f, OpenAt(s), n, start, FuelAt(s))
  }

  function HiddenAt(s: Site, n: nat): set<string>
    requires n <= |s.f.items|
  {
    Hidden(s.w, s.known, s.f, s.isRoot, n)
  }

  // When both agree

  /** An own name means the same in `e` and `f`; another name means in `e` what it means in `e0`. */
  ghost predicate SeenAs(own: seq<string>, e0: Env, e: Env, f: Env, r: string) {
    if r in own then r in e && r in f && e[r] == f[r]
    else (r in e <==> r in e0) && Resolve(e, r) == Resolve(e0, r)
  }

  ghost predicate AllSeen(own: seq<string>, hidden: set<string>, e0: Env, e: Env, f: Env) {
    && (forall u :: u in f ==> u in own)
    && forall r :: r !in hidden ==> SeenAs(own, e0, e, f, r)
  }

  predicate Covered(name: Option<string>, hidden: set<string>) {
    name.Some? ==> name.value in hidden
  }

  ghost predicate NamesAgree(hidden: set<string>, a: Option<string>, b: Option<string>) {
    a == b || (Covered(a, hidden) && Covered(b, hidden))
  }

  /** After n instructions, read on from q0: `q` is known reading in place, `p` reading apart. */
  ghost predicate Reads(s: Site, n: nat, q0: Progress, q: Progress, p: Progress)
    requires n <= |s.f.items|
  {
    && (p.started <==> HasStage(s.w, s.f, n))
    && if !p.started then q == q0 && p.env == map[] && p.name == None && OwnAt(s, n) == [] && HiddenAt(s, n) == {}
       else
         && q.started && q.img == p.img
         && NamesAgree(HiddenAt(s, n), q.name, p.name)
         && (p.name.Some? ==> p.name.value !in Finished(s.w, s.f, s.isRoot, n))
         && AllSeen(OwnAt(s, n), HiddenAt(s, n), Close(q0), Close(q), Close(p))
  }

  /** The external images of the file are external where the reading starts. */
  ghost predicate Outside(s: Site, q0: Progress) {
    forall e :: e in s.ext ==> e !in Close(q0)
  }

  lemma {:induction false} NothingRead(s: Site, q0: Progress)
    ensures Reads(s, 0, q0, q0, NOTHING)
  {
  }

  lemma {:induction false} ClosesAgree(s: Site, n: nat, q0: Progress, q: Progress, p: Progress)
    requires n <= |s.f.items| && Reads(s, n, q0, q, p)
    ensures AllSeen(OwnAt(s, n), HiddenAt(s, n), Close(q0), Close(q), Close(p))
  {
  }

  // A new stage

  lemma {:induction false} SeenMore(own: seq<string>, hidden: set<string>, e0: Env, e: Env, f: Env, u: string,
                                    img: Image)
    requires AllSeen(own, hidden, e0, e, f)
    ensures AllSeen(own + [u], hidden - {u}, e0, e[u := img], f[u := img])
  {
    forall r | r !in hidden - {u} ensures SeenAs(own + [u], e0, e[u := img], f[u := img], r) {
      if r != u {
        assert SeenAs(own, e0, e, f, r);
      }
    }
  }

  /** A stage with a name of its own, or none, starts with the same image. */
  lemma {:induction false} StageAgrees(s: Site, n: nat, q0: Progress, q: Progress, p: Progress, name: Option<string>,
                                       img: Image)
    requires SiteOk(s) && n < |s.f.items| && Reads(s, n, q0, q, p)
    requires StartsStage(s.w, s.f.items[n]) && !StageInclude(s.w, s.f.items[n])
    requires name == StageName(s.isRoot, s.f.items[n])
    ensures Reads(s, n + 1, q0, Progress(Close(q), name, img, true), Progress(Close(p), name, img, true))
  {
    ClosesAgree(s, n, q0, q, p);
    NewName(s, n);
    if name.Some? {
      SeenMore(OwnAt(s, n), HiddenAt(s, n), Close(q0), Close(q), Close(p), name.value, img);
    }
  }

  // References

  lemma {:induction false} ExternalSeen(s: Site, n: nat, q0: Progress, q: Progress, p: Progress, r: string)
    requires SiteOk(s) && n <= |s.f.items| && Reads(s, n, q0, q, p) && Outside(s, q0)
    requires r in s.ext && r !in HiddenAt(s, n)
    ensures r !in Close(q) && r !in Close(p)
  {
    ClosesAgree(s, n, q0, q, p);
    if r in OwnAt(s, n) {
      OwnNamesGrow(s, n, r);
      OwnNotExternal(s, r);
    } else {
      assert SeenAs(OwnAt(s, n), Close(q0), Close(q), Close(p), r);
    }
  }

  lemma {:induction false} RefAgrees(s: Site, n: nat, q0: Progress, q: Progress, p: Progress, r: string)
    requires SiteOk(s) && n < |s.f.items| && Reads(s, n, q0, q, p) && Outside(s, q0)
    requires r in ItemRefs(s.w, s.known, s.f.items[n]) && (r in s.ext || r in OwnAt(s, n))
    ensures Resolve(Close(q), r) == Resolve(Close(p), r) && (r in Close(q) <==> r in Close(p))
  {
    assert ItemOk(s.w, s.known, s.ext, s.f, s.isRoot, n);
    if r in s.ext {
      ExternalSeen(s, n, q0, q, p, r);
    } else {
      ClosesAgree(s, n, q0, q, p);
      assert SeenAs(OwnAt(s, n), Close(q0), Close(q), Close(p), r);
    }
  }

  lemma {:induction false} FinishedIsOwn(s: Site, n: nat, r: string)
    requires n <= |s.f.items| && r in Finished(s.w, s.f, s.isRoot, n)
    ensures r in OwnAt(s, n)
  {
    if !StartsStage(s.w, s.f.items[n - 1]) {
      FinishedIsOwn(s, n - 1, r);
    }
  }

  lemma {:induction false} NotCurrent(hidden: set<string>, q: Progress, p: Progress, r: string)
    requires NamesAgree(hidden, q.name, p.name) && p.name != Some(r) && r !in hidden
    ensures q.name != Some(r)
    ensures (r in q.env <==> r in Close(q)) && Resolve(q.env, r) == Resolve(Close(q), r)
    ensures (r in p.env <==> r in Close(p)) && Resolve(p.env, r) == Resolve(Close(p), r)
  {
  }

  /** What body text refers to means the same. */
  lemma {:induction false} BodyRefAgrees(s: Site, n: nat, q0: Progress, q: Progress, p: Progress, r: string)
    requires SiteOk(s) && n < |s.f.items| && Reads(s, n, q0, q, p) && Outside(s, q0) && p.started
    requires r in ItemRefs(s.w, s.known, s.f.items[n])
    requires r in s.ext + Finished(s.w, s.f, s.isRoot, n)
    ensures Resolve(q.env, r) == Resolve(p.env, r)
  {
    assert ItemOk(s.w, s.known, s.ext, s.f, s.isRoot, n);
    if r in s.ext {
      ExternalSeen(s, n, q0, q, p, r);
    } else {
      FinishedIsOwn(s, n, r);
      RefAgrees(s, n, q0, q, p, r);
      NotCurrent(HiddenAt(s, n), q, p, r);
    }
  }

  // Body text and copies

  lemma {:induction false} SeenOn(own: seq<string>, hidden: set<string>, e0: Env, q: Progress, p: Progress, img: Image)
    requires AllSeen(own, hidden, e0, Close(q), Close(p)) && NamesAgree(hidden, q.name, p.name)
    ensures AllSeen(own, hidden, e0, Close(q.(img := img)), Close(p.(img := img)))
  {
    forall r | r !in hidden ensures SeenAs(own, e0, Close(q.(img := img)), Close(p.(img := img)), r) {
      assert SeenAs(own, e0, Close(q), Close(p), r);
    }
  }

  /** The current stage goes on with the same image. */
  lemma {:induction false} GoesOn(s: Site, n: nat, q0: Progress, q: Progress, p: Progress, img: Image)
    requires n < |s.f.items| && !StartsStage(s.w, s.f.items[n]) && Reads(s, n, q0, q, p) && p.started
    ensures Reads(s, n + 1, q0, q.(img := img), p.(img := img))
  {
    NoStageStarts(s.w, s.f, s.isRoot, n);
    SeenOn(OwnAt(s, n), HiddenAt(s, n), Close(q0), q, p, img);
    assert HiddenAt(s, n + 1) == HiddenAt(s, n);
  }

  lemma {:induction false} PreambleRead(s: Site, n: nat, q0: Progress, q: Progress, p: Progress, body: seq<Instr>)
    requires n < |s.f.items| && !StartsStage(s.w, s.f.items[n]) && Reads(s, n, q0, q, p) && !p.started
    requires Effective(body) == []
    ensures q.(img := Build(q.env, q.img, body)) == q && p.(img := Build(p.env, p.img, body)) == p
    ensures Reads(s, n + 1, q0, q, p)
  {
    NoStageStarts(s.w, s.f, s.isRoot, n);
    BuildEffective(q.env, q.img, body);
    BuildEffective(p.env, p.img, body);
    assert Build(q.env, q.img, []) == q.img && Build(p.env, p.img, []) == p.img;
  }

  lemma {:induction false} BodyReads(s: Site, n: nat, q0: Progress, q: Progress, p: Progress)
    requires SiteOk(s) && StepOk(s, n) && IsBody(s.w, s.f.items[n]) && Outside(s, q0) && Reads(s, n, q0, q, p)
    requires BodyRefs(InlineBody(s.w, s.f.items[n])) == ItemRefs(s.w, s.known, s.f.items[n])
    ensures Reads(s, n + 1, q0, StepProgress(s, n, q), StepProgress(s, n, p))
  {
    var body := InlineBody(s.w, s.f.items[n]);
    InlineItem(s, n);
    BodyProgress(s, n, q);
    BodyProgress(s, n, p);
    if p.started {
      forall r | r in BodyRefs(body) ensures Resolve(p.env, r) == Resolve(q.env, r) {
        BodyRefAgrees(s, n, q0, q, p, r);
      }
      BuildAgree(q.env, p.env, q.img, body);
      GoesOn(s, n, q0, q, p, Build(q.env, q.img, body));
    } else {
      PreambleRead(s, n, q0, q, p, body);
    }
  }

  lemma {:induction false} BodyItemRefs(s: Site, n: nat)
    requires n < |s.f.items| && IsBody(s.w, s.f.items[n])
    ensures BodyRefs(InlineBody(s.w, s.f.items[n])) == ItemRefs(s.w, s.known, s.f.items[n])
  {
  }

  /** An instruction that is no INCLUDE of stages keeps both readings in agreement. */
  lemma {:induction false} StepAgrees(s: Site, n: nat, q0: Progress, q: Progress, p: Progress)
    requires SiteOk(s) && StepOk(s, n) && !StageInclude(s.w, s.f.items[n]) && Outside(s, q0)
    requires Brings(s.w, s.f.items[n]) ==> MeaningAt(s, n).Some?
    requires Reads(s, n, q0, q, p) && (s.f.items[n].CopyFile? ==> p.started)
    ensures Reads(s, n + 1, q0, StepProgress(s, n, q), StepProgress(s, n, p))
  {
    match s.f.items[n]
    case FromFile(_, _, _) =>
      StageAgrees(s, n, q0, q, p, StageName(s.isRoot, s.f.items[n]), MeaningAt(s, n).value);
    case CopyFile(_, _, _, _) =>
      GoesOn(s, n, q0, q, p, StepProgress(s, n, p).img);
    case Plain(i) =>
      if i.From? {
        assert ItemOk(s.w, s.known, s.ext, s.f, s.isRoot, n);
        RefAgrees(s, n, q0, q, p, i.base);
        StageAgrees(s, n, q0, q, p, StageName(s.isRoot, s.f.items[n]), Resolve(Close(p), i.base));
      } else {
        BodyItemRefs(s, n);
        BodyReads(s, n, q0, q, p);
      }
    case _ =>
      BodyItemRefs(s, n);
      BodyReads(s, n, q0, q, p);
  }

  // INCLUDE of a file with stages

  lemma {:induction false} SeenBehind(own: seq<string>, hidden: set<string>, names: set<string>, a: string, e0: Env,
                                      e: Env, e': Env, f: Env, img: Image)
    requires AllSeen(own, hidden, e0, e, f)
    requires forall r :: r !in names ==> (r in e' <==> r in e) && Resolve(e', r) == Resolve(e, r)
    ensures AllSeen(own + [a], hidden + {a} + names, e0, e', f[a := img])
  {
    forall r | r !in hidden + {a} + names ensures SeenAs(own + [a], e0, e', f[a := img], r) {
      assert SeenAs(own, e0, e, f, r);
    }
  }

  /** Reading a file in place leaves every name alone that its users do not know. */
  lemma {:induction false} OthersStay(t: Site, q: Progress, q': Progress, p: Progress, names: set<string>)
    requires Reads(t, |t.f.items|, q, q', p) && p.started
    requires NameSet(AllNames(t)) + HiddenAt(t, |t.f.items|) <= names
    ensures forall r :: r !in names ==>
              (r in Close(q') <==> r in Close(q)) && Resolve(Close(q'), r) == Resolve(Close(q), r)
    ensures Covered(q'.name, names)
  {
    forall r | r !in names
      ensures (r in Close(q') <==> r in Close(q)) && Resolve(Close(q'), r) == Resolve(Close(q), r)
    {
      assert r !in NameSet(AllNames(t));
      assert SeenAs(AllNames(t), Close(q), Close(q'), Close(p), r);
    }
    if p.name.Some? {
      assert p.name.value in Close(p) && p.name.value in NameSet(AllNames(t));
    }
  }

  /** The file t is read in place of instruction n. */
  lemma {:induction false} IncludeAgrees(s: Site, n: nat, q0: Progress, q: Progress, p: Progress, t: Site, q': Progress,
                                         img: Image)
    requires SiteOk(s) && n < |s.f.items| && StageInclude(s.w, s.f.items[n]) && Reads(s, n, q0, q, p)
    requires q'.started && q'.img == img
    requires var names := s.known(s.f.items[n].ref.path).names;
             && Covered(q'.name, names)
             && forall r :: r !in names ==>
                  (r in Close(q') <==> r in Close(q)) && Resolve(Close(q'), r) == Resolve(Close(q), r)
    ensures Reads(s, n + 1, q0, q', Progress(Close(p), Some(AliasAt(s, n)), img, true))
  {
    ClosesAgree(s, n, q0, q, p);
    NewName(s, n);
    SeenBehind(OwnAt(s, n), HiddenAt(s, n), s.known(s.f.items[n].ref.path).names, AliasAt(s, n), Close(q0), Close(q),
               Close(q'), Close(p), img);
  }

  // The compiler's instructions, read

  /** Instruction m of t is instruction i of s, and brings in what it brings in there. */
  ghost predicate Same(s: Site, i: nat, t: Site, m: nat) {
    && t.w == s.w && t.known == s.known && t.isRoot == s.isRoot && i < |s.f.items| && m < |t.f.items|
    && t.f.items[m] == s.f.items[i]
    && (Brings(t.w, t.f.items[m]) ==> UsedAt(t, m) && Child(s, i) == Child(t, m))
  }

  lemma {:induction false} SameProgress(s: Site, i: nat, t: Site, m: nat, p: Progress)
    requires Same(s, i, t, m) && StepOk(s, i) && StepOk(t, m)
    requires Brings(t.w, t.f.items[m]) ==> MeaningAt(t, m).Some? && MeaningAt(t, m) == MeaningAt(s, i)
    ensures StepProgress(t, m, p) == StepProgress(s, i, p)
  {
  }

  /** Reading a FROM or a copy from a file. */
  lemma {:induction false} ReadUse(s: Site, n: nat, start: Progress, p: Progress)
    requires s.level <= s.w.maxDepth && StepOk(s, n) && Uses(s.f.items[n]) && ReadAt(s, n, start) == Some(p)
    requires MeaningAt(s, n) == Meaning(s.w, RefAt(s, n).path, TargetOf(s.f.items[n]), false, s.w.maxDepth - s.level)
    requires MeaningAt(s, n).Some?
    ensures ReadAt(s, n + 1, start) == Some(StepProgress(s, n, p))
  {
  }

  lemma {:induction false} ReadFrom(s: Site, n: nat, start: Progress, p: Progress)
    requires s.level <= s.w.maxDepth && StepOk(s, n) && s.f.items[n].Plain? && s.f.items[n].instr.From?
    requires ReadAt(s, n, start) == Some(p)
    ensures ReadAt(s, n + 1, start) == Some(StepProgress(s, n, p))
  {
  }

  lemma {:induction false} ReadBody(s: Site, n: nat, start: Progress, p: Progress)
    requires Grounded(s) && !s.flat && n < |s.f.items| && Inline(s.w, s.f.items[n])
    requires LinesAt(s, n + 1).Ok? && ReadAt(s, n, start) == Some(p)
    ensures ReadAt(s, n + 1, start) == Some(p.(img := Build(p.env, p.img, InlineBody(s.w, s.f.items[n]))))
  {
    LinesOkBefore(s.w, s.f, s.level, s.chain, n, n + 1);
    var q := SnippetReadOne(s.w, s.f, OpenAt(s), s.level, s.chain, s.w.maxDepth, n, start, p, FuelAt(s));
  }

  lemma {:induction false} GroundedUse(s: Site, n: nat)
    requires Grounded(s) && n < |s.f.items| && Uses(s.f.items[n])
    ensures MeaningAt(s, n) == Meaning(s.w, RefAt(s, n).path, TargetOf(s.f.items[n]), false, s.w.maxDepth - s.level)
  {
    assert GroundedAt(s, n);
  }

  lemma {:induction false} ReadUseStep(s: Site, n: nat, start: Progress, p: Progress)
    requires Grounded(s) && StepOk(s, n) && Uses(s.f.items[n]) && MeaningAt(s, n).Some?
    requires ReadAt(s, n, start) == Some(p)
    ensures ReadAt(s, n + 1, start) == Some(StepProgress(s, n, p))
  {
    GroundedUse(s, n);
    ReadUse(s, n, start, p);
  }

  lemma {:induction false} ReadBodyStep(s: Site, n: nat, start: Progress, p: Progress)
    requires Grounded(s) && !s.flat && StepOk(s, n) && IsBody(s.w, s.f.items[n])
    requires LinesAt(s, n + 1).Ok? && ReadAt(s, n, start) == Some(p)
    ensures ReadAt(s, n + 1, start) == Some(StepProgress(s, n, p))
  {
    ReadBody(s, n, start, p);
    BodyProgress(s, n, p);
  }

  lemma {:induction false} ReadStep(s: Site, n: nat, start: Progress, p: Progress)
    requires Grounded(s) && !s.flat && StepOk(s, n) && LinesAt(s, n + 1).Ok? && !StageInclude(s.w, s.f.items[n])
    requires Brings(s.w, s.f.items[n]) ==> MeaningAt(s, n).Some?
    requires ReadAt(s, n, start) == Some(p)
    ensures ReadAt(s, n + 1, start) == Some(StepProgress(s, n, p))
  {
    if Uses(s.f.items[n]) {
      ReadUseStep(s, n, start, p);
    } else if StartsStage(s.w, s.f.items[n]) {
      ReadFrom(s, n, start, p);
    } else {
      ReadBodyStep(s, n, start, p);
    }
  }

  /** An INCLUDE reads the file t in place. */
  lemma {:induction false} ReadInPlace(s: Site, n: nat, start: Progress, q: Progress, t: Site)
    requires s.level < s.w.maxDepth && n < |s.f.items| && s.f.items[n].Include? && s.f.items[n].ref.path in s.w.files
    requires ReadAt(s, n, start) == Some(q)
    requires t.w == s.w && t.f == s.w.files[s.f.items[n].ref.path] && t.level == s.level + 1
    requires OpenAt(t) == OneLess(OpenAt(s))
    ensures ReadAt(s, n + 1, start) == ReadAt(t, |t.f.items|, q)
  {
  }
}
