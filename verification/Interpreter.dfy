/** What a tree of Dockerfiles means, read directly: no text is joined, no stage is renamed. */
module Interpreter {
  import opened Dockerfile
  import opened PostProcessDockerfile
  import opened LoadDockerfile

  /** Reading a file: the finished stages, and the name and image of the current one. */
  datatype Progress = Progress(env: Env, name: Option<string>, img: Image, started: bool)

  const NOTHING := Progress(map[], None, Image("", []), false)

  function Close(p: Progress): Env {
    if p.name.Some? then p.env[p.name.value := p.img] else p.env
  }

  /** A plain stage may stay without a name in the root and in the files that the root INCLUDEs; in
      every other file it is called `final-stage`. */
  function StageName(isRoot: bool, item: Item): Option<string> {
    match item
    case Plain(From(_, alias)) => if isRoot then alias else Some(StageNameOf(alias))
    case FromFile(_, _, alias) => Some(StageNameOf(alias))
    case _ => None
  }

  /** How many levels of INCLUDE from here may leave stages without a name. */
  function Unnamed(isRoot: bool): nat {
    if isRoot then 2 else 0
  }

  function OneLess(open: nat): nat {
    if open == 0 then 0 else open - 1
  }

  /** The image of the target stage of a file, or of its last stage. `fuel` bounds the nesting. */
  function Meaning(w: World, path: string, target: Option<string>, isRoot: bool, fuel: nat): Option<Image>
    decreases fuel, 1, 0
  {
    if fuel == 0 || path !in w.files then None
    else
      var f := w.files[path];
      var r := Read(w, f, Unnamed(isRoot), |f.items|, NOTHING, fuel);
      if r.None? || !r.value.started then None
      else if !IsTarget(target) then Some(r.value.img)
      else if target.value in Close(r.value) then Some(Close(r.value)[target.value])
      else None
  }

  /** The first n instructions of a file, read on from `start`. `FROM file` continues the image
      the file means, `--from=file` copies from it, INCLUDE reads the file in place. */
  function Read(w: World, f: File, open: nat, n: nat, start: Progress, fuel: nat): Option<Progress>
    requires n <= |f.items| && fuel > 0
    decreases fuel, 0, n
  {
    if n == 0 then Some(start)
    else
      var before := Read(w, f, open, n - 1, start, fuel);
      if before.None? then None
      else
        var p, item := before.value, f.items[n - 1];
        match item
        case Plain(i) =>
          if i.From?
          then Some(Progress(Close(p), StageName(open > 0, item), Resolve(Close(p), i.base), true))
          else Some(p.(img := Build(p.env, p.img, [i])))
        case IncludeEnv(_, content) =>
          Some(p.(img := Build(p.env, p.img, content)))
        case Include(ref) =>
          if fuel == 1 || ref.path !in w.files then None
          else Read(w, w.files[ref.path], OneLess(open), |w.files[ref.path].items|, p, fuel - 1)
        case FromFile(ref, target, _) =>
          var m := Meaning(w, ref.path, target, false, fuel - 1);
          if m.None? then None
          else Some(Progress(Close(p), StageName(open > 0, item), m.value, true))
        case CopyFile(verb, ref, target, rest) =>
          var m := Meaning(w, ref.path, target, false, fuel - 1);
          if m.None? then None
          else Some(p.(img := Image(p.img.root, p.img.layers + [Copied(verb, m.value, rest)])))
  }

  /** More fuel changes no meaning that was reached. */
  lemma {:induction false} MeaningNeedsNoMore(w: World, path: string, target: Option<string>, isRoot: bool, fuel: nat)
    requires Meaning(w, path, target, isRoot, fuel).Some?
    ensures Meaning(w, path, target, isRoot, fuel + 1) == Meaning(w, path, target, isRoot, fuel)
    decreases fuel, 1, 0
  {
    var f := w.files[path];
    ReadNeedsNoMore(w, f, Unnamed(isRoot), |f.items|, NOTHING, fuel);
  }

  lemma {:induction false} ReadNeedsNoMore(w: World, f: File, open: nat, n: nat, start: Progress, fuel: nat)
    requires n <= |f.items| && fuel > 0
    requires Read(w, f, open, n, start, fuel).Some?
    ensures Read(w, f, open, n, start, fuel + 1) == Read(w, f, open, n, start, fuel)
    decreases fuel, 0, n
  {
    if n > 0 {
      ReadNeedsNoMore(w, f, open, n - 1, start, fuel);
      var p := Read(w, f, open, n - 1, start, fuel).value;
      match f.items[n - 1] {
        case Include(ref) =>
          ReadNeedsNoMore(w, w.files[ref.path], OneLess(open), |w.files[ref.path].items|, p, fuel - 1);
        case FromFile(ref, target, _) => MeaningNeedsNoMore(w, ref.path, target, false, fuel - 1);
        case CopyFile(_, ref, target, _) => MeaningNeedsNoMore(w, ref.path, target, false, fuel - 1);
        case _ =>
      }
    }
  }
}
