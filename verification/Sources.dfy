/** src/sources/GitSource.js and src/sources/OciSource.js: references to files in Git repositories
    and OCI artifacts, their keys, and what can be read back from a key. */
module Sources {
  import opened Dockerfile
  import opened Text
  import opened SanitizeRelativePath

  datatype SourceError = BadReference | OptionLike | PathTraversal | NoTagOrDigest

  datatype Parsed<+T> = Ok(value: T) | Err(error: SourceError)

  function LowerChar(c: char): char {
    if 'A' <= c <= 'Z' then 'a' + (c - 'A') else c
  }

  function Lower(s: string): string {
    seq(|s|, i requires 0 <= i < |s| => LowerChar(s[i]))
  }

  predicate HasScheme(scheme: string, reference: string) {
    |reference| >= |scheme| && Lower(reference[..|scheme|]) == scheme
  }

  /** One scheme prefix is dropped, in any case of its letters. */
  function StripScheme(scheme: string, reference: string): string {
    if HasScheme(scheme, reference) then reference[|scheme|..] else reference
  }

  lemma {:induction false} SchemeStripped(scheme: string, rest: string)
    requires Lower(scheme) == scheme
    ensures HasScheme(scheme, scheme + rest) && StripScheme(scheme, scheme + rest) == rest
  {
    assert (scheme + rest)[..|scheme|] == scheme;
  }

  /** The texts agree up to the case of letters, whose codes differ by 32; `scheme` is in lower case. */
  predicate SchemeIn(start: string, scheme: string) {
    |start| == |scheme| &&
    forall i :: 0 <= i < |start| ==>
      var c, d := start[i] as int, scheme[i] as int;
      !(65 <= d <= 90) && if 65 <= c <= 90 then d == c + 32 else d == c
  }

  lemma {:induction false} LowerExactly(start: string, scheme: string)
    requires forall i :: 0 <= i < |scheme| ==> !('A' <= scheme[i] <= 'Z')
    ensures Lower(start) == scheme <==> SchemeIn(start, scheme)
  {
    if Lower(start) == scheme {
      forall i | 0 <= i < |start| ensures LowerChar(start[i]) == scheme[i] {
        assert Lower(start)[i] == scheme[i];
      }
    }
    if SchemeIn(start, scheme) {
      forall i | 0 <= i < |start| ensures LowerChar(start[i]) == scheme[i] {
      }
    }
  }

  /** A scheme is dropped in any case of its letters, and nothing else is. */
  lemma {:induction false} StripExactly(scheme: string, start: string, rest: string)
    requires |start| == |scheme| && forall i :: 0 <= i < |scheme| ==> !('A' <= scheme[i] <= 'Z')
    ensures StripScheme(scheme, start + rest) == if SchemeIn(start, scheme) then rest else start + rest
  {
    LowerExactly(start, scheme);
    assert (start + rest)[..|scheme|] == start && (start + rest)[|scheme|..] == rest;
  }

  predicate LooksLikeOption(s: string) {
    s != "" && s[0] == '-'
  }

  // Git

  const GIT_SCHEME := "git+"

  datatype Git = Git(repo: string, ref: string, filePath: string, oid: Option<string>)

  function MakeGit(repo: string, ref: string, filePath: string, oid: Option<string>): Parsed<Git> {
    if LooksLikeOption(repo) || LooksLikeOption(ref) then Err(OptionLike)
    else
      var clean := Sanitize(filePath);
      if clean.None? then Err(PathTraversal) else Ok(Git(repo, ref, clean.value, oid))
  }

  function ParseGit(reference: string): Parsed<Git> {
    var (repo, fragment) := CutFirst(StripScheme(GIT_SCHEME, reference), '#');
    if fragment.None? then Err(BadReference)
    else
      var (ref, filePath) := CutFirst(fragment.value, ':');
      if filePath.None? then Err(BadReference) else MakeGit(repo, ref, filePath.value, None)
  }

  predicate StartsWithDash(s: string) {
    |s| > 0 && s[0] == '-'
  }

  /** A Git reference is cut at the first '#' and the first ':' behind it. Parts that Git would take
      for an option are refused, and so is a path that climbs. */
  lemma {:induction false} GitParsedExactly(start: string, repo: string, ref: string, path: string)
    requires SchemeIn(start, "git+") && '#' !in repo && ':' !in ref
    ensures ParseGit(start + repo + "#" + ref + ":" + path)
            == if StartsWithDash(repo) || StartsWithDash(ref) then Err(OptionLike)
               else
                 match Sanitize(path)
                 case None => Err(PathTraversal)
                 case Some(clean) => Ok(Git(repo, ref, clean, None))
  {
    var fragment := ref + ":" + path;
    assert start + repo + "#" + ref + ":" + path == start + (repo + "#" + fragment);
    StripExactly(GIT_SCHEME, start, repo + "#" + fragment);
    CutFirstJoined(repo, '#', fragment);
    CutFirstJoined(ref, ':', path);
  }

  lemma {:induction false} GitMalformed(start: string, repo: string, fragment: string)
    requires SchemeIn(start, "git+") && '#' !in repo && ':' !in fragment
    ensures ParseGit(start + repo) == Err(BadReference)
    ensures ParseGit(start + repo + "#" + fragment) == Err(BadReference)
  {
    StripExactly(GIT_SCHEME, start, repo);
    CutFirstAbsent(repo, '#');
    assert start + repo + "#" + fragment == start + (repo + "#" + fragment);
    StripExactly(GIT_SCHEME, start, repo + "#" + fragment);
    CutFirstJoined(repo, '#', fragment);
    CutFirstAbsent(fragment, ':');
  }

  /** The commit when it is known, else the reference as written. */
  function GitIdent(g: Git): string {
    if g.oid.Some? then g.oid.value else g.ref
  }

  function GitKey(g: Git): string {
    GIT_SCHEME + g.repo + "#" + GitIdent(g) + ":" + g.filePath
  }

  function JoinGit(g: Git, rel: string): Parsed<Git> {
    MakeGit(g.repo, g.ref, Joined(g.filePath, rel), g.oid)
  }

  predicate HexChar(c: char) {
    '0' <= c <= '9' || 'a' <= c <= 'f' || 'A' <= c <= 'F'
  }

  predicate Hex(s: string) {
    s != "" && forall i :: 0 <= i < |s| ==> HexChar(s[i])
  }

  /** Parsing, then pinning to commits and joining relative paths, in any order. */
  datatype GitStep = PinGit(oid: string) | ChildGit(rel: string)

  function RunGit(reference: string, steps: seq<GitStep>): Parsed<Git> {
    if steps == [] then ParseGit(reference)
    else
      var before := RunGit(reference, steps[..|steps| - 1]);
      if before.Err? then before else StepGit(before.value, steps[|steps| - 1])
  }

  ghost predicate GitWellFormed(g: Git) {
    && '#' !in g.repo && ':' !in GitIdent(g) && ':' !in g.ref
    && !LooksLikeOption(g.repo) && !LooksLikeOption(g.ref) && !LooksLikeOption(GitIdent(g))
    && CleanPath(g.filePath)
  }

  ghost predicate GitForm(g: Parsed<Git>) {
    g.Ok? ==> GitWellFormed(g.value)
  }

  lemma {:induction false} ParsedGit(reference: string)
    ensures GitForm(ParseGit(reference))
  {
    var (repo, fragment) := CutFirst(StripScheme(GIT_SCHEME, reference), '#');
    if ParseGit(reference).Ok? {
      SanitizedIsClean(CutFirst(fragment.value, ':').1.value);
    }
  }

  lemma {:induction false} GitReachable(reference: string, steps: seq<GitStep>)
    requires forall s :: s in steps && s.PinGit? ==> Hex(s.oid)
    ensures GitForm(RunGit(reference, steps))
  {
    if steps == [] {
      ParsedGit(reference);
    } else {
      var before, step := steps[..|steps| - 1], steps[|steps| - 1];
      assert steps == before + [step];
      GitReachable(reference, before);
      if RunGit(reference, before).Ok? {
        GitStepKeeps(RunGit(reference, before).value, step);
      }
    }
  }

  function StepGit(g: Git, step: GitStep): Parsed<Git> {
    match step
    case PinGit(oid) => Ok(g.(oid := Some(oid)))
    case ChildGit(rel) => JoinGit(g, rel)
  }

  lemma {:induction false} GitStepKeeps(g: Git, step: GitStep)
    requires GitWellFormed(g) && (step.PinGit? ==> Hex(step.oid))
    ensures GitForm(StepGit(g, step))
  {
    if step.ChildGit? {
      SanitizedIsClean(Joined(g.filePath, step.rel));
    }
  }

  /** The commit that was pinned last. */
  function LastCommit(steps: seq<GitStep>): Option<string> {
    if steps == [] then None
    else
      match steps[|steps| - 1]
      case PinGit(oid) => Some(oid)
      case ChildGit(_) => LastCommit(steps[..|steps| - 1])
  }

  /** A child is the file that the join names, in the same repository at the same commit; it exists
      exactly if the join is accepted. */
  lemma {:induction false} GitChild(g: Git, rel: string)
    requires GitWellFormed(g)
    ensures StepGit(g, ChildGit(rel))
            == match JoinRelative(g.filePath, rel)
               case None => Err(PathTraversal)
               case Some(path) => Ok(Git(g.repo, g.ref, path, g.oid))
  {
  }

  /** Whatever is pinned and joined, the repository and the reference stay those that were parsed, and
      from the last pin on every source is identified by the pinned commit. */
  lemma {:induction false} GitIdentityKept(reference: string, steps: seq<GitStep>)
    requires RunGit(reference, steps).Ok?
    ensures ParseGit(reference).Ok?
    ensures var p, g := ParseGit(reference).value, RunGit(reference, steps).value;
            && g.repo == p.repo && g.ref == p.ref
            && GitIdent(g) == (if LastCommit(steps).Some? then LastCommit(steps).value else p.ref)
            && (g.oid.Some? ==> LastCommit(steps).Some?)
  {
    if steps != [] {
      GitIdentityKept(reference, steps[..|steps| - 1]);
    }
  }

  /** A printed key, read as a reference, gives the same repository, commit and path. */
  lemma {:induction false} GitKeyReadBack(g: Git)
    requires GitWellFormed(g)
    ensures ParseGit(GitKey(g)) == Ok(Git(g.repo, GitIdent(g), g.filePath, None))
  {
    var tail := GitIdent(g) + ":" + g.filePath;
    assert GitKey(g) == GIT_SCHEME + (g.repo + "#" + tail);
    assert Lower(GIT_SCHEME) == GIT_SCHEME;
    SchemeStripped(GIT_SCHEME, g.repo + "#" + tail);
    CutFirstJoined(g.repo, '#', tail);
    CutFirstJoined(GitIdent(g), ':', g.filePath);
  }

  /** Keys are equal exactly for equal identities. */
  lemma {:induction false} GitKeysIdentify(g: Git, h: Git)
    requires GitWellFormed(g) && GitWellFormed(h)
    ensures GitKey(g) == GitKey(h) <==> g.repo == h.repo && GitIdent(g) == GitIdent(h) && g.filePath == h.filePath
  {
    GitKeyReadBack(g);
    GitKeyReadBack(h);
  }

  // OCI

  const OCI_SCHEME := "oci://"

  datatype Oci = Oci(registry: string, repo: string, tag: string, digest: string, filePath: string)

  predicate AlgorithmChar(c: char) {
    'a' <= c <= 'z' || 'A' <= c <= 'Z' || '0' <= c <= '9' || c in "_+.-"
  }

  /** `algorithm:hex`. */
  predicate Digest(s: string) {
    var (algorithm, hex) := CutFirst(s, ':');
    algorithm != "" && (forall i :: 0 <= i < |algorithm| ==> AlgorithmChar(algorithm[i])) && hex.Some? && Hex(hex.value)
  }

  /** The parts around '@' if the text ends with '@' and a digest. A digest holds no '@'. */
  function CutDigest(s: string): Option<(string, string)> {
    var cut := CutLast(s, '@');
    if cut.Some? && Digest(cut.value.1) then cut else None
  }

  /** An empty tag or digest counts as none. */
  function MakeOci(registry: string, repo: string, tag: string, digest: string, filePath: string): Parsed<Oci> {
    if tag == "" && digest == "" then Err(NoTagOrDigest)
    else if LooksLikeOption(registry) || LooksLikeOption(repo) || LooksLikeOption(tag) || LooksLikeOption(digest)
    then Err(OptionLike)
    else
      var clean := Sanitize(filePath);
      if clean.None? then Err(PathTraversal) else Ok(Oci(registry, repo, tag, digest, clean.value))
  }

  /** repo@digest if it ends in a digest, else repo:tag, cut at the last colon. */
  function ParseArtifact(registry: string, artifact: string, filePath: string): Parsed<Oci> {
    var pinned, tagged := CutDigest(artifact), CutLast(artifact, ':');
    if pinned.Some? then
      if pinned.value.0 == "" then Err(BadReference)
      else MakeOci(registry, pinned.value.0, "", pinned.value.1, filePath)
    else if tagged.None? then Err(BadReference)
    else MakeOci(registry, tagged.value.0, tagged.value.1, "", filePath)
  }

  function ParseOci(reference: string): Parsed<Oci> {
    var (before, filePath) := CutFirst(StripScheme(OCI_SCHEME, reference), '#');
    if filePath.None? then Err(BadReference)
    else
      var (registry, artifact) := CutFirst(before, '/');
      if artifact.None? then Err(BadReference) else ParseArtifact(registry, artifact.value, filePath.value)
  }

  /** Letters, digits and "_", "+", ".", "-", by their codes. */
  predicate AlgorithmText(s: string) {
    s != "" && forall i :: 0 <= i < |s| ==>
      var code := s[i] as int;
      65 <= code <= 90 || 97 <= code <= 122 || 48 <= code <= 57 || code == 95 || code == 43 || code == 46 || code == 45
  }

  predicate HexText(s: string) {
    s != "" && forall i :: 0 <= i < |s| ==>
      var code := s[i] as int;
      48 <= code <= 57 || 65 <= code <= 70 || 97 <= code <= 102
  }

  lemma {:induction false} DigestExactly(algorithm: string, hex: string)
    requires ':' !in algorithm
    ensures Digest(algorithm + ":" + hex) <==> AlgorithmText(algorithm) && HexText(hex)
    ensures !Digest(algorithm)
  {
    CutFirstJoined(algorithm, ':', hex);
    CutFirstAbsent(algorithm, ':');
  }

  lemma {:induction false} NoColon(s: string)
    requires AlgorithmText(s) || HexText(s)
    ensures ':' !in s && '@' !in s && '#' !in s && '/' !in s
  {
  }

  /** What the constructor makes of the parts of a reference. */
  ghost predicate Made(registry: string, repo: string, tag: string, digest: string, path: string, r: Parsed<Oci>) {
    r == if StartsWithDash(registry) || StartsWithDash(repo) || StartsWithDash(tag) || StartsWithDash(digest)
         then Err(OptionLike)
         else
           match Sanitize(path)
           case None => Err(PathTraversal)
           case Some(clean) => Ok(Oci(registry, repo, tag, digest, clean))
  }

  lemma {:induction false} OciFront(start: string, registry: string, artifact: string, path: string)
    requires SchemeIn(start, "oci://") && '#' !in registry && '/' !in registry && '#' !in artifact
    ensures ParseOci(start + registry + "/" + artifact + "#" + path) == ParseArtifact(registry, artifact, path)
  {
    var front := registry + "/" + artifact;
    assert start + registry + "/" + artifact + "#" + path == start + (front + "#" + path);
    StripExactly(OCI_SCHEME, start, front + "#" + path);
    CutFirstJoined(front, '#', path);
    CutFirstJoined(registry, '/', artifact);
  }

  /** An OCI reference that ends in `@algorithm:hex` is pinned to this digest. */
  lemma {:induction false} OciPinnedExactly(start: string, registry: string, repo: string, algorithm: string,
                                            hex: string, path: string)
    requires SchemeIn(start, "oci://") && '#' !in registry && '/' !in registry && '#' !in repo
    requires AlgorithmText(algorithm) && HexText(hex)
    ensures var r := ParseOci(start + registry + "/" + (repo + "@" + algorithm + ":" + hex) + "#" + path);
            if repo == "" then r == Err(BadReference)
            else Made(registry, repo, "", algorithm + ":" + hex, path, r)
  {
    var digest, artifact := algorithm + ":" + hex, repo + "@" + algorithm + ":" + hex;
    NoColon(algorithm);
    NoColon(hex);
    DigestExactly(algorithm, hex);
    assert artifact == repo + ['@'] + digest;
    CutLastJoined(repo, '@', digest);
    OciFront(start, registry, artifact, path);
  }

  /** Every other one is cut at its last colon; without one, and without a tag, it is refused. */
  lemma {:induction false} OciTaggedExactly(start: string, registry: string, repo: string, tag: string, path: string)
    requires SchemeIn(start, "oci://") && '#' !in registry && '/' !in registry
    requires '#' !in repo + ":" + tag && ':' !in tag
    requires forall r, a, h :: AlgorithmText(a) && HexText(h) ==> repo + ":" + tag != r + "@" + a + ":" + h
    ensures var r := ParseOci(start + registry + "/" + (repo + ":" + tag) + "#" + path);
            if tag == "" then r == Err(NoTagOrDigest) else Made(registry, repo, tag, "", path, r)
  {
    var artifact := repo + ":" + tag;
    assert artifact == repo + [':'] + tag;
    CutLastJoined(repo, ':', tag);
    NotPinned(artifact);
    OciFront(start, registry, artifact, path);
  }

  lemma {:induction false} NotPinned(artifact: string)
    requires forall r, a, h :: AlgorithmText(a) && HexText(h) ==> artifact != r + "@" + a + ":" + h
    ensures CutDigest(artifact).None?
  {
    if CutDigest(artifact).Some? {
      var (r, d) := CutDigest(artifact).value;
      var (a, h) := CutFirst(d, ':');
      assert d == a + ":" + h.value;
      DigestExactly(a, h.value);
    }
  }

  lemma {:induction false} NotTagged(artifact: string)
    requires ':' !in artifact
    ensures CutDigest(artifact).None? && CutLast(artifact, ':').None?
  {
    var cut := CutLast(artifact, '@');
    if cut.Some? {
      assert ':' !in cut.value.1;
      CutFirstAbsent(cut.value.1, ':');
    }
  }

  /** A reference without '#', without '/' before it, or without ':' behind that is refused. */
  lemma {:induction false} OciMalformed(start: string, text: string, path: string)
    requires SchemeIn(start, "oci://") && '#' !in text
    ensures ParseOci(start + text) == Err(BadReference)
    ensures '/' !in text || ':' !in text ==> ParseOci(start + (text + "#" + path)) == Err(BadReference)
  {
    StripExactly(OCI_SCHEME, start, text);
    CutFirstAbsent(text, '#');
    StripExactly(OCI_SCHEME, start, text + "#" + path);
    CutFirstJoined(text, '#', path);
    if '/' !in text {
      CutFirstAbsent(text, '/');
    } else if ':' !in text {
      NotTagged(CutFirst(text, '/').1.value);
    }
  }

  function OciIdent(o: Oci): string {
    if o.digest != "" then "@" + o.digest else ":" + o.tag
  }

  function OciKey(o: Oci): string {
    OCI_SCHEME + (o.registry + "/" + (o.repo + OciIdent(o))) + "#" + o.filePath
  }

  function JoinOci(o: Oci, rel: string): Parsed<Oci> {
    MakeOci(o.registry, o.repo, o.tag, o.digest, Joined(o.filePath, rel))
  }

  datatype OciStep = PinOci(digest: string) | ChildOci(rel: string)

  function RunOci(reference: string, steps: seq<OciStep>): Parsed<Oci> {
    if steps == [] then ParseOci(reference)
    else
      var before := RunOci(reference, steps[..|steps| - 1]);
      if before.Err? then before else StepOci(before.value, steps[|steps| - 1])
  }

  function StepOci(o: Oci, step: OciStep): Parsed<Oci> {
    match step
    case PinOci(digest) => Ok(o.(digest := digest))
    case ChildOci(rel) => JoinOci(o, rel)
  }

  ghost predicate OciWellFormed(o: Oci) {
    && '#' !in o.registry && '/' !in o.registry && '#' !in o.repo && '#' !in o.tag && ':' !in o.tag
    && !LooksLikeOption(o.registry) && !LooksLikeOption(o.repo) && !LooksLikeOption(o.tag)
    && (o.digest != "" ==> Digest(o.digest))
    && (o.digest == "" ==> o.tag != "" && CutDigest(o.repo + ":" + o.tag).None?)
    && CleanPath(o.filePath)
  }

  lemma {:induction false} DigestCharacters(s: string)
    requires Digest(s)
    ensures '#' !in s && '@' !in s
  {
    var (algorithm, hex) := CutFirst(s, ':');
    assert s == algorithm + [':'] + hex.value;
  }

  lemma {:induction false} WholeOfPart(a: string, c: char, b: string, x: char)
    requires x !in a + [c] + b
    ensures x !in a && x !in b
  {
    assert forall i :: 0 <= i < |a| ==> (a + [c] + b)[i] == a[i];
    assert forall i :: 0 <= i < |b| ==> (a + [c] + b)[|a| + 1 + i] == b[i];
  }

  ghost predicate OciForm(o: Parsed<Oci>) {
    o.Ok? ==> OciWellFormed(o.value)
  }

  lemma {:induction false} TaggedOci(registry: string, artifact: string, repo: string, tag: string, filePath: string)
    requires '#' !in registry && '/' !in registry && '#' !in artifact && CutDigest(artifact).None?
    requires artifact == repo + [':'] + tag && ':' !in tag
    ensures OciForm(MakeOci(registry, repo, tag, "", filePath))
  {
    WholeOfPart(repo, ':', tag, '#');
    assert artifact == repo + ":" + tag;
    SanitizedIsClean(filePath);
  }

  lemma {:induction false} PinnedOci(registry: string, repo: string, digest: string, filePath: string)
    requires '#' !in registry && '/' !in registry && '#' !in repo && Digest(digest)
    ensures OciForm(MakeOci(registry, repo, "", digest, filePath))
  {
    SanitizedIsClean(filePath);
  }

  lemma {:induction false} ParsedArtifact(registry: string, artifact: string, filePath: string)
    requires '#' !in registry && '/' !in registry && '#' !in artifact
    ensures OciForm(ParseArtifact(registry, artifact, filePath))
  {
    var pinned, tagged := CutDigest(artifact), CutLast(artifact, ':');
    if pinned.Some? {
      WholeOfPart(pinned.value.0, '@', pinned.value.1, '#');
      PinnedOci(registry, pinned.value.0, pinned.value.1, filePath);
    } else if tagged.Some? {
      TaggedOci(registry, artifact, tagged.value.0, tagged.value.1, filePath);
    }
  }

  lemma {:induction false} ParsedOci(reference: string)
    ensures OciForm(ParseOci(reference))
  {
    var (before, filePath) := CutFirst(StripScheme(OCI_SCHEME, reference), '#');
    var (registry, artifact) := CutFirst(before, '/');
    if filePath.Some? && artifact.Some? {
      WholeOfPart(registry, '/', artifact.value, '#');
      ParsedArtifact(registry, artifact.value, filePath.value);
    }
  }

  /** Whatever is parsed, pinned to digests and joined keeps the form that the keys rely on. */
  lemma {:induction false} OciReachable(reference: string, steps: seq<OciStep>)
    requires forall s :: s in steps && s.PinOci? ==> Digest(s.digest)
    ensures OciForm(RunOci(reference, steps))
  {
    if steps == [] {
      ParsedOci(reference);
    } else {
      var before, step := steps[..|steps| - 1], steps[|steps| - 1];
      assert steps == before + [step];
      OciReachable(reference, before);
      if RunOci(reference, before).Ok? {
        OciStepKeeps(RunOci(reference, before).value, step);
      }
    }
  }

  lemma {:induction false} OciStepKeeps(o: Oci, step: OciStep)
    requires OciWellFormed(o) && (step.PinOci? ==> Digest(step.digest))
    ensures OciForm(StepOci(o, step))
  {
    if step.ChildOci? {
      SanitizedIsClean(Joined(o.filePath, step.rel));
    }
  }

  /** A child is the file that the join names, in the same artifact under the same tag and digest. */
  lemma {:induction false} OciChild(o: Oci, rel: string)
    requires OciWellFormed(o)
    ensures StepOci(o, ChildOci(rel))
            == if LooksLikeOption(o.digest) then Err(OptionLike)
               else
                 match JoinRelative(o.filePath, rel)
                 case None => Err(PathTraversal)
                 case Some(path) => Ok(Oci(o.registry, o.repo, o.tag, o.digest, path))
  {
  }

  /** The digest that was pinned last. */
  function LastDigest(steps: seq<OciStep>): Option<string> {
    if steps == [] then None
    else
      match steps[|steps| - 1]
      case PinOci(digest) => Some(digest)
      case ChildOci(_) => LastDigest(steps[..|steps| - 1])
  }

  /** Registry, repository and tag stay those that were parsed, and the digest is that of the last
      pin. */
  lemma {:induction false} OciIdentityKept(reference: string, steps: seq<OciStep>)
    requires RunOci(reference, steps).Ok?
    ensures ParseOci(reference).Ok?
    ensures var p, o := ParseOci(reference).value, RunOci(reference, steps).value;
            && o.registry == p.registry && o.repo == p.repo && o.tag == p.tag
            && o.digest == (if LastDigest(steps).Some? then LastDigest(steps).value else p.digest)
  {
    if steps != [] {
      OciIdentityKept(reference, steps[..|steps| - 1]);
    }
  }

  /** The key's identity, as a fresh reference would hold it. */
  function OciIdentity(o: Oci): Oci {
    if o.digest != "" then o.(tag := "") else o
  }

  lemma {:induction false} OciText(registry: string, artifact: string, filePath: string)
    requires '#' !in registry && '/' !in registry && '#' !in artifact
    ensures var front := registry + "/" + artifact;
            && CutFirst(StripScheme(OCI_SCHEME, OCI_SCHEME + front + "#" + filePath), '#') == (front, Some(filePath))
            && CutFirst(front, '/') == (registry, Some(artifact))
  {
    var front := registry + "/" + artifact;
    assert OCI_SCHEME + front + "#" + filePath == OCI_SCHEME + (front + "#" + filePath);
    assert Lower(OCI_SCHEME) == OCI_SCHEME;
    SchemeStripped(OCI_SCHEME, front + "#" + filePath);
    CutFirstJoined(front, '#', filePath);
    CutFirstJoined(registry, '/', artifact);
  }

  lemma {:induction false} OciKeyParts(o: Oci)
    requires OciWellFormed(o)
    ensures var front := o.registry + "/" + (o.repo + OciIdent(o));
            && CutFirst(StripScheme(OCI_SCHEME, OciKey(o)), '#') == (front, Some(o.filePath))
            && CutFirst(front, '/') == (o.registry, Some(o.repo + OciIdent(o)))
  {
    if o.digest != "" {
      DigestCharacters(o.digest);
    }
    OciText(o.registry, o.repo + OciIdent(o), o.filePath);
  }

  /** The digest test on repository and identity finds the digest form and nothing else. */
  lemma {:induction false} IdentCut(o: Oci)
    requires OciWellFormed(o)
    ensures o.digest != "" ==> CutDigest(o.repo + OciIdent(o)) == Some((o.repo, o.digest))
    ensures o.digest == "" ==>
              CutDigest(o.repo + OciIdent(o)).None? && CutLast(o.repo + OciIdent(o), ':') == Some((o.repo, o.tag))
  {
    if o.digest != "" {
      DigestCharacters(o.digest);
      assert o.repo + OciIdent(o) == o.repo + ['@'] + o.digest;
      CutLastJoined(o.repo, '@', o.digest);
    } else {
      assert o.repo + OciIdent(o) == o.repo + [':'] + o.tag;
      CutLastJoined(o.repo, ':', o.tag);
    }
  }

  /** A printed key reads back as the same artifact and path: as a digest if it was printed as
      one, and as a tag otherwise. Only two kinds of pinned artifacts have a key that is no
      reference: those without a repository name, and those whose digest starts with '-'. */
  lemma {:induction false} OciKeyReadBack(o: Oci)
    requires OciWellFormed(o)
    ensures ParseOci(OciKey(o)) ==
            if o.digest != "" && o.repo == "" then Err(BadReference)
            else if LooksLikeOption(o.digest) then Err(OptionLike)
            else Ok(OciIdentity(o))
  {
    OciKeyParts(o);
    ArtifactReadBack(o);
  }

  lemma {:induction false} ArtifactReadBack(o: Oci)
    requires OciWellFormed(o)
    ensures ParseArtifact(o.registry, o.repo + OciIdent(o), o.filePath) ==
            if o.digest != "" && o.repo == "" then Err(BadReference)
            else if LooksLikeOption(o.digest) then Err(OptionLike)
            else Ok(OciIdentity(o))
  {
    IdentCut(o);
  }

  /** Keys are equal exactly for equal identities. */
  lemma {:induction false} OciKeysIdentify(o: Oci, q: Oci)
    requires OciWellFormed(o) && OciWellFormed(q)
    ensures OciKey(o) == OciKey(q)
            <==> OciIdentity(o).(tag := "", digest := "") == OciIdentity(q).(tag := "", digest := "")
                                        && OciIdent(o) == OciIdent(q)
  {
    OciKeyParts(o);
    OciKeyParts(q);
    if OciKey(o) == OciKey(q) {
      OciIdentsApart(o, q);
    }
  }

  lemma {:induction false} OciIdentsApart(o: Oci, q: Oci)
    requires OciWellFormed(o) && OciWellFormed(q) && o.repo + OciIdent(o) == q.repo + OciIdent(q)
    ensures o.repo == q.repo && OciIdent(o) == OciIdent(q)
  {
    IdentCut(o);
    IdentCut(q);
  }

  // All sources

  /** What identifies the text behind a source. Local keys hold absolute paths, HTTP keys URLs. */
  datatype Source = LocalFile(absPath: string) | Http(url: string) | GitFile(git: Git) | OciFile(oci: Oci)

  function Key(s: Source): string {
    match s
    case LocalFile(absPath) => "local:" + absPath
    case Http(url) => url
    case GitFile(g) => GitKey(g)
    case OciFile(o) => OciKey(o)
  }

  ghost predicate SourceOk(s: Source) {
    match s
    case LocalFile(_) => true
    case Http(url) => HasScheme("http://", url) || HasScheme("https://", url)
    case GitFile(g) => GitWellFormed(g)
    case OciFile(o) => OciWellFormed(o)
  }

  /** Keys of different kinds of sources never coincide. */
  lemma {:induction false} KeysOfSchemesApart(s: Source, t: Source)
    requires SourceOk(s) && SourceOk(t) && Key(s) == Key(t)
    ensures s.LocalFile? == t.LocalFile? && s.Http? == t.Http? && s.GitFile? == t.GitFile? && s.OciFile? == t.OciFile?
  {
    KeyStart(s);
    KeyStart(t);
  }

  /** What a key identifies. */
  ghost predicate SameText(s: Source, t: Source) {
    match s
    case LocalFile(absPath) => t.LocalFile? && t.absPath == absPath
    case Http(url) => t.Http? && t.url == url
    case GitFile(g) =>
      t.GitFile? && t.git.repo == g.repo && GitIdent(t.git) == GitIdent(g) && t.git.filePath == g.filePath
    case OciFile(o) =>
      t.OciFile? && t.oci.registry == o.registry && t.oci.repo == o.repo && OciIdent(t.oci) == OciIdent(o)
      && t.oci.filePath == o.filePath
  }

  /** Keys of any two sources are equal exactly for the same text behind them. */
  lemma {:induction false} KeysIdentify(s: Source, t: Source)
    requires SourceOk(s) && SourceOk(t)
    ensures Key(s) == Key(t) <==> SameText(s, t)
  {
    if Key(s) == Key(t) {
      KeysOfSchemesApart(s, t);
    }
    if s.GitFile? && t.GitFile? {
      GitKeysIdentify(s.git, t.git);
    } else if s.OciFile? && t.OciFile? {
      OciKeysIdentify(s.oci, t.oci);
    } else if s.LocalFile? && t.LocalFile? {
      assert Key(s)[6..] == s.absPath && Key(t)[6..] == t.absPath;
    }
  }

  lemma {:induction false} KeyStart(s: Source)
    requires SourceOk(s)
    ensures Key(s) != ""
    ensures LowerChar(Key(s)[0]) ==
            match s { case LocalFile(_) => 'l' case Http(_) => 'h' case GitFile(_) => 'g' case OciFile(_) => 'o' }
  {
    if s.Http? {
      var scheme := if HasScheme("http://", s.url) then "http://" else "https://";
      assert Lower(s.url[..|scheme|])[0] == scheme[0];
    } else if s.GitFile? {
      assert GitKey(s.git)[0] == GIT_SCHEME[0];
    } else if s.OciFile? {
      assert OciKey(s.oci)[0] == OCI_SCHEME[0];
    }
  }
}
