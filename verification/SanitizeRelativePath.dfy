/** src/sources/sanitizeRelativePath.js and the joins of GitSource and OciSource: paths inside a
    remote source. */
module SanitizeRelativePath {
  import opened Dockerfile
  import opened Text

  predicate Slash(c: char) {
    c == '/'
  }

  predicate AnySlash(c: char) {
    c == '/' || c == '\\'
  }

  function StripLeading(s: string): (r: string)
    ensures r == "" || r[0] != '/'
  {
    if s != "" && s[0] == '/' then StripLeading(s[1..]) else s
  }

  /** The path without leading slashes; nothing if one of its segments is "..". */
  function Sanitize(path: string): Option<string> {
    var cleaned := StripLeading(path);
    if ".." in Split(AnySlash, cleaned) then None else Some(cleaned)
  }

  /** A path that the constructor accepts as it is. */
  predicate CleanPath(path: string) {
    Sanitize(path) == Some(path)
  }

  lemma {:induction false} SanitizedIsClean(path: string)
    ensures Sanitize(path).Some? ==> CleanPath(Sanitize(path).value)
    ensures CleanPath(path) <==> (path == "" || path[0] != '/') && ".." !in Split(AnySlash, path)
  {
    StripFixed(path);
    StripFixed(StripLeading(path));
  }

  lemma {:induction false} StripFixed(s: string)
    ensures StripLeading(s) == s <==> s == "" || s[0] != '/'
    ensures |StripLeading(s)| <= |s|
  {
    if s != "" && s[0] == '/' {
      StripFixed(s[1..]);
    }
  }

  // POSIX paths

  function StripTrailing(s: string): string {
    if s != "" && s[|s| - 1] == '/' then StripTrailing(s[..|s| - 1]) else s
  }

  /** path.posix.dirname of a relative path. */
  function Dirname(path: string): string {
    var cut := CutLast(StripTrailing(path), '/');
    if cut.None? then "." else cut.value.0
  }

  /** One step of path.posix.normalize on a relative path. */
  function Walk(stack: seq<string>, segment: string): seq<string> {
    if segment == "" || segment == "." then stack
    else if segment != ".." || stack == [] || stack[|stack| - 1] == ".." then stack + [segment]
    else stack[..|stack| - 1]
  }

  function WalkAll(segments: seq<string>): seq<string> {
    if segments == [] then [] else Walk(WalkAll(segments[..|segments| - 1]), segments[|segments| - 1])
  }

  function Normalize(path: string): string {
    var stack := WalkAll(Split(Slash, path));
    if stack == [] then (if path != "" && path[|path| - 1] == '/' then "./" else ".")
    else if path != "" && path[|path| - 1] == '/' then Join('/', stack) + "/"
    else Join('/', stack)
  }

  /** path.posix.join(dirname(parent), rel). */
  function Joined(parent: string, rel: string): string {
    Normalize(if rel == "" then Dirname(parent) else Dirname(parent) + "/" + rel)
  }

  /** joinRelative: the child's path, or nothing if the constructor refuses it. */
  function JoinRelative(parent: string, rel: string): Option<string> {
    Sanitize(Joined(parent, rel))
  }

  // Exactly the joins that climb out are refused

  /** How far below its start a walk over the segments ends. */
  function Depth(segments: seq<string>): int {
    if segments == [] then 0
    else
      var s := segments[|segments| - 1];
      Depth(segments[..|segments| - 1]) + (if s == "" || s == "." then 0 else if s == ".." then -1 else 1)
  }

  ghost predicate StaysInside(segments: seq<string>) {
    forall k :: 0 <= k <= |segments| ==> Depth(segments[..k]) >= 0
  }

  lemma {:induction false} StaysInsideSnoc(segments: seq<string>)
    requires segments != []
    ensures StaysInside(segments) <==> StaysInside(segments[..|segments| - 1]) && Depth(segments) >= 0
  {
    var before := segments[..|segments| - 1];
    assert forall k :: 0 <= k <= |before| ==> before[..k] == segments[..k];
    assert segments[..|segments|] == segments;
  }

  /** The stack keeps a ".." exactly when the walk climbed above its start. */
  lemma {:induction false} StackClimbs(segments: seq<string>)
    ensures ".." !in WalkAll(segments) <==> StaysInside(segments)
    ensures ".." !in WalkAll(segments) ==> |WalkAll(segments)| == Depth(segments)
    ensures ".." in WalkAll(segments) ==> WalkAll(segments)[0] == ".."
  {
    if segments != [] {
      var before, s := segments[..|segments| - 1], segments[|segments| - 1];
      StackClimbs(before);
      StaysInsideSnoc(segments);
      var stack := WalkAll(before);
      if stack != [] {
        assert stack == stack[..|stack| - 1] + [stack[|stack| - 1]];
      }
    }
  }

  lemma {:induction false} StackSegments(segments: seq<string>, x: string)
    requires x in WalkAll(segments)
    ensures x != "" && x != "." && x in segments
  {
    var before, s := segments[..|segments| - 1], segments[|segments| - 1];
    assert segments == before + [s];
    if x in WalkAll(before) {
      StackSegments(before, x);
    }
  }

  predicate NoBackslash(s: string) {
    '\\' !in s
  }

  lemma {:induction false} SplitAppend(sep: char -> bool, c: char, a: string, s: string)
    requires sep(c)
    ensures Split(sep, a + [c] + s) == Split(sep, a) + Split(sep, s)
  {
    var t := a + [c] + s;
    if a == "" {
      assert t[1..] == s;
    } else {
      assert t[1..] == a[1..] + [c] + s;
      SplitAppend(sep, c, a[1..], s);
    }
  }

  /** A segment that climbs: it is "..", or has a ".." between backslashes. */
  predicate Climbs(segment: string) {
    ".." in Split(AnySlash, segment)
  }

  lemma {:induction false} ClimbsPlain(segment: string)
    requires NoBackslash(segment) && Whole(Slash, segment)
    ensures Climbs(segment) <==> segment == ".."
  {
    forall j | 0 <= j < |segment| ensures !AnySlash(segment[j]) {
      assert segment[j] in segment;
    }
    SplitJoined(AnySlash, '/', segment, "");
  }

  /** Two dots stand at position i, between ends of the path or slashes of either kind. */
  predicate DotsAt(s: string, i: int) {
    && 0 <= i <= |s| - 2 && s[i] == '.' && s[i + 1] == '.'
    && (i == 0 || s[i - 1] == '/' || s[i - 1] == '\\')
    && (i == |s| - 2 || s[i + 2] == '/' || s[i + 2] == '\\')
  }

  lemma {:induction false} FirstSlash(s: string) returns (k: nat)
    ensures k <= |s| && Whole(AnySlash, s[..k]) && (k < |s| ==> AnySlash(s[k]))
  {
    k := 0;
    while k < |s| && !AnySlash(s[k])
      invariant k <= |s| && Whole(AnySlash, s[..k])
    {
      k := k + 1;
    }
  }

  lemma {:induction false} DotsBehind(a: string, c: char, b: string, i: int)
    requires AnySlash(c) && Whole(AnySlash, a)
    ensures DotsAt(a + [c] + b, i) <==> (i == 0 && a == "..") || DotsAt(b, i - |a| - 1)
  {
    var s := a + [c] + b;
    assert s[|a|] == c;
    assert forall j :: 0 <= j < |a| ==> s[j] == a[j];
    assert forall j :: 0 <= j < |b| ==> s[|a| + 1 + j] == b[j];
    if a == ".." {
      assert a[0] == '.' && a[1] == '.' && s[2] == c;
    }
  }

  /** A path climbs exactly if two dots stand alone in it. */
  lemma {:induction false} ClimbsExactly(s: string)
    ensures Climbs(s) <==> exists i :: DotsAt(s, i)
    decreases |s|
  {
    var k := FirstSlash(s);
    if k == |s| {
      assert s[..k] == s;
      SplitJoined(AnySlash, '/', s, "");
      if s == ".." {
        assert DotsAt(s, 0);
      }
    } else {
      var a, c, b := s[..k], s[k], s[k + 1..];
      assert s == a + [c] + b;
      ClimbsExactly(b);
      SplitJoined(AnySlash, c, a, b);
      forall i: int ensures DotsAt(s, i) <==> (i == 0 && a == "..") || DotsAt(b, i - k - 1) {
        DotsBehind(a, c, b, i);
      }
      if i: int :| DotsAt(b, i) {
        assert DotsAt(s, i + k + 1);
      } else if a == ".." {
        assert DotsAt(s, 0);
      }
    }
  }

  /** A path is refused exactly if, behind its leading slashes, two dots stand alone in it; else those
      slashes are all that is dropped. */
  lemma {:induction false} SanitizedExactly(path: string, n: nat)
    requires n <= |path| && (forall k :: 0 <= k < n ==> path[k] == '/') && (n < |path| ==> path[n] != '/')
    ensures Sanitize(path) == if exists i :: DotsAt(path[n..], i) then None else Some(path[n..])
  {
    SlashesStripped(path, n);
    ClimbsExactly(path[n..]);
  }

  lemma {:induction false} SlashesStripped(path: string, n: nat)
    requires n <= |path| && (forall k :: 0 <= k < n ==> path[k] == '/') && (n < |path| ==> path[n] != '/')
    ensures StripLeading(path) == path[n..]
  {
    if n > 0 {
      SlashesStripped(path[1..], n - 1);
      assert path[1..][n - 1..] == path[n..];
    }
  }

  predicate SomeClimbs(parts: seq<string>) {
    exists x :: x in parts && Climbs(x)
  }

  lemma {:induction false} SomeClimbsCons(x: string, parts: seq<string>)
    ensures SomeClimbs([x] + parts) <==> Climbs(x) || SomeClimbs(parts)
  {
    assert x in [x] + parts;
    assert forall y :: y in [x] + parts <==> y == x || y in parts;
  }

  lemma {:induction false} JoinClimbs(parts: seq<string>)
    requires parts != []
    ensures Climbs(Join('/', parts)) <==> SomeClimbs(parts)
  {
    var x, rest := parts[0], parts[1..];
    assert parts == [x] + rest;
    SomeClimbsCons(x, rest);
    if rest != [] {
      JoinClimbs(rest);
      ClimbsAppended(x, Join('/', rest));
    }
  }

  lemma {:induction false} ClimbsAppended(a: string, s: string)
    ensures Climbs(a + ['/'] + s) <==> Climbs(a) || Climbs(s)
  {
    SplitAppend(AnySlash, '/', a, s);
  }

  lemma {:induction false} TrailingClimbs(s: string)
    ensures Climbs(s + "/") <==> Climbs(s)
  {
    ClimbsAppended(s, "");
    assert s + "/" == s + ['/'] + "" && Split(AnySlash, "") == [""];
  }

  /** A normalised path climbs if a segment on the stack does, and it does not start with a slash. */
  lemma {:induction false} NormalizedClimbs(path: string)
    ensures Climbs(Normalize(path)) <==> SomeClimbs(WalkAll(Split(Slash, path)))
    ensures Normalize(path) != "" && Normalize(path)[0] != '/'
  {
    var segments := Split(Slash, path);
    var stack := WalkAll(segments);
    if stack == [] {
      ClimbsPlain(".");
      TrailingClimbs(".");
      assert "." + "/" == "./";
    } else {
      JoinClimbs(stack);
      TrailingClimbs(Join('/', stack));
      StackSegments(segments, stack[0]);
      var i :| 0 <= i < |segments| && segments[i] == stack[0];
      assert !Slash(stack[0][0]);
      assert Join('/', stack)[0] == stack[0][0];
    }
  }

  // The directory of a path

  /** The path consists of these segments, one more, and n empty ones. */
  predicate EndsWith(path: string, front: seq<string>, x: string, n: nat) {
    Split(Slash, path) == front + [x] + seq(n, _ => "")
  }

  /** The segments before the last one that is not empty. */
  ghost predicate Directory(path: string, front: seq<string>) {
    exists x, n: nat :: EndsWith(path, front, x, n) && (x != "" || (front == [] && n == 0))
  }

  lemma {:induction false} OneSegment(s: string)
    ensures |Split(Slash, s)| == 1 ==> Split(Slash, s) == [s]
  {
    if s != "" {
      OneSegment(s[1..]);
      assert [s[0]] + s[1..] == s;
    }
  }

  lemma {:induction false} LastSegment(s: string)
    ensures Split(Slash, s)[|Split(Slash, s)| - 1] == "" <==> s == "" || s[|s| - 1] == '/'
  {
    if s != "" {
      var rest := Split(Slash, s[1..]);
      LastSegment(s[1..]);
      OneSegment(s[1..]);
      if |s| == 1 {
        assert s[1..] == "" && rest == [""];
      } else {
        assert s[1..][|s| - 2] == s[|s| - 1];
        LastOfTail(s[0], rest);
      }
    }
  }

  lemma {:induction false} LastOfTail(c: char, rest: seq<string>)
    requires rest != []
    ensures ([""] + rest)[|rest|] == rest[|rest| - 1]
    ensures |rest| > 1 ==> ([[c] + rest[0]] + rest[1..])[|rest| - 1] == rest[|rest| - 1]
  {
  }

  /** Cutting at the last slash cuts off the last segment. */
  lemma {:induction false} CutSegment(s: string, front: seq<string>, x: string)
    requires Split(Slash, s) == front + [x]
    ensures front == [] ==> CutLast(s, '/').None?
    ensures front != [] ==> CutLast(s, '/').Some? && Split(Slash, CutLast(s, '/').value.0) == front
  {
    var cut := CutLast(s, '/');
    if cut.Some? {
      var (b, y) := cut.value;
      SplitAppend(Slash, '/', b, y);
      forall j | 0 <= j < |y| ensures !Slash(y[j]) {
        assert y[j] in y;
      }
      SplitJoined(Slash, '/', y, "");
      assert Split(Slash, s) == Split(Slash, b) + [y];
      assert Split(Slash, s)[..|Split(Slash, s)| - 1] == Split(Slash, b);
    } else {
      forall j | 0 <= j < |s| ensures !Slash(s[j]) {
        assert s[j] in s;
      }
      SplitJoined(Slash, '/', s, "");
    }
  }

  lemma {:induction false} BlankDropped(path: string, front: seq<string>, x: string, n: nat)
    requires EndsWith(path, front, x, n) && n > 0
    ensures path != "" && path[|path| - 1] == '/' && EndsWith(path[..|path| - 1], front, x, n - 1)
  {
    var q := path[..|path| - 1];
    LastSegment(path);
    assert Split(Slash, path)[|Split(Slash, path)| - 1] == "" && |Split(Slash, path)| > 1;
    assert path != "" && path == q + ['/'] + "";
    SplitAppend(Slash, '/', q, "");
    assert Split(Slash, "") == [""];
    assert Split(Slash, path)[..|Split(Slash, path)| - 1] == Split(Slash, q);
  }

  lemma {:induction false} TrailingDropped(path: string, front: seq<string>, x: string, n: nat)
    requires EndsWith(path, front, x, n) && x != ""
    ensures Split(Slash, StripTrailing(path)) == front + [x]
  {
    if n == 0 {
      LastSegment(path);
      assert front + [x] + [] == front + [x];
    } else {
      BlankDropped(path, front, x, n);
      TrailingDropped(path[..|path| - 1], front, x, n - 1);
    }
  }

  lemma {:induction false} DirnameSegments(path: string, front: seq<string>)
    requires Directory(path, front)
    ensures front == [] ==> Dirname(path) == "."
    ensures front != [] ==> Split(Slash, Dirname(path)) == front
  {
    var x, n: nat :| EndsWith(path, front, x, n) && (x != "" || (front == [] && n == 0));
    if x == "" {
      LastSegment(path);
      assert path == "";
    } else {
      TrailingDropped(path, front, x, n);
      CutSegment(StripTrailing(path), front, x);
    }
  }

  /** Every path that does not start with a slash has a directory. */
  lemma {:induction false} DirectoryOf(path: string) returns (front: seq<string>)
    requires path == "" || path[0] != '/'
    ensures Directory(path, front)
  {
    var segments := Split(Slash, path);
    if path == "" {
      front := [];
      assert EndsWith(path, [], "", 0);
    } else {
      var n := 0;
      assert segments[0] != "";
      while segments[|segments| - 1 - n] == ""
        invariant n < |segments| && forall k :: |segments| - n <= k < |segments| ==> segments[k] == ""
        decreases |segments| - n
      {
        n := n + 1;
      }
      front := segments[..|segments| - 1 - n];
      assert EndsWith(path, front, segments[|segments| - 1 - n], n);
    }
  }

  // The walk of a join

  /** What is walked by a join: dirname(parent)/rel. */
  function JoinWalk(parent: string, rel: string): seq<string> {
    Split(Slash, if rel == "" then Dirname(parent) else Dirname(parent) + "/" + rel)
  }

  lemma {:induction false} WalkTail(a: seq<string>, more: seq<string>)
    requires more != []
    ensures WalkAll(a + more) == Walk(WalkAll(a + more[..|more| - 1]), more[|more| - 1])
  {
    assert (a + more)[..|a + more| - 1] == a + more[..|more| - 1];
  }

  lemma {:induction false} WalkMore(a: seq<string>, b: seq<string>, more: seq<string>)
    requires WalkAll(a) == WalkAll(b)
    ensures WalkAll(a + more) == WalkAll(b + more)
  {
    if more == [] {
      assert a + more == a && b + more == b;
    } else {
      WalkMore(a, b, more[..|more| - 1]);
      WalkTail(a, more);
      WalkTail(b, more);
    }
  }

  /** A join walks the directory of the parent and then the relative path. */
  lemma {:induction false} JoinWalks(parent: string, front: seq<string>, rel: string)
    requires Directory(parent, front)
    ensures WalkAll(JoinWalk(parent, rel)) == WalkAll(front + Split(Slash, rel))
  {
    var start := Split(Slash, Dirname(parent));
    DirnameSegments(parent, front);
    SplitJoined(Slash, '/', ".", "");
    assert WalkAll(start) == WalkAll(front) by {
      assert ["."][..0] == [];
    }
    if rel == "" {
      assert (front + [""])[..|front|] == front && Split(Slash, "") == [""];
    } else {
      SplitAppend(Slash, '/', Dirname(parent), rel);
      WalkMore(start, front, Split(Slash, rel));
    }
  }

  // Where a join leads

  /** path.resolve under an absolute directory, on segments. */
  function Resolved(dir: seq<string>, segments: seq<string>): seq<string> {
    if segments == [] then dir
    else
      var at, s := Resolved(dir, segments[..|segments| - 1]), segments[|segments| - 1];
      if s == "" || s == "." then at
      else if s == ".." then (if at == [] then [] else at[..|at| - 1])
      else at + [s]
  }

  lemma {:induction false} ResolvedConcat(dir: seq<string>, a: seq<string>, b: seq<string>)
    ensures Resolved(dir, a + b) == Resolved(Resolved(dir, a), b)
  {
    if b == [] {
      assert a + b == a;
    } else {
      assert (a + b)[..|a + b| - 1] == a + b[..|b| - 1];
      ResolvedConcat(dir, a, b[..|b| - 1]);
    }
  }

  /** A walk that stays inside leads where its stack says. */
  lemma {:induction false} ResolvedWalk(dir: seq<string>, segments: seq<string>)
    requires StaysInside(segments)
    ensures Resolved(dir, segments) == dir + WalkAll(segments)
  {
    if segments != [] {
      var before, s := segments[..|segments| - 1], segments[|segments| - 1];
      StaysInsideSnoc(segments);
      ResolvedWalk(dir, before);
      StackClimbs(before);
      StackClimbs(segments);
      if s == ".." {
        assert WalkAll(before) != [];
      }
    } else {
      assert dir + [] == dir;
    }
  }

  predicate PlainSegment(s: string) {
    s != "" && s != "." && s != ".." && Whole(Slash, s)
  }

  lemma {:induction false} ResolvedPlain(dir: seq<string>, stack: seq<string>)
    requires forall x :: x in stack ==> PlainSegment(x)
    ensures Resolved(dir, stack) == dir + stack
  {
    if stack == [] {
      assert dir + [] == dir;
    } else {
      assert stack == stack[..|stack| - 1] + [stack[|stack| - 1]];
      ResolvedPlain(dir, stack[..|stack| - 1]);
      assert PlainSegment(stack[|stack| - 1]);
    }
  }

  lemma {:induction false} SplitOfJoin(parts: seq<string>)
    requires parts != [] && forall x :: x in parts ==> Whole(Slash, x)
    ensures Split(Slash, Join('/', parts)) == parts
  {
    assert parts[0] in parts;
    if |parts| == 1 {
      SplitJoined(Slash, '/', parts[0], "");
    } else {
      SplitOfJoin(parts[1..]);
      SplitJoined(Slash, '/', parts[0], Join('/', parts[1..]));
      assert parts == [parts[0]] + parts[1..];
    }
  }

  lemma {:induction false} StackPlain(segments: seq<string>)
    requires StaysInside(segments) && forall x :: x in segments ==> Whole(Slash, x)
    ensures forall x :: x in WalkAll(segments) ==> PlainSegment(x)
  {
    StackClimbs(segments);
    forall x | x in WalkAll(segments) ensures PlainSegment(x) {
      StackSegments(segments, x);
    }
  }

  /** The text of a stack: its segments with slashes between them. */
  function Written(stack: seq<string>, trailing: bool): string {
    (if stack == [] then "." else Join('/', stack)) + (if trailing then "/" else "")
  }

  lemma {:induction false} BlankAppended(dir: seq<string>, text: string)
    ensures Resolved(dir, Split(Slash, text + "/")) == Resolved(dir, Split(Slash, text))
  {
    var segments := Split(Slash, text);
    assert text + "/" == text + ['/'] + "" && Split(Slash, "") == [""];
    SplitAppend(Slash, '/', text, "");
    assert (segments + [""])[..|segments|] == segments && (segments + [""])[|segments|] == "";
  }

  lemma {:induction false} WrittenLeads(dir: seq<string>, stack: seq<string>, trailing: bool)
    requires forall x :: x in stack ==> PlainSegment(x)
    ensures Resolved(dir, Split(Slash, Written(stack, trailing))) == dir + stack
  {
    var text := if stack == [] then "." else Join('/', stack);
    if stack == [] {
      SplitJoined(Slash, '/', ".", "");
      assert ["."][..0] == [] && dir + [] == dir;
    } else {
      SplitOfJoin(stack);
      ResolvedPlain(dir, stack);
    }
    if trailing {
      BlankAppended(dir, text);
    } else {
      assert text + "" == text;
    }
  }

  /** The path that is written ends in a slash if the relative path does, or, without one, if the
      directory does. */
  predicate EndsInSlash(front: seq<string>, rel: string) {
    if rel != "" then rel[|rel| - 1] == '/' else front != [] && front[|front| - 1] == ""
  }

  lemma {:induction false} JoinedText(parent: string, front: seq<string>, rel: string)
    requires CleanPath(parent) && Directory(parent, front)
    ensures Joined(parent, rel) == Written(WalkAll(front + Split(Slash, rel)), EndsInSlash(front, rel))
  {
    SanitizedIsClean(parent);
    DirnameSegments(parent, front);
    JoinWalks(parent, front, rel);
    LastSegment(Dirname(parent));
    if front != [] {
      FrontNotBlank(parent, front);
    }
    assert Split(Slash, "") == [""];
  }

  lemma {:induction false} FrontNotBlank(parent: string, front: seq<string>)
    requires (parent == "" || parent[0] != '/') && Directory(parent, front) && front != []
    ensures front[0] != ""
  {
    assert parent != "" && Split(Slash, parent)[0] == front[0];
  }

  /** A join walks from the directory of the parent along the relative path. It is accepted exactly
      when this walk never climbs above the root of the source and no segment that stays on the path
      hides a ".." between backslashes; and then it leads to the end of the walk. */
  lemma {:induction false} JoinExact(parent: string, front: seq<string>, rel: string, dir: seq<string>)
    requires CleanPath(parent) && Directory(parent, front)
    ensures JoinRelative(parent, rel).Some?
            <==> StaysInside(front + Split(Slash, rel)) && !SomeClimbs(Resolved([], front + Split(Slash, rel)))
    ensures NoBackslash(parent) && NoBackslash(rel) ==>
              (JoinRelative(parent, rel).Some? <==> StaysInside(front + Split(Slash, rel)))
    ensures JoinRelative(parent, rel).Some? ==>
              var path := JoinRelative(parent, rel).value;
              && path == Written(Resolved(Resolved([], front), Split(Slash, rel)), EndsInSlash(front, rel))
              && Resolved(dir, Split(Slash, path)) == Resolved(Resolved(dir, front), Split(Slash, rel))
  {
    var segments := front + Split(Slash, rel);
    var path := if rel == "" then Dirname(parent) else Dirname(parent) + "/" + rel;
    JoinWalks(parent, front, rel);
    NormalizedClimbs(path);
    StackClimbs(segments);
    StripFixed(Normalize(path));
    assert Climbs("..") by {
      ClimbsPlain("..");
    }
    if NoBackslash(parent) && NoBackslash(rel) {
      PlainWalk(parent, rel);
    }
    if StaysInside(segments) {
      JoinLeads(parent, front, rel, dir);
      ResolvedWalk([], segments);
      ResolvedConcat([], front, Split(Slash, rel));
      assert [] + WalkAll(segments) == WalkAll(segments);
    }
  }

  lemma {:induction false} JoinLeads(parent: string, front: seq<string>, rel: string, dir: seq<string>)
    requires CleanPath(parent) && Directory(parent, front) && StaysInside(front + Split(Slash, rel))
    ensures Joined(parent, rel) == Written(WalkAll(front + Split(Slash, rel)), EndsInSlash(front, rel))
    ensures Resolved(dir, Split(Slash, Joined(parent, rel))) == Resolved(Resolved(dir, front), Split(Slash, rel))
  {
    var segments := front + Split(Slash, rel);
    JoinedText(parent, front, rel);
    SegmentsWhole(parent, front, rel);
    StackPlain(segments);
    WrittenLeads(dir, WalkAll(segments), EndsInSlash(front, rel));
    ResolvedWalk(dir, segments);
    ResolvedConcat(dir, front, Split(Slash, rel));
  }

  lemma {:induction false} SegmentsWhole(parent: string, front: seq<string>, rel: string)
    requires Directory(parent, front)
    ensures forall x :: x in front + Split(Slash, rel) ==> Whole(Slash, x)
  {
    forall x | x in front ensures x in Split(Slash, parent) {
    }
    forall x | x in Split(Slash, parent) + Split(Slash, rel) ensures Whole(Slash, x) {
    }
  }

  /** Without backslashes only ".." climbs. */
  lemma {:induction false} PlainWalk(parent: string, rel: string)
    requires NoBackslash(parent) && NoBackslash(rel)
    ensures forall x :: x in WalkAll(JoinWalk(parent, rel)) ==> (Climbs(x) <==> x == "..")
  {
    var path := if rel == "" then Dirname(parent) else Dirname(parent) + "/" + rel;
    DirnamePart(parent);
    forall x | x in WalkAll(JoinWalk(parent, rel)) ensures Climbs(x) <==> x == ".." {
      StackSegments(JoinWalk(parent, rel), x);
      SplitPieces(path, x);
      ClimbsPlain(x);
    }
  }

  lemma {:induction false} SplitPieces(s: string, x: string)
    requires x in Split(Slash, s)
    ensures Whole(Slash, x) && forall c :: c in x ==> c in s
  {
    if s != "" {
      var rest := Split(Slash, s[1..]);
      assert rest == [rest[0]] + rest[1..];
      assert rest[0] in rest;
      if x in rest {
        SplitPieces(s[1..], x);
      } else if x != "" {
        SplitPieces(s[1..], rest[0]);
      }
    }
  }

  lemma {:induction false} DirnamePart(path: string)
    requires NoBackslash(path)
    ensures NoBackslash(Dirname(path))
  {
    TrailingPart(path);
  }

  lemma {:induction false} TrailingPart(s: string)
    ensures forall c :: c in StripTrailing(s) ==> c in s
  {
    if s != "" && s[|s| - 1] == '/' {
      TrailingPart(s[..|s| - 1]);
    }
  }

  // Every path reached by joins stays in its source

  function JoinAll(path: string, rels: seq<string>): Option<string> {
    if rels == [] then Some(path)
    else
      var parent := JoinAll(path, rels[..|rels| - 1]);
      if parent.None? then None else JoinRelative(parent.value, rels[|rels| - 1])
  }

  lemma {:induction false} ResolvedBelow(dir: seq<string>, segments: seq<string>)
    requires ".." !in segments
    ensures dir <= Resolved(dir, segments)
  {
    if segments != [] {
      assert segments == segments[..|segments| - 1] + [segments[|segments| - 1]];
      ResolvedBelow(dir, segments[..|segments| - 1]);
    }
  }

  lemma {:induction false} SegmentsOfSegments(s: string)
    ensures ".." in Split(Slash, s) ==> ".." in Split(AnySlash, s)
  {
    SplitRefines(s);
    assert NoBackslash("..");
    var r := Split(Slash, s);
    assert r == [r[0]] + r[1..];
  }

  /** Cutting at backslashes too cuts the pieces further; a piece ".." stays. */
  lemma {:induction false} SplitRefines(s: string)
    ensures forall p :: p in Split(Slash, s)[1..] && NoBackslash(p) ==> p in Split(AnySlash, s)[1..]
    ensures NoBackslash(Split(Slash, s)[0]) ==> Split(AnySlash, s)[0] == Split(Slash, s)[0]
  {
    if s != "" {
      SplitRefines(s[1..]);
    }
  }

  /** After any chain of accepted joins the path is relative, has no ".." segment, and resolves
      under the source directory. */
  lemma {:induction false} JoinsStayInside(path: string, rels: seq<string>, dir: seq<string>)
    requires CleanPath(path) && JoinAll(path, rels).Some?
    ensures CleanPath(JoinAll(path, rels).value)
    ensures dir <= Resolved(dir, Split(Slash, JoinAll(path, rels).value))
  {
    if rels == [] {
      SegmentsOfSegments(path);
    } else {
      JoinsStayInside(path, rels[..|rels| - 1], dir);
      var parent := JoinAll(path, rels[..|rels| - 1]).value;
      SanitizedIsClean(Joined(parent, rels[|rels| - 1]));
      SegmentsOfSegments(JoinAll(path, rels).value);
    }
    ResolvedBelow(dir, Split(Slash, JoinAll(path, rels).value));
  }
}
