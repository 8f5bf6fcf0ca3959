/** Cutting and splitting text. */
module Text {
  import opened Dockerfile

  /** The text before the first c, and the text after it if there is one. */
  function CutFirst(s: string, c: char): (r: (string, Option<string>))
    ensures c !in r.0
    ensures s == if r.1.Some? then r.0 + [c] + r.1.value else r.0
  {
    if s == "" then ("", None)
    else if s[0] == c then ("", Some(s[1..]))
    else
      var (before, after) := CutFirst(s[1..], c);
      ([s[0]] + before, after)
  }

  /** The text before and after the last c. */
  function CutLast(s: string, c: char): (r: Option<(string, string)>)
    ensures r.None? <==> c !in s
    ensures r.Some? ==> s == r.value.0 + [c] + r.value.1 && c !in r.value.1
  {
    if s == "" then None
    else
      var before, x := s[..|s| - 1], s[|s| - 1];
      assert s == before + [x];
      if x == c then Some((before, ""))
      else
        var r := CutLast(before, c);
        if r.None? then None else Some((r.value.0, r.value.1 + [x]))
  }

  lemma {:induction false} CutFirstJoined(a: string, c: char, b: string)
    requires c !in a
    ensures CutFirst(a + [c] + b, c) == (a, Some(b))
  {
    var s := a + [c] + b;
    if a == "" {
      assert s[1..] == b;
    } else {
      assert s[1..] == a[1..] + [c] + b && s[0] == a[0] && a[0] in a;
      CutFirstJoined(a[1..], c, b);
      assert [a[0]] + a[1..] == a;
    }
  }

  lemma {:induction false} CutFirstAbsent(a: string, c: char)
    requires c !in a
    ensures CutFirst(a, c) == (a, None)
  {
    if a != "" {
      CutFirstAbsent(a[1..], c);
    }
  }

  lemma {:induction false} CutLastJoined(a: string, c: char, b: string)
    requires c !in b
    ensures CutLast(a + [c] + b, c) == Some((a, b))
  {
    var s := a + [c] + b;
    if b == "" {
      assert s[..|s| - 1] == a;
    } else {
      assert s[..|s| - 1] == a + [c] + b[..|b| - 1];
      CutLastJoined(a, c, b[..|b| - 1]);
      assert b[..|b| - 1] + [b[|b| - 1]] == b;
    }
  }

  predicate Whole(sep: char -> bool, s: string) {
    forall j :: 0 <= j < |s| ==> !sep(s[j])
  }

  /** The pieces between the separators. */
  function Split(sep: char -> bool, s: string): (r: seq<string>)
    ensures r != []
    ensures forall i :: 0 <= i < |r| ==> Whole(sep, r[i])
  {
    if s == "" then [""]
    else
      var rest := Split(sep, s[1..]);
      if sep(s[0]) then [""] + rest else [[s[0]] + rest[0]] + rest[1..]
  }

  function Join(c: char, parts: seq<string>): string {
    if parts == [] then ""
    else if |parts| == 1 then parts[0]
    else parts[0] + [c] + Join(c, parts[1..])
  }

  lemma {:induction false} SplitJoined(sep: char -> bool, c: char, a: string, s: string)
    requires sep(c) && Whole(sep, a)
    ensures Split(sep, a) == [a]
    ensures Split(sep, a + [c] + s) == [a] + Split(sep, s)
  {
    var t := a + [c] + s;
    if a == "" {
      assert t[1..] == s;
    } else {
      assert t[1..] == a[1..] + [c] + s;
      SplitJoined(sep, c, a[1..], s);
      assert [a[0]] + a[1..] == a;
    }
  }

  /** Joining the pieces gives the text back. */
  lemma {:induction false} JoinOfSplit(c: char, s: string)
    ensures Join(c, Split((x: char) => x == c, s)) == s
  {
    if s != "" {
      var rest := Split((x: char) => x == c, s[1..]);
      JoinOfSplit(c, s[1..]);
      if s[0] == c {
        assert ([""] + rest)[1..] == rest;
      } else if |rest| > 1 {
        assert ([[s[0]] + rest[0]] + rest[1..])[1..] == rest[1..];
      }
    }
  }
}
