/** src/core/generateIncluded.js and src/lib/parseDockerfileXStartComment.js: the comments that
    frame included text, and the reader of their attributes. */
module IncludeComments {
  import opened Dockerfile
  import opened Text

  const START_PREFIX := "# DOCKERFILE-X:START "
  const END_PREFIX := "# DOCKERFILE-X:END "

  function Attributes(file: string, includedBy: string, includeType: string): string {
    "file=\"" + file + "\" includedBy=\"" + includedBy + "\" includeType=\"" + includeType + "\""
  }

  function StartComment(file: string, includedBy: string, includeType: string): string {
    START_PREFIX + Attributes(file, includedBy, includeType)
  }

  function EndComment(file: string, includedBy: string, includeType: string): string {
    END_PREFIX + Attributes(file, includedBy, includeType)
  }

  // The reader

  /** The white space of JavaScript's `\s`. */
  predicate Space(c: char) {
    || c in [' ', '\t', '\n', '\r', '\U{0B}', '\U{0C}', '\U{A0}', '\U{1680}', '\U{2028}', '\U{2029}',
             '\U{202F}', '\U{205F}', '\U{3000}', '\U{FEFF}']
    || '\U{2000}' <= c <= '\U{200A}'
  }

  /** The text between runs of white space. */
  function Tokens(s: string): (ts: seq<string>)
    ensures ts != []
  {
    if s == "" then [""]
    else
      var before, c := Tokens(s[..|s| - 1]), s[|s| - 1];
      if !Space(c) then before[..|before| - 1] + [before[|before| - 1] + [c]]
      else if |s| > 1 && Space(s[|s| - 2]) then before
      else before + [""]
  }

  predicate Quote(c: char) {
    c == '"' || c == '\''
  }

  function StripQuotes(s: string): string {
    var t := if s != "" && Quote(s[0]) then s[1..] else s;
    if t != "" && Quote(t[|t| - 1]) then t[..|t| - 1] else t
  }

  /** One pair: the second part ends at the next '='. A pair without key or value is skipped. */
  function AddPair(attrs: map<string, string>, pair: string): map<string, string> {
    var (key, rest) := CutFirst(pair, '=');
    if rest.None? then attrs
    else
      var value := CutFirst(rest.value, '=').0;
      if key == "" || value == "" then attrs else attrs[key := StripQuotes(value)]
  }

  function ReadPairs(pairs: seq<string>): map<string, string> {
    if pairs == [] then map[] else AddPair(ReadPairs(pairs[..|pairs| - 1]), pairs[|pairs| - 1])
  }

  /** The attributes of a START comment, or nothing for another line. */
  function StartAttributes(line: string): Option<map<string, string>> {
    if START_PREFIX <= line then Some(ReadPairs(Tokens(line[|START_PREFIX|..]))) else None
  }

  method ParseStartComment(line: string) returns (attrs: Option<map<string, string>>)
    ensures attrs == StartAttributes(line)
  {
    if !(START_PREFIX <= line) {
      return None;
    }
    var keyValuePairs := Tokens(line[|START_PREFIX|..]);
    var found: map<string, string> := map[];
    var k := 0;
    while k < |keyValuePairs|
      invariant 0 <= k <= |keyValuePairs|
      invariant found == ReadPairs(keyValuePairs[..k])
    {
      assert keyValuePairs[..k + 1][..k] == keyValuePairs[..k];
      var (key, rest) := CutFirst(keyValuePairs[k], '=');
      if rest.Some? {
        var value := CutFirst(rest.value, '=').0;
        if key != "" && value != "" {
          found := found[key := StripQuotes(value)];
        }
      }
      k := k + 1;
    }
    assert keyValuePairs[..k] == keyValuePairs;
    attrs := Some(found);
  }

  // What the reader makes of a line

  predicate Solid(s: string) {
    forall i :: 0 <= i < |s| ==> !Space(s[i])
  }

  lemma {:induction false} SolidToken(t: string)
    requires Solid(t)
    ensures Tokens(t) == [t]
  {
    if t != "" {
      SolidToken(t[..|t| - 1]);
      assert t[..|t| - 1] + [t[|t| - 1]] == t;
    }
  }

  lemma {:induction false} RunOfSpace(s: string, w: string)
    requires w != "" && (forall i :: 0 <= i < |w| ==> Space(w[i])) && (s == "" || !Space(s[|s| - 1]))
    ensures Tokens(s + w) == Tokens(s) + [""]
  {
    var v := w[..|w| - 1];
    assert (s + w)[..|s + w| - 1] == s + v;
    if v == "" {
      assert s + v == s;
    } else {
      RunOfSpace(s, v);
    }
  }

  /** A run of white space of any length separates two tokens. */
  lemma {:induction false} TokensExactly(s: string, w: string, t: string)
    requires w != "" && (forall i :: 0 <= i < |w| ==> Space(w[i])) && (s == "" || !Space(s[|s| - 1])) && Solid(t)
    ensures Tokens(s + w + t) == Tokens(s) + [t]
  {
    if t == "" {
      RunOfSpace(s, w);
      assert s + w + t == s + w;
    } else {
      var t', c := t[..|t| - 1], t[|t| - 1];
      TokensExactly(s, w, t');
      assert (s + w + t)[..|s + w + t| - 1] == s + w + t';
      assert t == t' + [c] && (Tokens(s) + [t'])[..|Tokens(s)|] == Tokens(s);
    }
  }

  /** One quote of either kind is dropped at each end. */
  lemma {:induction false} QuotesStripped(v: string, a: char, b: char)
    requires a in ['"', '\''] && b in ['"', '\'']
    ensures StripQuotes([a] + v + [b]) == v
    ensures v != "" && v[0] !in ['"', '\''] && v[|v| - 1] !in ['"', '\''] ==> StripQuotes(v) == v
  {
    assert ([a] + v + [b])[1..] == v + [b] && (v + [b])[..|v|] == v;
  }

  // Printer and reader agree

  predicate Word(s: string) {
    s != "" && forall i :: 0 <= i < |s| ==> !Space(s[i]) && s[i] != '=' && !Quote(s[i])
  }

  lemma {:induction false} TokenGrows(u: string, c: char, t: string)
    requires !Space(c) && Tokens(u)[|Tokens(u)| - 1] == t
    ensures Tokens(u + [c])[|Tokens(u + [c])| - 1] == t + [c]
  {
    assert (u + [c])[..|u|] == u;
  }

  /** After a space, text without white space is a token of its own. */
  lemma {:induction false} LastToken(s: string, t: string)
    requires Solid(t)
    ensures Tokens(s + " " + t)[|Tokens(s + " " + t)| - 1] == t
  {
    if t == "" {
      assert s + " " + t == s + " ";
      LastTokenEmpty(s);
    } else {
      var t', c := t[..|t| - 1], t[|t| - 1];
      LastToken(s, t');
      TokenGrows(s + " " + t', c, t');
      assert t == t' + [c] && s + " " + t == s + " " + t' + [c];
    }
  }

  lemma {:induction false} LastTokenEmpty(s: string)
    ensures Tokens(s + " ")[|Tokens(s + " ")| - 1] == ""
  {
    var u := s + " ";
    assert u[..|u| - 1] == s;
    if |u| > 1 && Space(u[|u| - 2]) {
      var v := s[..|s| - 1];
      assert s == v + [s[|s| - 1]];
      SpaceEnds(s);
    }
  }

  /** After white space the last token is empty. */
  lemma {:induction false} SpaceEnds(s: string)
    requires s != "" && Space(s[|s| - 1])
    ensures Tokens(s)[|Tokens(s)| - 1] == ""
  {
    if |s| > 1 && Space(s[|s| - 2]) {
      SpaceEnds(s[..|s| - 1]);
    }
  }

  lemma {:induction false} QuotedPair(attrs: map<string, string>, key: string, value: string)
    requires Word(key) && Word(value)
    ensures AddPair(attrs, key + "=\"" + value + "\"") == attrs[key := value]
  {
    var quoted := "\"" + value + "\"";
    assert key + "=\"" + value + "\"" == key + "=" + quoted;
    CutFirstJoined(key, '=', quoted);
    CutFirstAbsent(quoted, '=');
    assert quoted[1..][..|value|] == value;
    assert StripQuotes(quoted) == value;
  }

  /** A pair at the end decides its key, whatever stands before it. */
  lemma {:induction false} LastPairRead(left: string, key: string, value: string)
    requires Word(key) && Word(value)
    ensures var attrs := ReadPairs(Tokens(left + " " + key + "=\"" + value + "\""));
            key in attrs && attrs[key] == value
  {
    var pair := key + "=\"" + value + "\"";
    assert left + " " + key + "=\"" + value + "\"" == left + " " + pair;
    LastToken(left, pair);
    var pairs := Tokens(left + " " + pair);
    QuotedPair(ReadPairs(pairs[..|pairs| - 1]), key, value);
  }

  lemma {:induction false} AttributesEnd(file: string, includedBy: string, includeType: string) returns (left: string)
    ensures Attributes(file, includedBy, includeType) == left + " " + "includeType" + "=\"" + includeType + "\""
  {
    left := "file=\"" + file + "\" includedBy=\"" + includedBy + "\"";
  }

  /** For every two paths, with spaces, '=' or quotes in them or not, the reader finds the type
      of inclusion that the printer wrote. */
  lemma {:induction false} IncludeTypeReadBack(file: string, includedBy: string, includeType: string)
    requires Word(includeType)
    ensures var attrs := StartAttributes(StartComment(file, includedBy, includeType));
            attrs.Some? && "includeType" in attrs.value && attrs.value["includeType"] == includeType
  {
    var line := StartComment(file, includedBy, includeType);
    assert line[|START_PREFIX|..] == Attributes(file, includedBy, includeType);
    var left := AttributesEnd(file, includedBy, includeType);
    LastPairRead(left, "includeType", includeType);
  }
}
