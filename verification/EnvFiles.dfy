/** src/core/loadEnvFileAndPrefix.js: key/value pairs printed as ARG, ENV or LABEL instructions. */
module EnvFiles {
  import opened Dockerfile
  import opened Text

  /** `replace(/c/g, t)`. */
  function ReplaceChar(s: string, c: char, t: string): string {
    if s == "" then "" else (if s[0] == c then t else [s[0]]) + ReplaceChar(s[1..], c, t)
  }

  /** What a line break becomes: an escaped n, and a backslash that continues the line. */
  const BREAK := ['\\', 'n', '\\', '\n']

  /** `replace(/\r?\n/g, ...)`. */
  function ReplaceBreaks(s: string): string {
    if s == "" then ""
    else if s[0] == '\n' then BREAK + ReplaceBreaks(s[1..])
    else if s[0] == '\r' && |s| > 1 && s[1] == '\n' then BREAK + ReplaceBreaks(s[2..])
    else [s[0]] + ReplaceBreaks(s[1..])
  }

  /** The five replaces, in the order of the source. */
  function CleanValue(value: string): string {
    ReplaceBreaks(ReplaceChar(ReplaceChar(ReplaceChar(ReplaceChar(value,
      '\\', ['\\', '\\']), '$', ['\\', '$']), '"', ['\\', '"']), '`', ['\\', '`']))
  }

  predicate Special(c: char) {
    c == '\\' || c == '$' || c == '"' || c == '`'
  }

  function EscapeChar(c: char): string {
    if Special(c) then ['\\', c] else [c]
  }

  /** The same in one pass. */
  function Escape(s: string): string {
    if s == "" then ""
    else if s[0] == '\n' then BREAK + Escape(s[1..])
    else if s[0] == '\r' && |s| > 1 && s[1] == '\n' then BREAK + Escape(s[2..])
    else EscapeChar(s[0]) + Escape(s[1..])
  }

  function EscapeChars(s: string): string {
    if s == "" then "" else EscapeChar(s[0]) + EscapeChars(s[1..])
  }

  lemma {:induction false} ReplaceConcat(a: string, b: string, c: char, t: string)
    ensures ReplaceChar(a + b, c, t) == ReplaceChar(a, c, t) + ReplaceChar(b, c, t)
  {
    if a == "" {
      assert a + b == b;
    } else {
      assert (a + b)[1..] == a[1..] + b;
      ReplaceConcat(a[1..], b, c, t);
    }
  }

  lemma {:induction false} ReplaceOne(x: char, c: char, t: string)
    ensures ReplaceChar([x], c, t) == if x == c then t else [x]
  {
    assert [x][1..] == "";
    assert t + "" == t && [x] + "" == [x];
  }

  lemma {:induction false} ReplacePair(x: char, c: char)
    requires c != '\\'
    ensures ReplaceChar(['\\', x], c, ['\\', c]) == if x == c then ['\\', '\\', c] else ['\\', x]
  {
    assert ['\\', x] == ['\\'] + [x];
    ReplaceConcat(['\\'], [x], c, ['\\', c]);
    ReplaceOne('\\', c, ['\\', c]);
    ReplaceOne(x, c, ['\\', c]);
  }

  lemma {:induction false} OneCharacter(x: char)
    ensures ReplaceChar(ReplaceChar(ReplaceChar(ReplaceChar([x],
              '\\', ['\\', '\\']), '$', ['\\', '$']), '"', ['\\', '"']), '`', ['\\', '`']) == EscapeChar(x)
  {
    ReplaceOne(x, '\\', ['\\', '\\']);
    ReplaceOne(x, '$', ['\\', '$']);
    ReplaceOne(x, '"', ['\\', '"']);
    ReplaceOne(x, '`', ['\\', '`']);
    ReplacePair(x, '$');
    ReplacePair(x, '"');
    ReplacePair(x, '`');
  }

  /** The first four replaces escape one character after the other. */
  lemma {:induction false} FourReplaces(s: string)
    ensures ReplaceChar(ReplaceChar(ReplaceChar(ReplaceChar(s,
              '\\', ['\\', '\\']), '$', ['\\', '$']), '"', ['\\', '"']), '`', ['\\', '`']) == EscapeChars(s)
  {
    if s != "" {
      FourReplaces(s[1..]);
      OneCharacter(s[0]);
      var x, y := [s[0]], s[1..];
      assert s == x + y;
      ReplaceConcat(x, y, '\\', ['\\', '\\']);
      var x1, y1 := ReplaceChar(x, '\\', ['\\', '\\']), ReplaceChar(y, '\\', ['\\', '\\']);
      ReplaceConcat(x1, y1, '$', ['\\', '$']);
      var x2, y2 := ReplaceChar(x1, '$', ['\\', '$']), ReplaceChar(y1, '$', ['\\', '$']);
      ReplaceConcat(x2, y2, '"', ['\\', '"']);
      ReplaceConcat(ReplaceChar(x2, '"', ['\\', '"']), ReplaceChar(y2, '"', ['\\', '"']), '`', ['\\', '`']);
    }
  }

  /** The five passes of the source are the one pass. */
  lemma {:induction false} CleanValueIsEscape(s: string)
    ensures CleanValue(s) == Escape(s)
  {
    FourReplaces(s);
    BreaksLast(s);
  }

  lemma {:induction false} BreakFirst(s: string)
    requires |s| > 1 && s[0] == '\r' && s[1] == '\n'
    ensures ReplaceBreaks(EscapeChars(s)) == BREAK + ReplaceBreaks(EscapeChars(s[2..]))
  {
    assert s[1..][1..] == s[2..];
    assert EscapeChars(s[1..]) == ['\n'] + EscapeChars(s[2..]);
    assert EscapeChars(s)[2..] == EscapeChars(s[2..]);
  }

  lemma {:induction false} SpecialFirst(c: char, e: string)
    requires Special(c)
    ensures ReplaceBreaks(EscapeChar(c) + e) == EscapeChar(c) + ReplaceBreaks(e)
  {
    assert (EscapeChar(c) + e)[1..] == [c] + e && ([c] + e)[1..] == e;
    assert ['\\'] + ([c] + ReplaceBreaks(e)) == EscapeChar(c) + ReplaceBreaks(e);
  }

  lemma {:induction false} BreaksLast(s: string)
    ensures ReplaceBreaks(EscapeChars(s)) == Escape(s)
  {
    if s != "" {
      var e := EscapeChars(s[1..]);
      BreaksLast(s[1..]);
      if s[0] == '\r' && |s| > 1 && s[1] == '\n' {
        BreaksLast(s[2..]);
        BreakFirst(s);
      } else if Special(s[0]) {
        SpecialFirst(s[0], e);
      } else {
        assert EscapeChars(s)[1..] == e;
      }
    }
  }

  // Reading back

  /** The value with Unix line breaks. */
  function UnixBreaks(s: string): string {
    if s == "" then ""
    else if s[0] == '\r' && |s| > 1 && s[1] == '\n' then ['\n'] + UnixBreaks(s[2..])
    else [s[0]] + UnixBreaks(s[1..])
  }

  /** Reads a quoted value up to its closing quote: the value, and the text behind the quote.
      A dollar, a backtick or a line break that is not escaped is an error. */
  function Unquote(s: string): (r: Option<(string, string)>)
    ensures r.Some? ==> |r.value.1| < |s|
  {
    if s == "" then None
    else if s[0] == '"' then Some(("", s[1..]))
    else if BREAK <= s then Prepend('\n', Unquote(s[4..]))
    else if s[0] == '\\' then
      if |s| > 1 && s[1] in ['\\', '$', '"', '`'] then Prepend(s[1], Unquote(s[2..])) else None
    else if s[0] in ['$', '`', '\n'] then None
    else Prepend(s[0], Unquote(s[1..]))
  }

  function Prepend(c: char, r: Option<(string, string)>): Option<(string, string)> {
    if r.Some? then Some(([c] + r.value.0, r.value.1)) else None
  }

  lemma {:induction false} UnquoteBreak(tail: string)
    ensures Unquote(BREAK + tail) == Prepend('\n', Unquote(tail))
  {
    assert (BREAK + tail)[4..] == tail;
  }

  lemma {:induction false} UnquoteChar(c: char, tail: string)
    requires c != '\n'
    ensures Unquote(EscapeChar(c) + tail) == Prepend(c, Unquote(tail))
  {
    var s := EscapeChar(c) + tail;
    if Special(c) {
      assert s[0] == '\\' && s[1] == c && s[2..] == tail;
      assert !(BREAK <= s);
    } else {
      assert s[0] == c && s[1..] == tail;
    }
  }

  lemma {:induction false} QuotedTail(a: string, b: string, rest: string)
    ensures (a + b) + "\"" + rest == a + (b + "\"" + rest)
  {
  }

  /** An escaped value is read back up to its line breaks, and its closing quote is the one that
      the printer wrote. */
  lemma {:induction false} EscapeReadBack(value: string, rest: string)
    ensures Unquote(Escape(value) + "\"" + rest) == Some((UnixBreaks(value), rest))
  {
    if value == "" {
      assert ("" + "\"" + rest)[1..] == rest;
    } else if value[0] == '\n' || (value[0] == '\r' && |value| > 1 && value[1] == '\n') {
      var more := if value[0] == '\n' then value[1..] else value[2..];
      EscapeReadBack(more, rest);
      assert Escape(value) == BREAK + Escape(more);
      QuotedTail(BREAK, Escape(more), rest);
      UnquoteBreak(Escape(more) + "\"" + rest);
    } else {
      EscapeReadBack(value[1..], rest);
      assert Escape(value) == EscapeChar(value[0]) + Escape(value[1..]);
      QuotedTail(EscapeChar(value[0]), Escape(value[1..]), rest);
      UnquoteChar(value[0], Escape(value[1..]) + "\"" + rest);
    }
  }

  /** So values with the same text differ in their line breaks at most. */
  lemma {:induction false} EscapeInjective(v: string, w: string)
    requires Escape(v) == Escape(w)
    ensures UnixBreaks(v) == UnixBreaks(w)
  {
    EscapeReadBack(v, "");
    EscapeReadBack(w, "");
  }

  // Whole files

  predicate KeyChar(c: char) {
    'A' <= c <= 'Z' || 'a' <= c <= 'z' || '0' <= c <= '9' || c == '.' || c == '_' || c == '-'
  }

  function CleanKey(key: string): (r: string)
    ensures forall i :: 0 <= i < |r| ==> KeyChar(r[i])
    ensures (forall i :: 0 <= i < |key| ==> KeyChar(key[i])) ==> r == key
  {
    if key == "" then ""
    else if KeyChar(key[0]) then [key[0]] + CleanKey(key[1..])
    else CleanKey(key[1..])
  }

  /** Letters, digits and ".", "_", "-" stay in a key, by their codes; nothing else does, and the order
      is kept. */
  lemma {:induction false} KeyExactly(a: string, c: char, b: string)
    ensures CleanKey("") == ""
    ensures var code := c as int;
            CleanKey(a + [c] + b) == CleanKey(a)
                                     + (if 65 <= code <= 90 || 97 <= code <= 122 || 48 <= code <= 57
                                           || code == 46 || code == 95 || code == 45 then [c] else "")
                                     + CleanKey(b)
  {
    if a == "" {
      assert (a + [c] + b)[1..] == b;
    } else {
      assert (a + [c] + b)[1..] == a[1..] + [c] + b;
      KeyExactly(a[1..], c, b);
    }
  }

  function Format(prefix: string, key: string, value: string): string {
    prefix + CleanKey(key) + "=\"" + CleanValue(value) + "\""
  }

  /** All pairs, one after the other, joined by line breaks. */
  function PrintAll(prefix: string, pairs: seq<(string, string)>): string {
    if pairs == [] then ""
    else if |pairs| == 1 then Format(prefix, pairs[0].0, pairs[0].1)
    else Format(prefix, pairs[0].0, pairs[0].1) + "\n" + PrintAll(prefix, pairs[1..])
  }

  /** Reads instructions of the form `prefix key="value"`. */
  function ReadAll(prefix: string, text: string): Option<seq<(string, string)>>
    requires prefix != ""
    decreases |text|
  {
    if text == "" then Some([])
    else if !(prefix <= text) then None
    else
      var (key, rest) := CutFirst(text[|prefix|..], '=');
      if rest.None? || rest.value == "" || rest.value[0] != '"' then None
      else
        var value := Unquote(rest.value[1..]);
        if value.None? || (value.value.1 != "" && value.value.1[0] != '\n') then None
        else
          var more := ReadAll(prefix, if value.value.1 == "" then "" else value.value.1[1..]);
          if more.None? then None else Some([(key, value.value.0)] + more.value)
  }

  function ReadablePairs(pairs: seq<(string, string)>): seq<(string, string)> {
    seq(|pairs|, k requires 0 <= k < |pairs| => (CleanKey(pairs[k].0), UnixBreaks(pairs[k].1)))
  }

  /** What is read from a key, an equals sign and text in quotes. */
  lemma {:induction false} ReadText(prefix: string, key: string, inside: string, value: string, rest: string)
    requires prefix != "" && '=' !in key && (rest == "" || rest[0] == '\n')
    requires Unquote(inside) == Some((value, rest))
    ensures var more := ReadAll(prefix, if rest == "" then "" else rest[1..]);
            ReadAll(prefix, prefix + (key + "=" + ("\"" + inside))) ==
            if more.None? then None else Some([(key, value)] + more.value)
  {
    var text := prefix + (key + "=" + ("\"" + inside));
    assert text[|prefix|..] == key + "=" + ("\"" + inside);
    CutFirstJoined(key, '=', "\"" + inside);
    assert ("\"" + inside)[1..] == inside;
  }

  lemma {:induction false} FormatTail(prefix: string, key: string, value: string, rest: string)
    ensures prefix + key + "=\"" + value + "\"" + rest == prefix + (key + "=" + ("\"" + (value + "\"" + rest)))
  {
  }

  lemma {:induction false} ReadOne(prefix: string, key: string, value: string, rest: string)
    requires prefix != "" && (rest == "" || rest[0] == '\n')
    ensures var more := ReadAll(prefix, if rest == "" then "" else rest[1..]);
            ReadAll(prefix, Format(prefix, key, value) + rest) ==
            if more.None? then None else Some([(CleanKey(key), UnixBreaks(value))] + more.value)
  {
    var inside := Escape(value) + "\"" + rest;
    CleanValueIsEscape(value);
    EscapeReadBack(value, rest);
    ReadText(prefix, CleanKey(key), inside, UnixBreaks(value), rest);
    FormatTail(prefix, CleanKey(key), Escape(value), rest);
  }

  lemma {:induction false} PrintAllSplit(prefix: string, pairs: seq<(string, string)>) returns (rest: string)
    requires pairs != []
    ensures PrintAll(prefix, pairs) == Format(prefix, pairs[0].0, pairs[0].1) + rest
    ensures |pairs| == 1 ==> rest == ""
    ensures |pairs| > 1 ==> rest != "" && rest[0] == '\n' && rest[1..] == PrintAll(prefix, pairs[1..])
  {
    rest := if |pairs| == 1 then "" else "\n" + PrintAll(prefix, pairs[1..]);
  }

  lemma {:induction false} ReadableFirst(pairs: seq<(string, string)>)
    requires pairs != []
    ensures ReadablePairs(pairs) == [(CleanKey(pairs[0].0), UnixBreaks(pairs[0].1))] + ReadablePairs(pairs[1..])
  {
  }

  /** The text of a whole environment file is read back, pair by pair: keys without the
      characters that were dropped, values with Unix line breaks. */
  lemma {:induction false} PrintedReadBack(prefix: string, pairs: seq<(string, string)>)
    requires prefix != ""
    ensures ReadAll(prefix, PrintAll(prefix, pairs)) == Some(ReadablePairs(pairs))
  {
    if pairs == [] {
      assert ReadablePairs(pairs) == [];
    } else {
      var key, value := pairs[0].0, pairs[0].1;
      PrintedReadBack(prefix, pairs[1..]);
      ReadableFirst(pairs);
      var rest := PrintAllSplit(prefix, pairs);
      ReadOne(prefix, key, value, rest);
    }
  }
}
