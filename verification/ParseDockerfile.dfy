/** src/lib/parseDockerfile.js: the instructions of the parser, with the line where each one
    starts and with the lines of a here-document merged into its RUN. */
module ParseDockerfile {
  import opened Dockerfile

  /** An instruction as docker-file-parser reports it: its upper-case name, the line it was
      reported at, its trimmed text, the here-document delimiter its arguments ask for, and
      whether it is a syntax comment. */
  datatype Parsed = Parsed(name: string, line: nat, text: string, delimiter: Option<string>, isSyntax: bool)

  /** A reported instruction: its index in the parse, and its first and last line. */
  datatype Reported = Reported(index: nat, start: nat, end: nat)

  /** The parse and the first word of each line, in upper case. */
  datatype Source = Source(instrs: seq<Parsed>, words: seq<string>)

  predicate StartsWith(s: Source, line: nat, name: string) {
    name != "" && line < |s.words| && s.words[line] == name
  }

  /** The closest line at or before `line` that starts with the name, or line 0. */
  function StartLine(s: Source, line: nat, name: string): nat {
    if line > 0 && !StartsWith(s, line, name) then StartLine(s, line - 1, name) else line
  }

  predicate Closes(p: Parsed, delimiter: string) {
    p.name == delimiter || p.text == delimiter
  }

  /** The first instruction after i that is the delimiter. */
  function CloseIndex(s: Source, j: nat, delimiter: string): Option<nat>
    requires j <= |s.instrs|
    decreases |s.instrs| - j
  {
    if j == |s.instrs| then None
    else if Closes(s.instrs[j], delimiter) then Some(j)
    else CloseIndex(s, j + 1, delimiter)
  }

  /** The last instruction that belongs to instruction i. */
  function LastPart(s: Source, i: nat): (r: nat)
    requires i < |s.instrs|
    ensures i <= r < |s.instrs|
  {
    var p := s.instrs[i];
    if p.name == "RUN" && p.delimiter.Some? then
      var close := CloseIndex(s, i + 1, p.delimiter.value);
      CloseIndexAfter(s, i + 1, p.delimiter.value);
      if close.Some? then close.value else i
    else i
  }

  lemma {:induction false} CloseIndexAfter(s: Source, j: nat, delimiter: string)
    requires j <= |s.instrs|
    ensures CloseIndex(s, j, delimiter).Some? ==>
              var k := CloseIndex(s, j, delimiter).value;
              j <= k < |s.instrs| && Closes(s.instrs[k], delimiter)
              && forall m :: j <= m < k ==> !Closes(s.instrs[m], delimiter)
    ensures CloseIndex(s, j, delimiter).None? ==> forall m :: j <= m < |s.instrs| ==> !Closes(s.instrs[m], delimiter)
    decreases |s.instrs| - j
  {
    if j < |s.instrs| && !Closes(s.instrs[j], delimiter) {
      CloseIndexAfter(s, j + 1, delimiter);
    }
  }

  predicate Dropped(p: Parsed, removeSyntaxComments: bool) {
    p.name == "COMMENT" && removeSyntaxComments && p.isSyntax
  }

  function ReportOf(s: Source, i: nat): Reported
    requires i < |s.instrs|
  {
    var p := s.instrs[i];
    Reported(i, if p.name == "COMMENT" then p.line else StartLine(s, p.line, p.name), s.instrs[LastPart(s, i)].line)
  }

  /** What is reported from instruction i on. */
  function Reports(s: Source, removeSyntaxComments: bool, i: nat): seq<Reported>
    requires i <= |s.instrs|
    decreases |s.instrs| - i
  {
    if i == |s.instrs| then []
    else if Dropped(s.instrs[i], removeSyntaxComments) then Reports(s, removeSyntaxComments, i + 1)
    else [ReportOf(s, i)] + Reports(s, removeSyntaxComments, LastPart(s, i) + 1)
  }

  /** Line l is the closest at or before `line` whose first word is the name, or line 0. */
  ghost predicate KeywordLine(s: Source, line: nat, name: string, l: nat) {
    && l <= line
    && (l == 0 || (name != "" && l < |s.words| && s.words[l] == name))
    && forall m :: l < m <= line && m < |s.words| && name != "" ==> s.words[m] != name
  }

  lemma {:induction false} StartLineFound(s: Source, line: nat, name: string)
    ensures KeywordLine(s, line, name, StartLine(s, line, name))
  {
    if line > 0 && !StartsWith(s, line, name) {
      StartLineFound(s, line - 1, name);
    }
  }

  // Which instructions are merged

  /** Instruction i is a RUN with a here-document, and j is the first later instruction that is its
      delimiter. */
  ghost predicate Merges(s: Source, i: nat, j: nat) {
    && i < j < |s.instrs| && s.instrs[i].name == "RUN" && s.instrs[i].delimiter.Some?
    && s.instrs[i].delimiter.value in [s.instrs[j].name, s.instrs[j].text]
    && forall m :: i < m < j ==> s.instrs[i].delimiter.value !in [s.instrs[m].name, s.instrs[m].text]
  }

  ghost predicate NothingMerged(s: Source, i: nat) {
    forall j: nat :: !Merges(s, i, j)
  }

  /** The merge of instruction i, if there is one, is its last part. */
  lemma {:induction false} LastPartMerges(s: Source, i: nat)
    requires i < |s.instrs|
    ensures if LastPart(s, i) > i then Merges(s, i, LastPart(s, i)) else NothingMerged(s, i)
    ensures forall j: nat :: Merges(s, i, j) ==> j == LastPart(s, i)
  {
    if s.instrs[i].delimiter.Some? {
      var d := s.instrs[i].delimiter.value;
      CloseIndexAfter(s, i + 1, d);
    }
  }

  // What is reported

  predicate SyntaxComment(p: Parsed) {
    p.name == "COMMENT" && p.isSyntax
  }

  /** A report ends at the delimiter of its here-document if it has one, else at its own line, and
      starts at its keyword. */
  ghost predicate RangeRight(s: Source, r: Reported) {
    && r.index < |s.instrs|
    && (forall j: nat :: Merges(s, r.index, j) ==> r.end == s.instrs[j].line)
    && (NothingMerged(s, r.index) ==> r.end == s.instrs[r.index].line)
    && var p := s.instrs[r.index];
       if p.name == "COMMENT" then r.start == p.line else KeywordLine(s, p.line, p.name, r.start)
  }

  /** Instruction i belongs to the here-document of a report. */
  ghost predicate InMerge(s: Source, rs: seq<Reported>, i: nat) {
    exists r, j: nat :: r in rs && r.index < i <= j && Merges(s, r.index, j)
  }

  ghost predicate Accounted(s: Source, removeSyntaxComments: bool, rs: seq<Reported>, i: nat)
    requires i < |s.instrs|
  {
    || (exists r :: r in rs && r.index == i)
    || (removeSyntaxComments && SyntaxComment(s.instrs[i]))
    || InMerge(s, rs, i)
  }

  ghost predicate Apart(s: Source, a: Reported, b: Reported) {
    a.index < b.index && forall j: nat :: Merges(s, a.index, j) ==> j < b.index
  }

  ghost predicate AllRanged(s: Source, removeSyntaxComments: bool, i: nat, rs: seq<Reported>) {
    forall r :: r in rs ==>
      i <= r.index && RangeRight(s, r) && !(removeSyntaxComments && SyntaxComment(s.instrs[r.index]))
  }

  ghost predicate AllApart(s: Source, rs: seq<Reported>) {
    forall k, m :: 0 <= k < m < |rs| ==> Apart(s, rs[k], rs[m])
  }

  ghost predicate AllAccounted(s: Source, removeSyntaxComments: bool, i: nat, rs: seq<Reported>) {
    forall k: nat :: i <= k < |s.instrs| ==> Accounted(s, removeSyntaxComments, rs, k)
  }

  /** The reports of the instructions from i on: every range is right, no removed comment and no part
      of a here-document is among them, and nothing else is missing. */
  ghost predicate ReportsRight(s: Source, removeSyntaxComments: bool, i: nat, rs: seq<Reported>) {
    && AllRanged(s, removeSyntaxComments, i, rs) && AllApart(s, rs) && AllAccounted(s, removeSyntaxComments, i, rs)
  }

  lemma {:induction false} ReportRight(s: Source, i: nat)
    requires i < |s.instrs|
    ensures RangeRight(s, ReportOf(s, i))
  {
    LastPartMerges(s, i);
    StartLineFound(s, s.instrs[i].line, s.instrs[i].name);
  }

  lemma {:induction false} AccountedMore(s: Source, removeSyntaxComments: bool, r: Reported, rs: seq<Reported>, k: nat)
    requires k < |s.instrs| && Accounted(s, removeSyntaxComments, rs, k)
    ensures Accounted(s, removeSyntaxComments, [r] + rs, k)
  {
    if x :| x in rs && x.index == k {
      assert x in [r] + rs;
    } else if InMerge(s, rs, k) {
      var x, j: nat :| x in rs && x.index < k <= j && Merges(s, x.index, j);
      assert x in [r] + rs;
    }
  }

  lemma {:induction false} FirstAccounts(s: Source, removeSyntaxComments: bool, i: nat, rs: seq<Reported>, k: nat)
    requires i < |s.instrs| && i <= k <= LastPart(s, i)
    ensures Accounted(s, removeSyntaxComments, [ReportOf(s, i)] + rs, k)
  {
    LastPartMerges(s, i);
    assert ReportOf(s, i) in [ReportOf(s, i)] + rs && ReportOf(s, i).index == i;
  }

  lemma {:induction false} FirstApart(s: Source, removeSyntaxComments: bool, i: nat, rs: seq<Reported>)
    requires i < |s.instrs| && AllRanged(s, removeSyntaxComments, LastPart(s, i) + 1, rs) && AllApart(s, rs)
    ensures AllApart(s, [ReportOf(s, i)] + rs)
  {
    var all := [ReportOf(s, i)] + rs;
    LastPartMerges(s, i);
    forall k, m | 0 <= k < m < |all| ensures Apart(s, all[k], all[m]) {
      assert all[m] == rs[m - 1] && rs[m - 1] in rs;
      if k > 0 {
        assert all[k] == rs[k - 1];
      }
    }
  }

  lemma {:induction false} FirstRanged(s: Source, removeSyntaxComments: bool, i: nat, rs: seq<Reported>)
    requires i < |s.instrs| && !Dropped(s.instrs[i], removeSyntaxComments)
    requires AllRanged(s, removeSyntaxComments, LastPart(s, i) + 1, rs)
    ensures AllRanged(s, removeSyntaxComments, i, [ReportOf(s, i)] + rs)
  {
    ReportRight(s, i);
  }

  lemma {:induction false} FirstAccounted(s: Source, removeSyntaxComments: bool, i: nat, rs: seq<Reported>)
    requires i < |s.instrs| && AllAccounted(s, removeSyntaxComments, LastPart(s, i) + 1, rs)
    ensures AllAccounted(s, removeSyntaxComments, i, [ReportOf(s, i)] + rs)
  {
    forall k: nat | i <= k < |s.instrs| ensures Accounted(s, removeSyntaxComments, [ReportOf(s, i)] + rs, k) {
      if k <= LastPart(s, i) {
        FirstAccounts(s, removeSyntaxComments, i, rs, k);
      } else {
        AccountedMore(s, removeSyntaxComments, ReportOf(s, i), rs, k);
      }
    }
  }

  lemma {:induction false} OneMoreRight(s: Source, removeSyntaxComments: bool, i: nat, rs: seq<Reported>)
    requires i < |s.instrs| && !Dropped(s.instrs[i], removeSyntaxComments)
    requires ReportsRight(s, removeSyntaxComments, LastPart(s, i) + 1, rs)
    ensures ReportsRight(s, removeSyntaxComments, i, [ReportOf(s, i)] + rs)
  {
    FirstRanged(s, removeSyntaxComments, i, rs);
    FirstApart(s, removeSyntaxComments, i, rs);
    FirstAccounted(s, removeSyntaxComments, i, rs);
  }

  lemma {:induction false} DroppedRight(s: Source, removeSyntaxComments: bool, i: nat, rs: seq<Reported>)
    requires i < |s.instrs| && Dropped(s.instrs[i], removeSyntaxComments)
    requires ReportsRight(s, removeSyntaxComments, i + 1, rs)
    ensures ReportsRight(s, removeSyntaxComments, i, rs)
  {
    forall k: nat | i <= k < |s.instrs| ensures Accounted(s, removeSyntaxComments, rs, k) {
    }
  }

  lemma {:induction false} NothingRight(s: Source, removeSyntaxComments: bool)
    ensures ReportsRight(s, removeSyntaxComments, |s.instrs|, [])
  {
  }

  lemma {:induction false} ReportsNext(s: Source, removeSyntaxComments: bool, i: nat, next: nat)
    requires i < |s.instrs|
    requires next == if Dropped(s.instrs[i], removeSyntaxComments) then i + 1 else LastPart(s, i) + 1
    ensures Reports(s, removeSyntaxComments, i)
            == (if Dropped(s.instrs[i], removeSyntaxComments) then [] else [ReportOf(s, i)])
               + Reports(s, removeSyntaxComments, next)
  {
  }

  lemma {:induction false} NextRight(s: Source, removeSyntaxComments: bool, i: nat, next: nat, rs: seq<Reported>)
    requires i < |s.instrs| && ReportsRight(s, removeSyntaxComments, next, rs)
    requires next == if Dropped(s.instrs[i], removeSyntaxComments) then i + 1 else LastPart(s, i) + 1
    ensures ReportsRight(s, removeSyntaxComments, i,
                         (if Dropped(s.instrs[i], removeSyntaxComments) then [] else [ReportOf(s, i)]) + rs)
  {
    if Dropped(s.instrs[i], removeSyntaxComments) {
      DroppedRight(s, removeSyntaxComments, i, rs);
      assert [] + rs == rs;
    } else {
      OneMoreRight(s, removeSyntaxComments, i, rs);
    }
  }

  lemma {:induction false} ReportsExactly(s: Source, removeSyntaxComments: bool, i: nat)
    requires i <= |s.instrs|
    ensures ReportsRight(s, removeSyntaxComments, i, Reports(s, removeSyntaxComments, i))
    decreases |s.instrs| - i
  {
    if i == |s.instrs| {
      NothingRight(s, removeSyntaxComments);
    } else {
      var next := if Dropped(s.instrs[i], removeSyntaxComments) then i + 1 else LastPart(s, i) + 1;
      ReportsExactly(s, removeSyntaxComments, next);
      ReportsNext(s, removeSyntaxComments, i, next);
      NextRight(s, removeSyntaxComments, i, next, Reports(s, removeSyntaxComments, next));
    }
  }

  method FindStart(s: Source, line: nat, name: string) returns (start: nat)
    ensures start == StartLine(s, line, name) && KeywordLine(s, line, name, start)
  {
    StartLineFound(s, line, name);
    start := line;
    while start > 0 && !StartsWith(s, start, name)
      invariant StartLine(s, start, name) == StartLine(s, line, name)
    {
      start := start - 1;
    }
  }

  method FindHereDocClose(s: Source, i: nat, delimiter: string) returns (close: Option<nat>)
    requires i < |s.instrs|
    ensures close == CloseIndex(s, i + 1, delimiter)
  {
    var j := i + 1;
    while j < |s.instrs|
      invariant i < j <= |s.instrs|
      invariant CloseIndex(s, j, delimiter) == CloseIndex(s, i + 1, delimiter)
    {
      if Closes(s.instrs[j], delimiter) {
        return Some(j);
      }
      j := j + 1;
    }
    close := None;
  }

  /** Where instruction i starts and which instruction is its last part. */
  method LocateInstruction(s: Source, i: nat) returns (start: nat, closeIndex: nat)
    requires i < |s.instrs|
    ensures Reported(i, start, s.instrs[LastPart(s, i)].line) == ReportOf(s, i)
    ensures closeIndex == LastPart(s, i)
  {
    var p := s.instrs[i];
    start := p.line;
    if p.name != "COMMENT" {
      start := FindStart(s, p.line, p.name);
    }
    closeIndex := i;
    if p.name == "RUN" && p.delimiter.Some? {
      var close := FindHereDocClose(s, i, p.delimiter.value);
      CloseIndexAfter(s, i + 1, p.delimiter.value);
      if close.Some? {
        closeIndex := close.value;
      }
    }
  }

  lemma {:induction false} ReportAppended(results: seq<Reported>, r: Reported, rest: seq<Reported>)
    ensures results + ([r] + rest) == (results + [r]) + rest
  {
  }

  /** The loop over the instructions, which moves its own index past a merged here-document. */
  method ReportInstructions(s: Source, removeSyntaxComments: bool) returns (results: seq<Reported>)
    ensures results == Reports(s, removeSyntaxComments, 0)
    ensures ReportsRight(s, removeSyntaxComments, 0, results)
  {
    ReportsExactly(s, removeSyntaxComments, 0);
    results := [];
    var i := 0;
    while i < |s.instrs|
      invariant 0 <= i <= |s.instrs|
      invariant results + Reports(s, removeSyntaxComments, i) == Reports(s, removeSyntaxComments, 0)
      decreases |s.instrs| - i
    {
      if Dropped(s.instrs[i], removeSyntaxComments) {
        i := i + 1;
      } else {
        var start, closeIndex := LocateInstruction(s, i);
        ReportAppended(results, ReportOf(s, i), Reports(s, removeSyntaxComments, closeIndex + 1));
        results := results + [Reported(i, start, s.instrs[closeIndex].line)];
        i := closeIndex + 1;
      }
    }
  }

  // The reported ranges

  /** The keyword of instruction i starts a line l after the previous instruction. */
  predicate KeywordAt(s: Source, i: nat, l: nat)
    requires i < |s.instrs|
  {
    (i > 0 ==> s.instrs[i - 1].line < l) && l <= s.instrs[i].line && StartsWith(s, l, s.instrs[i].name)
  }

  ghost predicate KeywordFound(s: Source, i: int) {
    0 <= i < |s.instrs| && s.instrs[i].name != "COMMENT" ==> exists l: nat :: KeywordAt(s, i, l)
  }

  /** What the parser promises: lines grow, and the keyword of an instruction starts a line after
      the previous instruction. */
  ghost predicate WellParsed(s: Source) {
    && (forall i, j :: 0 <= i < j < |s.instrs| ==> s.instrs[i].line < s.instrs[j].line)
    && forall i :: KeywordFound(s, i)
  }

  lemma {:induction false} StartFound(s: Source, line: nat, name: string, l: nat)
    requires l <= line && StartsWith(s, l, name)
    ensures l <= StartLine(s, line, name) <= line && StartsWith(s, StartLine(s, line, name), name)
    decreases line
  {
    if line > 0 && !StartsWith(s, line, name) {
      StartFound(s, line - 1, name, l);
    }
  }

  /** A report starts after the previous instruction, at its keyword, and ends no earlier. */
  lemma {:induction false} ReportInPlace(s: Source, i: nat)
    requires WellParsed(s) && i < |s.instrs|
    ensures var r := ReportOf(s, i);
            && (i > 0 ==> s.instrs[i - 1].line < r.start)
            && r.start <= s.instrs[i].line <= r.end
            && (s.instrs[i].name != "COMMENT" ==> StartsWith(s, r.start, s.instrs[i].name))
  {
    var p := s.instrs[i];
    if p.name != "COMMENT" {
      assert KeywordFound(s, i);
      var l: nat :| KeywordAt(s, i, l);
      StartFound(s, p.line, p.name, l);
    }
  }

  /** A report of an instruction from i on: its range, which starts at its keyword. */
  ghost predicate InPlace(s: Source, i: nat, r: Reported) {
    && i <= r.index < |s.instrs| && r == ReportOf(s, r.index) && r.start <= r.end
    && (r.index > 0 ==> s.instrs[r.index - 1].line < r.start)
    && (s.instrs[r.index].name != "COMMENT" ==> StartsWith(s, r.start, s.instrs[r.index].name))
  }

  lemma {:induction false} ReportsInPlace(s: Source, removeSyntaxComments: bool, i: nat)
    requires WellParsed(s) && i <= |s.instrs|
    ensures forall r :: r in Reports(s, removeSyntaxComments, i) ==> InPlace(s, i, r)
    decreases |s.instrs| - i
  {
    if i < |s.instrs| {
      if Dropped(s.instrs[i], removeSyntaxComments) {
        ReportsInPlace(s, removeSyntaxComments, i + 1);
      } else {
        ReportsInPlace(s, removeSyntaxComments, LastPart(s, i) + 1);
        ReportInPlace(s, i);
      }
    }
  }

  /** One report lies before another, and no part of it is the other's instruction. */
  ghost predicate Before(s: Source, a: Reported, b: Reported) {
    a.index < |s.instrs| && a.end < b.start && LastPart(s, a.index) < b.index
  }

  ghost predicate Increasing(s: Source, rs: seq<Reported>) {
    forall k, m :: 0 <= k < m < |rs| ==> Before(s, rs[k], rs[m])
  }

  lemma {:induction false} FirstBefore(s: Source, removeSyntaxComments: bool, i: nat)
    requires WellParsed(s) && i < |s.instrs|
    ensures forall r :: r in Reports(s, removeSyntaxComments, LastPart(s, i) + 1) ==> Before(s, ReportOf(s, i), r)
  {
    var last := LastPart(s, i);
    ReportsInPlace(s, removeSyntaxComments, last + 1);
    forall r | r in Reports(s, removeSyntaxComments, last + 1) ensures Before(s, ReportOf(s, i), r) {
      assert InPlace(s, last + 1, r);
      assert s.instrs[last].line <= s.instrs[r.index - 1].line;
    }
  }

  lemma {:induction false} IncreasingFrom(s: Source, r: Reported, more: seq<Reported>)
    requires Increasing(s, more) && forall x :: x in more ==> Before(s, r, x)
    ensures Increasing(s, [r] + more)
  {
    var all := [r] + more;
    forall k, m | 0 <= k < m < |all| ensures Before(s, all[k], all[m]) {
      assert all[m] == more[m - 1];
      if k > 0 {
        assert all[k] == more[k - 1];
      }
    }
  }

  lemma {:induction false} ReportsIncrease(s: Source, removeSyntaxComments: bool, i: nat)
    requires WellParsed(s) && i <= |s.instrs|
    ensures Increasing(s, Reports(s, removeSyntaxComments, i))
    decreases |s.instrs| - i
  {
    if i < |s.instrs| {
      if Dropped(s.instrs[i], removeSyntaxComments) {
        ReportsIncrease(s, removeSyntaxComments, i + 1);
      } else {
        ReportsIncrease(s, removeSyntaxComments, LastPart(s, i) + 1);
        FirstBefore(s, removeSyntaxComments, i);
        IncreasingFrom(s, ReportOf(s, i), Reports(s, removeSyntaxComments, LastPart(s, i) + 1));
      }
    }
  }

  /** The reported ranges are disjoint and increasing, every range but a comment's starts at its
      keyword, and no part of a merged here-document is reported again. */
  lemma {:induction false} ReportsDisjoint(s: Source, removeSyntaxComments: bool)
    requires WellParsed(s)
    ensures var rs := Reports(s, removeSyntaxComments, 0);
            && (forall r :: r in rs ==>
                  r.index < |s.instrs| && r.start <= r.end
                  && (s.instrs[r.index].name != "COMMENT" ==> StartsWith(s, r.start, s.instrs[r.index].name)))
            && (forall k, m :: 0 <= k < m < |rs| ==>
                  rs[k].end < rs[m].start && forall j: nat :: Merges(s, rs[k].index, j) ==> j < rs[m].index)
  {
    ReportsExactly(s, removeSyntaxComments, 0);
    ReportsInPlace(s, removeSyntaxComments, 0);
    ReportsIncrease(s, removeSyntaxComments, 0);
    var rs := Reports(s, removeSyntaxComments, 0);
    forall k, m | 0 <= k < m < |rs| ensures Before(s, rs[k], rs[m]) && Apart(s, rs[k], rs[m]) {
    }
  }

  function HereDoc(): Source {
    Source([Parsed("RUN", 0, "RUN <<EOF", Some("EOF"), false), Parsed("ECHO", 1, "echo hi", None, false),
            Parsed("EOF", 2, "EOF", None, false)],
           ["RUN", "ECHO", "EOF"])
  }

  /** A here-document of three lines is reported as one instruction. */
  lemma {:induction false} HereDocMerged(removeSyntaxComments: bool)
    ensures WellParsed(HereDoc()) && Reports(HereDoc(), removeSyntaxComments, 0) == [Reported(0, 0, 2)]
  {
    var s := HereDoc();
    forall i ensures KeywordFound(s, i) {
      if 0 <= i < 3 {
        assert KeywordAt(s, i, i);
      }
    }
    assert CloseIndex(s, 2, "EOF") == Some(2) && CloseIndex(s, 1, "EOF") == Some(2);
    assert LastPart(s, 0) == 2 && Reports(s, removeSyntaxComments, 3) == [];
  }
}
