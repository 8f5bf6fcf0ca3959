/** src/lib/downloadWithCache.js, fetchOnce: conditional requests over a cache file that several
    processes share, while the origin publishes new versions. */
module HttpCache {
  import opened Dockerfile

  /** A response body with its two validators, the ETag and the time of Last-Modified, on the wire
      and in the cache file. */
  datatype Version = Version(content: string, etag: Option<string>, modified: Option<nat>)

  /** If-None-Match and If-Modified-Since. */
  datatype Conditions = Conditions(etag: Option<string>, modified: Option<nat>)

  datatype Reply = Fresh | Full | StatusError | NetworkError

  datatype Result =
    | Returned(content: string, at: nat)
    | ReturnedStale(content: string)
    | Thrown

  /** One call: `sent` are the conditions in its request, `at` the version that answered it. */
  datatype Fetch =
    | Started
    | Waiting(cached: Option<Version>, sent: Conditions)
    | Writing(reply: Version, at: nat)
    | Finished(result: Result)

  /** `origin` lists the published versions, the current one last; `stored` all entries that were
      ever written to the cache file. */
  datatype State = State(origin: seq<Version>, file: Option<Version>, stored: seq<Version>, fetches: seq<Fetch>)

  datatype Step =
    | Publish(version: Version)
    | Start
    | ReadFile(fetch: nat, readable: bool)
    | Answer(fetch: nat, reply: Reply)
    | WriteFile(fetch: nat, succeeds: bool)

  function Initial(first: Version): State {
    State([first], None, [], [])
  }

  function ConditionsOf(cached: Option<Version>): Conditions {
    if cached.Some? then Conditions(cached.value.etag, cached.value.modified) else Conditions(None, None)
  }

  /** When an origin may answer 304: If-None-Match decides if it is present, else
      If-Modified-Since (section 13.2.2 of RFC 9110). */
  predicate NotModified(sent: Conditions, current: Version) {
    if sent.etag.Some? then sent.etag == current.etag
    else sent.modified.Some? && current.modified.Some? && current.modified.value <= sent.modified.value
  }

  predicate Enabled(s: State, step: Step) {
    match step
    case Publish(_) => true
    case Start => true
    case ReadFile(f, _) => f < |s.fetches| && s.fetches[f].Started?
    case Answer(f, reply) =>
      && f < |s.fetches| && s.fetches[f].Waiting? && s.origin != []
      && (reply.Fresh? ==> NotModified(s.fetches[f].sent, s.origin[|s.origin| - 1]))
    case WriteFile(f, _) => f < |s.fetches| && s.fetches[f].Writing?
  }

  /** What the code does with a reply. */
  function Answered(origin: seq<Version>, cached: Option<Version>, reply: Reply): Fetch
    requires origin != []
  {
    var at := |origin| - 1;
    match reply
    case Fresh =>
      if cached.Some? then Finished(Returned(cached.value.content, at)) else Writing(Version("", None, None), at)
    case Full => Writing(origin[at], at)
    case StatusError => Finished(Thrown)
    case NetworkError => Finished(if cached.Some? then ReturnedStale(cached.value.content) else Thrown)
  }

  function Next(s: State, step: Step): State {
    if !Enabled(s, step) then s
    else
      match step
      case Publish(v) => s.(origin := s.origin + [v])
      case Start => s.(fetches := s.fetches + [Started])
      case ReadFile(f, readable) =>
        var cached := if readable then s.file else None;
        s.(fetches := s.fetches[f := Waiting(cached, ConditionsOf(cached))])
      case Answer(f, reply) => s.(fetches := s.fetches[f := Answered(s.origin, s.fetches[f].cached, reply)])
      case WriteFile(f, succeeds) =>
        var w := s.fetches[f];
        if succeeds
        then State(s.origin, Some(w.reply), s.stored + [w.reply],
                   s.fetches[f := Finished(Returned(w.reply.content, w.at))])
        else s.(fetches := s.fetches[f := Finished(Thrown)])
  }

  function After(first: Version, steps: seq<Step>): State {
    if steps == [] then Initial(first) else Next(After(first, steps[..|steps| - 1]), steps[|steps| - 1])
  }

  /** Validators vouch for content: what a later version calls not modified is not modified. */
  ghost predicate Validating(origin: seq<Version>) {
    forall i, j :: 0 <= i <= j < |origin| && NotModified(ConditionsOf(Some(origin[i])), origin[j]) ==>
                     origin[i].content == origin[j].content
  }

  ghost predicate FetchOk(s: State, f: Fetch) {
    match f
    case Started => true
    case Waiting(cached, sent) => sent == ConditionsOf(cached) && (cached.Some? ==> cached.value in s.stored)
    case Writing(reply, at) => at < |s.origin| && reply == s.origin[at]
    case Finished(Returned(content, at)) => at < |s.origin| && content == s.origin[at].content
    case Finished(ReturnedStale(content)) => exists v :: v in s.stored && v.content == content
    case Finished(Thrown) => true
  }

  ghost predicate Coherent(s: State) {
    && s.origin != []
    && (s.file.Some? ==> s.file.value in s.stored)
    && (forall v :: v in s.stored ==> v in s.origin)
    && forall f :: 0 <= f < |s.fetches| ==> FetchOk(s, s.fetches[f])
  }

  ghost predicate FreshCurrent(s: State, f: nat) {
    Enabled(s, Answer(f, Fresh)) ==>
      s.fetches[f].cached.Some? && s.fetches[f].cached.value.content == s.origin[|s.origin| - 1].content
  }

  /** The 304 case: the stored content is the current content, because the conditions that were
      sent came with it. */
  lemma {:induction false} FreshIsCurrent(s: State, f: nat)
    requires Coherent(s) && Validating(s.origin)
    ensures FreshCurrent(s, f)
  {
    if Enabled(s, Answer(f, Fresh)) {
      assert FetchOk(s, s.fetches[f]);
      var v := s.fetches[f].cached.value;
      assert v in s.origin;
      var i :| 0 <= i < |s.origin| && s.origin[i] == v;
    }
  }

  lemma {:induction false} FetchStaysOk(s: State, t: State, f: Fetch)
    requires FetchOk(s, f) && s.origin <= t.origin && forall v :: v in s.stored ==> v in t.stored
    ensures FetchOk(t, f)
  {
  }

  lemma {:induction false} StepKeepsCoherent(s: State, step: Step)
    requires Coherent(s) && Validating(s.origin)
    ensures Coherent(Next(s, step))
  {
    var t := Next(s, step);
    if Enabled(s, step) {
      if step.Answer? && step.reply.Fresh? {
        FreshIsCurrent(s, step.fetch);
      }
      NextFetchOk(s, step);
      forall f | 0 <= f < |t.fetches| ensures FetchOk(t, t.fetches[f]) {
        if f < |s.fetches| && t.fetches[f] == s.fetches[f] {
          FetchStaysOk(s, t, s.fetches[f]);
        }
      }
    }
  }

  lemma {:induction false} NextFetchOk(s: State, step: Step)
    requires Coherent(s) && Enabled(s, step) && Validating(s.origin)
    ensures s.origin <= Next(s, step).origin && forall v :: v in s.stored ==> v in Next(s, step).stored
    ensures (step.ReadFile? || step.Answer? || step.WriteFile?) ==>
              FetchOk(Next(s, step), Next(s, step).fetches[step.fetch])
              && forall f :: 0 <= f < |s.fetches| && f != step.fetch ==> Next(s, step).fetches[f] == s.fetches[f]
  {
    if step.ReadFile? || step.Answer? || step.WriteFile? {
      assert FetchOk(s, s.fetches[step.fetch]);
      if step.Answer? && step.reply.Fresh? {
        FreshIsCurrent(s, step.fetch);
      }
    }
  }

  lemma {:induction false} OriginGrows(s: State, step: Step)
    ensures s.origin <= Next(s, step).origin
  {
  }

  lemma {:induction false} ValidatingBefore(origin: seq<Version>, longer: seq<Version>)
    requires Validating(longer) && origin <= longer
    ensures Validating(origin)
  {
  }

  /** Cache coherence, over every run of any number of fetches and processes: what a fetch returns
      is the origin's content at the moment of the reply; only after a network failure it is the
      content of an earlier reply that was stored. */
  lemma {:induction false} RunsAreCoherent(first: Version, steps: seq<Step>)
    requires Validating(After(first, steps).origin)
    ensures Coherent(After(first, steps))
  {
    if steps != [] {
      var s, step := After(first, steps[..|steps| - 1]), steps[|steps| - 1];
      OriginGrows(s, step);
      ValidatingBefore(s.origin, Next(s, step).origin);
      RunsAreCoherent(first, steps[..|steps| - 1]);
      StepKeepsCoherent(s, step);
    }
  }

  /** Each answer is recorded with the version that was current then; only a network failure lets
      stored content through without asking. */
  lemma {:induction false} AnswersAreCurrent(first: Version, steps: seq<Step>, f: nat, reply: Reply)
    requires Enabled(After(first, steps), Answer(f, reply)) && Validating(After(first, steps).origin)
    ensures var s := After(first, steps); var t := Next(s, Answer(f, reply)).fetches[f];
            match reply
            case Fresh => t == Finished(Returned(s.origin[|s.origin| - 1].content, |s.origin| - 1))
            case Full => t == Writing(s.origin[|s.origin| - 1], |s.origin| - 1)
            case StatusError => t == Finished(Thrown)
            case NetworkError =>
              var entry := s.fetches[f].cached;
              && (entry.Some? ==> t == Finished(ReturnedStale(entry.value.content)) && entry.value in s.stored)
              && (entry.None? ==> t == Finished(Thrown))
  {
    var s := After(first, steps);
    RunsAreCoherent(first, steps);
    assert FetchOk(s, s.fetches[f]);
    if reply.Fresh? {
      FreshIsCurrent(s, f);
    }
  }

  /** An unchanged version is confirmed whenever it has a validator; a newer date alone is not. */
  lemma {:induction false} ValidatorsAnswer(v: Version, w: Version)
    ensures NotModified(ConditionsOf(Some(v)), v) <==> v.etag.Some? || v.modified.Some?
    ensures v.etag.Some? && v.etag != w.etag ==> !NotModified(ConditionsOf(Some(v)), w)
    ensures v.etag.None? && v.modified.Some? && w.modified.Some? && v.modified.value < w.modified.value ==>
              !NotModified(ConditionsOf(Some(v)), w)
  {
  }

  /** A fetch that has a result keeps it. */
  lemma {:induction false} ResultsStay(first: Version, steps: seq<Step>, n: nat, f: nat)
    requires n <= |steps| && f < |After(first, steps[..n]).fetches| && After(first, steps[..n]).fetches[f].Finished?
    ensures f < |After(first, steps).fetches| && After(first, steps).fetches[f] == After(first, steps[..n]).fetches[f]
  {
    if n == |steps| {
      assert steps[..n] == steps;
    } else {
      assert steps[..|steps| - 1][..n] == steps[..n];
      ResultsStay(first, steps[..|steps| - 1], n, f);
    }
  }

  // What a fetch did decides its result

  /** The k-th step of the run is this one, and it is taken. */
  ghost predicate Did(first: Version, steps: seq<Step>, k: nat, step: Step) {
    k < |steps| && steps[k] == step && Enabled(After(first, steps[..k]), step)
  }

  /** The fetch read this entry from the cache file at step a, or none. */
  ghost predicate Read(first: Version, steps: seq<Step>, f: nat, a: nat, entry: Option<Version>) {
    || (Did(first, steps, a, ReadFile(f, true)) && entry == After(first, steps[..a]).file)
    || (Did(first, steps, a, ReadFile(f, false)) && entry == None)
  }

  /** At step b, after reading the entry, the fetch got the reply, when `current` was the last of
      `at + 1` published versions. */
  ghost predicate Got(first: Version, steps: seq<Step>, f: nat, b: nat, entry: Option<Version>, reply: Reply,
                      current: Version, at: nat) {
    && Did(first, steps, b, Answer(f, reply)) && (exists a: nat :: a < b && Read(first, steps, f, a, entry))
    && |After(first, steps[..b]).origin| == at + 1 && After(first, steps[..b]).origin[at] == current
  }

  /** The reply was 2xx, and at step c, after it, the fetch wrote the file or failed to. */
  ghost predicate Wrote(first: Version, steps: seq<Step>, f: nat, c: nat, succeeds: bool, current: Version, at: nat) {
    && Did(first, steps, c, WriteFile(f, succeeds))
    && exists b: nat, entry :: b < c && Got(first, steps, f, b, entry, Full, current, at)
  }

  /** How a fetch can have come to a result. */
  ghost predicate Explained(first: Version, steps: seq<Step>, f: nat, result: Result) {
    match result
    case Returned(content, at) =>
      || (exists b: nat, v, current :: Got(first, steps, f, b, Some(v), Fresh, current, at) && content == v.content)
      || (exists c: nat, current :: Wrote(first, steps, f, c, true, current, at) && content == current.content)
    case ReturnedStale(content) =>
      exists b: nat, v, current, at: nat ::
        Got(first, steps, f, b, Some(v), NetworkError, current, at) && content == v.content
    case Thrown =>
      || (exists b: nat, entry, current, at: nat :: Got(first, steps, f, b, entry, StatusError, current, at))
      || (exists b: nat, current, at: nat :: Got(first, steps, f, b, None, NetworkError, current, at))
      || (exists c: nat, current, at: nat :: Wrote(first, steps, f, c, false, current, at))
  }

  /** The conditions of a request are the validators of the entry. */
  ghost predicate Asks(entry: Option<Version>, sent: Conditions) {
    if entry.Some? then sent.etag == entry.value.etag && sent.modified == entry.value.modified
    else sent.etag.None? && sent.modified.None?
  }

  ghost predicate History(first: Version, steps: seq<Step>, f: nat, fetch: Fetch) {
    match fetch
    case Started => true
    case Waiting(entry, sent) => Asks(entry, sent) && exists a: nat :: Read(first, steps, f, a, entry)
    case Writing(reply, at) => exists b: nat, entry :: Got(first, steps, f, b, entry, Full, reply, at)
    case Finished(result) => Explained(first, steps, f, result)
  }

  lemma {:induction false} DidMore(first: Version, steps: seq<Step>, last: Step, k: nat, step: Step)
    requires Did(first, steps, k, step)
    ensures Did(first, steps + [last], k, step) && (steps + [last])[..k] == steps[..k]
  {
    assert (steps + [last])[..k] == steps[..k];
  }

  lemma {:induction false} ReadMore(first: Version, steps: seq<Step>, last: Step, f: nat, a: nat,
                                    entry: Option<Version>)
    requires Read(first, steps, f, a, entry)
    ensures Read(first, steps + [last], f, a, entry)
  {
    DidMore(first, steps, last, a, steps[a]);
  }

  lemma {:induction false} GotMore(first: Version, steps: seq<Step>, last: Step, f: nat, b: nat,
                                   entry: Option<Version>, reply: Reply, current: Version, at: nat)
    requires Got(first, steps, f, b, entry, reply, current, at)
    ensures Got(first, steps + [last], f, b, entry, reply, current, at)
  {
    DidMore(first, steps, last, b, steps[b]);
    var a: nat :| a < b && Read(first, steps, f, a, entry);
    ReadMore(first, steps, last, f, a, entry);
  }

  lemma {:induction false} WroteMore(first: Version, steps: seq<Step>, last: Step, f: nat, c: nat, succeeds: bool,
                                     current: Version, at: nat)
    requires Wrote(first, steps, f, c, succeeds, current, at)
    ensures Wrote(first, steps + [last], f, c, succeeds, current, at)
  {
    DidMore(first, steps, last, c, steps[c]);
    var b: nat, entry :| b < c && Got(first, steps, f, b, entry, Full, current, at);
    GotMore(first, steps, last, f, b, entry, Full, current, at);
  }

  lemma {:induction false} ExplainedMore(first: Version, steps: seq<Step>, last: Step, f: nat, result: Result)
    requires Explained(first, steps, f, result)
    ensures Explained(first, steps + [last], f, result)
  {
    forall b: nat, entry, reply, current, at: nat | Got(first, steps, f, b, entry, reply, current, at)
      ensures Got(first, steps + [last], f, b, entry, reply, current, at)
    {
      GotMore(first, steps, last, f, b, entry, reply, current, at);
    }
    forall c: nat, succeeds, current, at: nat | Wrote(first, steps, f, c, succeeds, current, at)
      ensures Wrote(first, steps + [last], f, c, succeeds, current, at)
    {
      WroteMore(first, steps, last, f, c, succeeds, current, at);
    }
  }

  lemma {:induction false} HistoryMore(first: Version, steps: seq<Step>, last: Step, f: nat, fetch: Fetch)
    requires History(first, steps, f, fetch)
    ensures History(first, steps + [last], f, fetch)
  {
    match fetch
    case Started =>
    case Waiting(entry, _) =>
      var a: nat :| Read(first, steps, f, a, entry);
      ReadMore(first, steps, last, f, a, entry);
    case Writing(reply, at) =>
      var b: nat, entry :| Got(first, steps, f, b, entry, Full, reply, at);
      GotMore(first, steps, last, f, b, entry, Full, reply, at);
    case Finished(result) => ExplainedMore(first, steps, last, f, result);
  }

  lemma {:induction false} DidLast(first: Version, steps: seq<Step>, last: Step)
    requires Enabled(After(first, steps), last)
    ensures Did(first, steps + [last], |steps|, last) && (steps + [last])[..|steps|] == steps
  {
    assert (steps + [last])[..|steps|] == steps;
  }

  lemma {:induction false} ReadHistory(first: Version, steps: seq<Step>, last: Step)
    requires last.ReadFile? && Enabled(After(first, steps), last)
    ensures History(first, steps + [last], last.fetch, Next(After(first, steps), last).fetches[last.fetch])
  {
    DidLast(first, steps, last);
    assert Read(first, steps + [last], last.fetch, |steps|, if last.readable then After(first, steps).file else None);
  }

  lemma {:induction false} AnswerHistory(first: Version, steps: seq<Step>, last: Step)
    requires last.Answer? && Enabled(After(first, steps), last)
    requires History(first, steps, last.fetch, After(first, steps).fetches[last.fetch])
    ensures History(first, steps + [last], last.fetch, Next(After(first, steps), last).fetches[last.fetch])
  {
    var s, f := After(first, steps), last.fetch;
    var entry, at := s.fetches[f].cached, |s.origin| - 1;
    DidLast(first, steps, last);
    var a: nat :| Read(first, steps, f, a, entry);
    ReadMore(first, steps, last, f, a, entry);
    assert Got(first, steps + [last], f, |steps|, entry, last.reply, s.origin[at], at);
  }

  lemma {:induction false} WriteHistory(first: Version, steps: seq<Step>, last: Step)
    requires last.WriteFile? && Enabled(After(first, steps), last)
    requires History(first, steps, last.fetch, After(first, steps).fetches[last.fetch])
    ensures History(first, steps + [last], last.fetch, Next(After(first, steps), last).fetches[last.fetch])
    ensures var w := After(first, steps).fetches[last.fetch];
            Wrote(first, steps + [last], last.fetch, |steps|, last.succeeds, w.reply, w.at)
  {
    var f := last.fetch;
    var w := After(first, steps).fetches[f];
    DidLast(first, steps, last);
    var b: nat, entry :| Got(first, steps, f, b, entry, Full, w.reply, w.at);
    GotMore(first, steps, last, f, b, entry, Full, w.reply, w.at);
    assert Wrote(first, steps + [last], f, |steps|, last.succeeds, w.reply, w.at);
  }

  /** In every run the result of a fetch follows from what it did: after 304 it is the entry that it
      read, after 2xx the current content if the file could be written, after a network failure the
      entry that it read, and else an error. */
  lemma {:induction false} ResultsExplained(first: Version, steps: seq<Step>, f: nat)
    requires f < |After(first, steps).fetches|
    ensures History(first, steps, f, After(first, steps).fetches[f])
  {
    if steps != [] {
      var before, last := steps[..|steps| - 1], steps[|steps| - 1];
      assert steps == before + [last];
      var s := After(first, before);
      if f < |s.fetches| {
        ResultsExplained(first, before, f);
        if Enabled(s, last) && last.ReadFile? && last.fetch == f {
          ReadHistory(first, before, last);
        } else if Enabled(s, last) && last.Answer? && last.fetch == f {
          AnswerHistory(first, before, last);
        } else if Enabled(s, last) && last.WriteFile? && last.fetch == f {
          WriteHistory(first, before, last);
        } else {
          HistoryMore(first, before, last, f, s.fetches[f]);
        }
      }
    }
  }

  /** The cache file holds what the last successful write put there. */
  ghost predicate LastWritten(first: Version, steps: seq<Step>, file: Option<Version>) {
    match file
    case None => forall c: nat, f :: !Did(first, steps, c, WriteFile(f, true))
    case Some(v) =>
      exists c: nat, f, at: nat :: Wrote(first, steps, f, c, true, v, at)
                                   && forall d: nat, g :: c < d ==> !Did(first, steps, d, WriteFile(g, true))
  }

  lemma {:induction false} DidBefore(first: Version, steps: seq<Step>, last: Step, k: nat, step: Step)
    requires Did(first, steps + [last], k, step)
    ensures k < |steps| ==> Did(first, steps, k, step)
    ensures k >= |steps| ==> k == |steps| && step == last && Enabled(After(first, steps), last)
  {
    assert (steps + [last])[..k] == if k < |steps| then steps[..k] else steps;
  }

  lemma {:induction false} FileIsLastWrite(first: Version, steps: seq<Step>)
    ensures LastWritten(first, steps, After(first, steps).file)
  {
    if steps != [] {
      var before, last := steps[..|steps| - 1], steps[|steps| - 1];
      assert steps == before + [last];
      FileIsLastWrite(first, before);
      var s := After(first, before);
      if last.WriteFile? && last.succeeds && Enabled(s, last) {
        ResultsExplained(first, before, last.fetch);
        WriteHistory(first, before, last);
      } else if s.file.Some? {
        var c: nat, f, at: nat :| Wrote(first, before, f, c, true, s.file.value, at)
                                  && forall d: nat, g :: c < d ==> !Did(first, before, d, WriteFile(g, true));
        WroteMore(first, before, last, f, c, true, s.file.value, at);
        forall d: nat, g | c < d ensures !Did(first, steps, d, WriteFile(g, true)) {
          if Did(first, steps, d, WriteFile(g, true)) {
            DidBefore(first, before, last, d, WriteFile(g, true));
          }
        }
      } else {
        forall d: nat, g ensures !Did(first, steps, d, WriteFile(g, true)) {
          if Did(first, steps, d, WriteFile(g, true)) {
            DidBefore(first, before, last, d, WriteFile(g, true));
          }
        }
      }
    }
  }

  // The validators are needed for this, and nothing more

  function Publishes(versions: seq<Version>): seq<Step> {
    seq(|versions|, i requires 0 <= i < |versions| => Publish(versions[i]))
  }

  lemma {:induction false} AfterSnoc(first: Version, steps: seq<Step>, step: Step)
    ensures After(first, steps + [step]) == Next(After(first, steps), step)
  {
    assert (steps + [step])[..|steps|] == steps;
  }

  lemma {:induction false} AfterPublishes(first: Version, steps: seq<Step>, versions: seq<Version>)
    ensures var s := After(first, steps);
            After(first, steps + Publishes(versions)) == s.(origin := s.origin + versions)
  {
    var s := After(first, steps);
    if versions == [] {
      assert steps + Publishes(versions) == steps && s.origin + versions == s.origin;
    } else {
      var before, v := versions[..|versions| - 1], versions[|versions| - 1];
      AfterPublishes(first, steps, before);
      AfterSnoc(first, steps + Publishes(before), Publish(v));
      assert steps + Publishes(versions) == steps + Publishes(before) + [Publish(v)];
      assert s.origin + versions == s.origin + before + [v];
    }
  }

  lemma {:induction false} AfterThree(first: Version, steps: seq<Step>, a: Step, b: Step, c: Step)
    ensures After(first, steps + [a, b, c]) == Next(Next(Next(After(first, steps), a), b), c)
  {
    var one := steps + [a];
    var two := one + [b];
    assert steps + [a, b, c] == two + [c];
    AfterSnoc(first, steps, a);
    AfterSnoc(first, one, b);
    AfterSnoc(first, two, c);
  }

  /** One fetch stores the current version. */
  lemma {:induction false} FirstStores(s: State)
    requires s.fetches == [] && s.origin != []
    ensures var at := |s.origin| - 1;
            Next(Next(Next(s, Start), ReadFile(0, false)), Answer(0, Full))
            == s.(fetches := [Writing(s.origin[at], at)])
  {
    var read := Next(Next(s, Start), ReadFile(0, false));
    assert read == s.(fetches := [Waiting(None, Conditions(None, None))]);
  }

  /** The next one reads it back. */
  lemma {:induction false} SecondReads(s: State, w: Fetch)
    requires s.fetches == [w] && w.Writing?
    ensures var t := Next(Next(Next(s, WriteFile(0, true)), Start), ReadFile(1, true));
            t.origin == s.origin && |t.fetches| == 2
            && t.fetches[1] == Waiting(Some(w.reply), ConditionsOf(Some(w.reply)))
  {
    var written := Next(Next(s, WriteFile(0, true)), Start);
    assert written.fetches == [Finished(Returned(w.reply.content, w.at)), Started];
  }

  const STORE_AND_READ :=
    [Start, ReadFile(0, false), Answer(0, Full)] + [WriteFile(0, true), Start, ReadFile(1, true)]

  lemma {:induction false} AfterStoreAndRead(first: Version, steps: seq<Step>)
    requires After(first, steps).fetches == [] && After(first, steps).origin != []
    ensures var s, t := After(first, steps), After(first, steps + STORE_AND_READ);
            var v := Some(s.origin[|s.origin| - 1]);
            t.origin == s.origin && |t.fetches| == 2 && t.fetches[1] == Waiting(v, ConditionsOf(v))
  {
    var s := After(first, steps);
    var at := |s.origin| - 1;
    var stores := [Start, ReadFile(0, false), Answer(0, Full)];
    AfterThree(first, steps, Start, ReadFile(0, false), Answer(0, Full));
    AfterThree(first, steps + stores, WriteFile(0, true), Start, ReadFile(1, true));
    assert steps + STORE_AND_READ == steps + stores + [WriteFile(0, true), Start, ReadFile(1, true)];
    FirstStores(s);
    SecondReads(s.(fetches := [Writing(s.origin[at], at)]), Writing(s.origin[at], at));
  }

  /** Version i is stored, and asked about when version j is current. */
  function StaleRun(history: seq<Version>, i: nat, j: nat): seq<Step>
    requires i <= j < |history|
  {
    Publishes(history[1..i + 1]) + STORE_AND_READ + Publishes(history[i + 1..j + 1])
  }

  lemma {:induction false} AfterStored(history: seq<Version>, i: nat)
    requires i < |history|
    ensures var s := After(history[0], Publishes(history[1..i + 1]));
            s.origin == history[..i + 1] && s.fetches == []
  {
    var first, stored := history[0], Publishes(history[1..i + 1]);
    AfterPublishes(first, [], history[1..i + 1]);
    assert [] + stored == stored;
    assert [first] + history[1..i + 1] == history[..i + 1];
  }

  lemma {:induction false} AfterStaleRun(history: seq<Version>, i: nat, j: nat)
    requires i <= j < |history|
    ensures var s := After(history[0], StaleRun(history, i, j));
            s.origin == history[..j + 1] && |s.fetches| == 2
            && s.fetches[1] == Waiting(Some(history[i]), ConditionsOf(Some(history[i])))
  {
    var first, stored := history[0], Publishes(history[1..i + 1]);
    AfterStored(history, i);
    AfterStoreAndRead(first, stored);
    AfterPublishes(first, stored + STORE_AND_READ, history[i + 1..j + 1]);
    assert history[..i + 1] + history[i + 1..j + 1] == history[..j + 1];
  }

  /** Every 304 over this history, in every run, stands for the current content. */
  ghost predicate AlwaysCurrent(history: seq<Version>)
    requires history != []
  {
    forall steps, f: nat :: After(history[0], steps).origin <= history ==> FreshCurrent(After(history[0], steps), f)
  }

  /** A 304 always stands for the current content exactly when the validators vouch for content. A
      date without an ETag fails when content changes twice within its resolution. */
  lemma {:induction false} FreshExact(history: seq<Version>)
    requires history != []
    ensures AlwaysCurrent(history) <==> Validating(history)
  {
    if AlwaysCurrent(history) {
      forall i, j | 0 <= i <= j < |history| && NotModified(ConditionsOf(Some(history[i])), history[j])
        ensures history[i].content == history[j].content
      {
        AfterStaleRun(history, i, j);
        assert FreshCurrent(After(history[0], StaleRun(history, i, j)), 1);
      }
    }
    if Validating(history) {
      forall steps, f: nat | After(history[0], steps).origin <= history
        ensures FreshCurrent(After(history[0], steps), f)
      {
        ValidatingBefore(After(history[0], steps).origin, history);
        RunsAreCoherent(history[0], steps);
        FreshIsCurrent(After(history[0], steps), f);
      }
    }
  }
}
