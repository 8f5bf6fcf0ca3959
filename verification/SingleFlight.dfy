/** src/lib/downloadWithCache.js, the map of fetches in flight: callers of the same key share one
    fetch. A run is any sequence of requests, settlements, clean-ups and deliveries. */
module SingleFlight {
  import opened Dockerfile

  datatype Outcome = Content(text: string) | Failure(reason: string)

  /** A call of fetchOnce: settled by the network, then finalised by its `finally` callback. */
  datatype Fetch = Fetch(key: string, outcome: Option<Outcome>, finalised: bool)

  /** A caller holds the promise of one fetch. */
  datatype Caller = Caller(fetch: nat, received: Option<Outcome>)

  datatype State = State(inflight: map<string, nat>, fetches: seq<Fetch>, callers: seq<Caller>)

  datatype Step =
    | Request(key: string)
    | Settle(fetch: nat, outcome: Outcome)
    | Finalise(fetch: nat)
    | Deliver(caller: nat)

  const INITIAL := State(map[], [], [])

  predicate Enabled(s: State, step: Step) {
    match step
    case Request(_) => true
    case Settle(f, _) => f < |s.fetches| && s.fetches[f].outcome.None?
    case Finalise(f) => f < |s.fetches| && s.fetches[f].outcome.Some? && !s.fetches[f].finalised
    case Deliver(c) =>
      c < |s.callers| && s.callers[c].fetch < |s.fetches| && s.fetches[s.callers[c].fetch].finalised
  }

  function Requested(s: State, key: string): State {
    if key in s.inflight then
      s.(callers := s.callers + [Caller(s.inflight[key], None)])
    else
      State(s.inflight[key := |s.fetches|], s.fetches + [Fetch(key, None, false)],
            s.callers + [Caller(|s.fetches|, None)])
  }

  /** One step; a step that cannot be taken changes nothing. */
  function Next(s: State, step: Step): State {
    if !Enabled(s, step) then s
    else
      match step
      case Request(key) => Requested(s, key)
      case Settle(f, outcome) => s.(fetches := s.fetches[f := s.fetches[f].(outcome := Some(outcome))])
      case Finalise(f) =>
        s.(inflight := s.inflight - {s.fetches[f].key}, fetches := s.fetches[f := s.fetches[f].(finalised := true)])
      case Deliver(c) =>
        s.(callers := s.callers[c := s.callers[c].(received := s.fetches[s.callers[c].fetch].outcome)])
  }

  function After(steps: seq<Step>): State {
    if steps == [] then INITIAL else Next(After(steps[..|steps| - 1]), steps[|steps| - 1])
  }

  /** The map of the module, and what its two callbacks do to it. */
  class Downloads {
    var inflight: map<string, nat>
    var fetches: seq<Fetch>
    var callers: seq<Caller>

    constructor ()
      ensures Now() == INITIAL
    {
      inflight, fetches, callers := map[], [], [];
    }

    function Now(): State
      reads this
    {
      State(inflight, fetches, callers)
    }

    /** downloadWithCache: the promise is that of the returned fetch. */
    method Download(key: string) returns (promise: nat)
      modifies this
      ensures Now() == Next(old(Now()), Request(key))
      ensures callers == old(callers) + [Caller(promise, None)]
    {
      if key in inflight {
        promise := inflight[key];
      } else {
        promise := |fetches|;
        fetches := fetches + [Fetch(key, None, false)];
        inflight := inflight[key := promise];
      }
      callers := callers + [Caller(promise, None)];
    }

    /** The `finally` callback. */
    method CleanUp(f: nat)
      requires Enabled(Now(), Finalise(f))
      modifies this
      ensures Now() == Next(old(Now()), Finalise(f))
    {
      inflight := inflight - {fetches[f].key};
      fetches := fetches[f := fetches[f].(finalised := true)];
    }
  }

  // What every run keeps

  /** A caller has received nothing yet, or the outcome of its finalised fetch. */
  predicate Served(fetches: seq<Fetch>, c: Caller) {
    && c.fetch < |fetches|
    && (c.received.Some? ==> fetches[c.fetch].finalised && c.received == fetches[c.fetch].outcome)
  }

  /** The map holds exactly the fetches that are not finalised, each under its own key. */
  ghost predicate Consistent(s: State) {
    && (forall k :: k in s.inflight ==>
          s.inflight[k] < |s.fetches| && s.fetches[s.inflight[k]].key == k && !s.fetches[s.inflight[k]].finalised)
    && (forall f :: 0 <= f < |s.fetches| && !s.fetches[f].finalised ==>
          s.fetches[f].key in s.inflight && s.inflight[s.fetches[f].key] == f)
    && (forall f :: 0 <= f < |s.fetches| && s.fetches[f].finalised ==> s.fetches[f].outcome.Some?)
    && (forall c :: 0 <= c < |s.callers| ==> Served(s.fetches, s.callers[c]))
  }

  lemma {:induction false} RequestKeeps(s: State, key: string)
    requires Consistent(s)
    ensures Consistent(Requested(s, key))
  {
  }

  lemma {:induction false} FinaliseKeeps(s: State, f: nat)
    requires Consistent(s) && Enabled(s, Finalise(f))
    ensures Consistent(Next(s, Finalise(f)))
  {
    assert s.inflight[s.fetches[f].key] == f;
  }

  lemma {:induction false} StepKeepsConsistent(s: State, step: Step)
    requires Consistent(s)
    ensures Consistent(Next(s, step))
  {
    match step
    case Request(key) => RequestKeeps(s, key);
    case Finalise(f) =>
      if Enabled(s, step) {
        FinaliseKeeps(s, f);
      }
    case _ =>
  }

  lemma {:induction false} RunsAreConsistent(steps: seq<Step>)
    ensures Consistent(After(steps))
  {
    if steps != [] {
      RunsAreConsistent(steps[..|steps| - 1]);
      StepKeepsConsistent(After(steps[..|steps| - 1]), steps[|steps| - 1]);
    }
  }

  /** In every run, at most one fetch of a key is live, and the map entry is that fetch. */
  lemma {:induction false} OneLiveFetch(steps: seq<Step>, f: nat, g: nat)
    requires var s := After(steps);
             && f < |s.fetches| && g < |s.fetches| && s.fetches[f].key == s.fetches[g].key
             && !s.fetches[f].finalised && !s.fetches[g].finalised
    ensures f == g
    ensures var s := After(steps); s.fetches[f].key in s.inflight && s.inflight[s.fetches[f].key] == f
  {
    RunsAreConsistent(steps);
  }

  /** Cleaning up a fetch removes its own entry and no other. */
  lemma {:induction false} CleanUpEvictsItself(steps: seq<Step>, f: nat)
    requires Enabled(After(steps), Finalise(f))
    ensures var s, t := After(steps), Next(After(steps), Finalise(f));
            && s.fetches[f].key in s.inflight && s.inflight[s.fetches[f].key] == f
            && forall k :: k != s.fetches[f].key ==> (k in t.inflight <==> k in s.inflight)
                                                     && (k in s.inflight ==> t.inflight[k] == s.inflight[k])
  {
    RunsAreConsistent(steps);
  }

  /** Later steps change neither whose fetch a caller waits for nor a settled outcome. */
  ghost predicate Grows(s: State, t: State) {
    && |s.fetches| <= |t.fetches| && |s.callers| <= |t.callers|
    && (forall f :: 0 <= f < |s.fetches| ==>
          t.fetches[f].key == s.fetches[f].key
          && (s.fetches[f].outcome.Some? ==> t.fetches[f].outcome == s.fetches[f].outcome)
          && (s.fetches[f].finalised ==> t.fetches[f].finalised))
    && (forall c :: 0 <= c < |s.callers| ==> t.callers[c].fetch == s.callers[c].fetch)
  }

  lemma {:induction false} RunsGrow(steps: seq<Step>, n: nat)
    requires n <= |steps|
    ensures Grows(After(steps[..n]), After(steps))
  {
    if n == |steps| {
      assert steps[..n] == steps;
    } else {
      var before := steps[..|steps| - 1];
      RunsGrow(before, n);
      assert before[..n] == steps[..n];
      StepGrows(After(before), steps[|steps| - 1]);
    }
  }

  lemma {:induction false} StepGrows(s: State, step: Step)
    ensures Grows(s, Next(s, step))
  {
  }

  /** Every caller is bound to a fetch of its key that was not finalised when it called, and what
      it receives, whenever that is, is the outcome of that fetch. */
  lemma {:induction false} CallerReceivesLiveFetch(steps: seq<Step>, n: nat)
    requires n < |steps| && steps[n].Request?
    ensures var c, start, now := |After(steps[..n]).callers|, After(steps[..n + 1]), After(steps);
            && c < |start.callers| && c < |now.callers|
            && var f := now.callers[c].fetch;
               && f < |start.fetches| && !start.fetches[f].finalised && start.fetches[f].key == steps[n].key
               && f < |now.fetches|
               && (now.callers[c].received.Some? ==> now.callers[c].received == now.fetches[f].outcome)
  {
    assert steps[..n + 1][..n] == steps[..n];
    RunsAreConsistent(steps[..n]);
    RunsAreConsistent(steps[..n + 1]);
    RunsAreConsistent(steps);
    RunsGrow(steps, n + 1);
  }

  // What was done decides what is known

  /** The k-th step of the run is this one, and it is taken. */
  ghost predicate Did(steps: seq<Step>, k: nat, step: Step) {
    k < |steps| && steps[k] == step && Enabled(After(steps[..k]), step)
  }

  ghost predicate WasDone(steps: seq<Step>, step: Step) {
    exists k: nat :: Did(steps, k, step)
  }

  lemma {:induction false} DoneSnoc(steps: seq<Step>, last: Step, step: Step)
    ensures WasDone(steps + [last], step) <==> WasDone(steps, step) || (step == last && Enabled(After(steps), last))
  {
    var more := steps + [last];
    assert more[..|steps|] == steps;
    if k: nat :| Did(more, k, step) {
      if k < |steps| {
        assert more[..k] == steps[..k] && Did(steps, k, step);
      }
    }
    if k: nat :| Did(steps, k, step) {
      assert more[..k] == steps[..k] && Did(more, k, step);
    }
    if step == last && Enabled(After(steps), last) {
      assert Did(more, |steps|, step);
    }
  }

  lemma {:induction false} SettledHistory(steps: seq<Step>, f: nat, outcome: Outcome)
    ensures WasDone(steps, Settle(f, outcome))
            <==> f < |After(steps).fetches| && After(steps).fetches[f].outcome == Some(outcome)
  {
    if steps != [] {
      var before, last := steps[..|steps| - 1], steps[|steps| - 1];
      assert steps == before + [last];
      SettledHistory(before, f, outcome);
      DoneSnoc(before, last, Settle(f, outcome));
    }
  }

  lemma {:induction false} FinalisedHistory(steps: seq<Step>, f: nat)
    ensures WasDone(steps, Finalise(f)) <==> f < |After(steps).fetches| && After(steps).fetches[f].finalised
  {
    if steps != [] {
      var before, last := steps[..|steps| - 1], steps[|steps| - 1];
      assert steps == before + [last];
      FinalisedHistory(before, f);
      DoneSnoc(before, last, Finalise(f));
    }
  }

  lemma {:induction false} DeliveredHistory(steps: seq<Step>, c: nat)
    ensures WasDone(steps, Deliver(c)) <==> c < |After(steps).callers| && After(steps).callers[c].received.Some?
  {
    if steps != [] {
      var before, last := steps[..|steps| - 1], steps[|steps| - 1];
      assert steps == before + [last];
      DeliveredHistory(before, c);
      DoneSnoc(before, last, Deliver(c));
      RunsAreConsistent(before);
    }
  }

  /** In every run a fetch has the outcome that settled it, it is finalised exactly if its clean-up ran,
      and a caller has received something exactly if it was delivered. */
  lemma {:induction false} HistoryDecides(steps: seq<Step>, f: nat, c: nat, outcome: Outcome)
    ensures var s := After(steps);
            && (WasDone(steps, Settle(f, outcome)) <==> f < |s.fetches| && s.fetches[f].outcome == Some(outcome))
            && (WasDone(steps, Finalise(f)) <==> f < |s.fetches| && s.fetches[f].finalised)
            && (WasDone(steps, Deliver(c)) <==> c < |s.callers| && s.callers[c].received.Some?)
  {
    SettledHistory(steps, f, outcome);
    FinalisedHistory(steps, f);
    DeliveredHistory(steps, c);
  }
}
