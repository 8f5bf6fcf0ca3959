/** src/sources/GitSource.js, ensureRepo, and src/sources/OciSource.js, ensureArtifact: processes
    that share a cache directory fill temporary directories and publish them by renaming. */
module Publication {
  import opened Dockerfile

  /** A directory tree as the number of its files already written, and who wrote them. */
  datatype Tree = Tree(written: nat, writer: nat)

  /** The map entry of one process for one key. */
  datatype Slot = Absent | Pending | Resolved

  datatype Work = Idle | Checking | Filling | Filled

  /** `temporary` is the process's own temporary directory; `fetched` counts its fills that were
      published or given up for a published one. */
  datatype Process = Process(slot: Slot, work: Work, temporary: Option<Tree>, fetched: nat)

  datatype State = State(shared: Option<Tree>, processes: seq<Process>, published: nat)

  datatype Step =
    | Call(p: nat)
    | Check(p: nat, readable: bool)
    | Fill(p: nat)
    | FillDone(p: nat)
    | Rename(p: nat, allowed: bool)
    | Fail(p: nat)

  function Initial(processes: nat): State {
    State(None, seq(processes, _ => Process(Absent, Idle, None, 0)), 0)
  }

  /** A fetch is done when all `size` files are written. */
  predicate Enabled(size: nat, s: State, step: Step) {
    step.p < |s.processes| &&
    var q := s.processes[step.p];
    match step
    case Call(_) => true
    case Check(_, readable) => q.work.Checking? && (readable ==> s.shared.Some?)
    case Fill(_) => q.work.Filling? && q.temporary.Some? && q.temporary.value.written < size
    case FillDone(_) => q.work.Filling? && q.temporary.Some? && q.temporary.value.written == size
    case Rename(_, _) => q.work.Filled? && q.temporary.Some?
    case Fail(_) => q.work.Checking? || q.work.Filling?
  }

  /** One step of one process. A call finds the entry or starts the work; a directory that can
      be read is used; a rename onto an existing directory fails, and then that one is used. */
  function Stepped(size: nat, s: State, step: Step): State
    requires Enabled(size, s, step)
  {
    var p, q := step.p, s.processes[step.p];
    match step
    case Call(_) =>
      if q.slot.Absent? then s.(processes := s.processes[p := q.(slot := Pending, work := Checking)]) else s
    case Check(_, readable) =>
      s.(processes := s.processes[p := if readable
                                       then q.(slot := Resolved, work := Idle)
                                       else q.(work := Filling, temporary := Some(Tree(0, p)))])
    case Fill(_) =>
      s.(processes := s.processes[p := q.(temporary := Some(Tree(q.temporary.value.written + 1, p)))])
    case FillDone(_) => s.(processes := s.processes[p := q.(work := Filled)])
    case Rename(_, allowed) =>
      if s.shared.Some? then
        s.(processes := s.processes[p := Process(Resolved, Idle, None, q.fetched + 1)])
      else if allowed then
        State(q.temporary, s.processes[p := Process(Resolved, Idle, None, q.fetched + 1)], s.published + 1)
      else
        s.(processes := s.processes[p := Process(Absent, Idle, None, q.fetched)])
    case Fail(_) => s.(processes := s.processes[p := q.(slot := Absent, work := Idle)])
  }

  function Next(size: nat, s: State, step: Step): State {
    if Enabled(size, s, step) then Stepped(size, s, step) else s
  }

  function After(size: nat, processes: nat, steps: seq<Step>): State {
    if steps == [] then Initial(processes)
    else Next(size, After(size, processes, steps[..|steps| - 1]), steps[|steps| - 1])
  }

  ghost predicate ProcessOk(size: nat, s: State, p: nat)
    requires p < |s.processes|
  {
    var q := s.processes[p];
    && (q.work.Idle? <==> !q.slot.Pending?)
    && (q.slot.Resolved? ==> s.shared.Some? && q.fetched <= 1)
    && (!q.slot.Resolved? ==> q.fetched == 0)
    && (q.work.Filling? ==> q.temporary.Some? && q.temporary.value.written <= size && q.temporary.value.writer == p)
    && (q.work.Filled? ==> q.temporary == Some(Tree(size, p)))
  }

  /** The shared directory is complete or not there, and was published at most once; whoever got
      an entry got a published directory; one fetch per process succeeds at most. */
  ghost predicate Sound(size: nat, s: State) {
    && (s.shared.Some? ==> s.shared.value.written == size && s.shared.value.writer < |s.processes|)
    && s.published == (if s.shared.Some? then 1 else 0)
    && forall p :: 0 <= p < |s.processes| ==> ProcessOk(size, s, p)
  }

  /** What one process may see change from one state to a later one. */
  ghost predicate Later(s: State, t: State) {
    && |s.processes| == |t.processes|
    && (s.shared.Some? ==> t.shared == s.shared)
    && forall p :: 0 <= p < |s.processes| && s.processes[p].slot.Resolved? ==> t.processes[p].slot.Resolved?
  }

  lemma {:induction false} StepKeepsSound(size: nat, s: State, step: Step)
    requires Sound(size, s)
    ensures Sound(size, Next(size, s, step)) && Later(s, Next(size, s, step))
  {
    if Enabled(size, s, step) {
      var t := Stepped(size, s, step);
      assert ProcessOk(size, s, step.p);
      forall p | 0 <= p < |t.processes| ensures ProcessOk(size, t, p) {
        if p != step.p {
          assert ProcessOk(size, s, p);
        }
      }
    }
  }

  /** In every run of any number of processes the shared directory is never partial. */
  lemma {:induction false} NeverPartial(size: nat, processes: nat, steps: seq<Step>)
    ensures Sound(size, After(size, processes, steps))
    ensures |After(size, processes, steps).processes| == processes
  {
    if steps != [] {
      NeverPartial(size, processes, steps[..|steps| - 1]);
      StepKeepsSound(size, After(size, processes, steps[..|steps| - 1]), steps[|steps| - 1]);
    }
  }

  /** Once published the directory is never replaced, and a resolved entry stays resolved. */
  lemma {:induction false} NeverReplaced(size: nat, processes: nat, steps: seq<Step>, n: nat)
    requires n <= |steps|
    ensures Later(After(size, processes, steps[..n]), After(size, processes, steps))
  {
    if n == |steps| {
      assert steps[..n] == steps;
    } else {
      var before := steps[..|steps| - 1];
      NeverReplaced(size, processes, before, n);
      assert before[..n] == steps[..n];
      NeverPartial(size, processes, before);
      StepKeepsSound(size, After(size, processes, before), steps[|steps| - 1]);
    }
  }

  /** Every process whose entry is resolved uses the one published directory, complete, as
      written by a single process; and no process fetched twice. */
  lemma {:induction false} EntriesNamePublished(size: nat, processes: nat, steps: seq<Step>, p: nat)
    requires p < processes
    ensures var s := After(size, processes, steps);
            && p < |s.processes|
            && (s.processes[p].slot.Resolved? ==>
                  s.shared.Some? && s.shared.value.written == size && s.shared.value.writer < processes
                    && s.published == 1)
            && s.processes[p].fetched <= 1
  {
    NeverPartial(size, processes, steps);
    assert ProcessOk(size, After(size, processes, steps), p);
  }

  // Progress

  /** A rename publishes the temporary tree if nothing is published yet and it is allowed; a process
      that comes later uses what it finds; a rename that is refused leaves everything to a new call. */
  lemma {:induction false} RenameDecides(size: nat, processes: nat, steps: seq<Step>, p: nat, allowed: bool)
    requires Enabled(size, After(size, processes, steps), Rename(p, allowed))
    ensures var s := After(size, processes, steps); var t := Next(size, s, Rename(p, allowed));
            && s.processes[p].temporary == Some(Tree(size, p))
            && t.shared == (if s.shared.Some? then s.shared else if allowed then Some(Tree(size, p)) else None)
            && t.processes[p].slot == (if s.shared.Some? || allowed then Resolved else Absent)
            && t.processes[p].work == Idle && t.processes[p].temporary == None
            && t.processes[p].fetched == (if s.shared.Some? || allowed then 1 else 0)
            && forall q :: 0 <= q < |s.processes| && q != p ==> t.processes[q] == s.processes[q]
  {
    NeverPartial(size, processes, steps);
    assert ProcessOk(size, After(size, processes, steps), p);
  }

  /** A failure at any point forgets the entry and publishes nothing, so that a new call tries again. */
  lemma {:induction false} FailureIsForgotten(size: nat, processes: nat, steps: seq<Step>, p: nat)
    requires p < |After(size, processes, steps).processes| && After(size, processes, steps).processes[p].slot.Pending?
    ensures var s := After(size, processes, steps);
            var step := if s.processes[p].work.Filled? then Rename(p, false) else Fail(p);
            && Enabled(size, s, step)
            && (s.shared.None? || step.Fail? ==>
                  var t := Next(size, s, step);
                  t.processes[p].slot == Absent && t.processes[p].work == Idle && t.shared == s.shared)
  {
    NeverPartial(size, processes, steps);
    assert ProcessOk(size, After(size, processes, steps), p);
  }

  /** From s, steps of process p alone lead to t. */
  ghost predicate Reaches(size: nat, s: State, steps: seq<Step>, p: nat, t: State)
    decreases |steps|
  {
    if steps == [] then t == s
    else steps[0].p == p && Enabled(size, s, steps[0]) && Reaches(size, Stepped(size, s, steps[0]), steps[1..], p, t)
  }

  ghost predicate CanReach(size: nat, s: State, p: nat, t: State) {
    exists steps :: Reaches(size, s, steps, p, t)
  }

  lemma {:induction false} ReachesFirst(size: nat, s: State, step: Step, p: nat, t: State)
    requires step.p == p && Enabled(size, s, step) && CanReach(size, Stepped(size, s, step), p, t)
    ensures CanReach(size, s, p, t)
  {
    var steps :| Reaches(size, Stepped(size, s, step), steps, p, t);
    assert ([step] + steps)[1..] == steps;
    assert Reaches(size, s, [step] + steps, p, t);
  }

  ghost predicate Done(size: nat, s: State, p: nat) {
    p < |s.processes| && s.processes[p].slot.Resolved? && s.shared.Some? && s.shared.value.written == size
  }

  lemma {:induction false} DoneAtOnce(size: nat, s: State, p: nat)
    requires Done(size, s, p)
    ensures CanReach(size, s, p, s)
  {
    assert Reaches(size, s, [], p, s);
  }

  lemma {:induction false} FilledResolves(size: nat, s: State, p: nat) returns (t: State)
    requires Sound(size, s) && p < |s.processes| && s.processes[p].work.Filled?
    ensures Done(size, t, p) && CanReach(size, s, p, t)
  {
    assert ProcessOk(size, s, p);
    t := Stepped(size, s, Rename(p, true));
    DoneAtOnce(size, t, p);
    ReachesFirst(size, s, Rename(p, true), p, t);
  }

  lemma {:induction false} FillingResolves(size: nat, s: State, p: nat) returns (t: State)
    requires Sound(size, s) && p < |s.processes| && s.processes[p].work.Filling?
    ensures Done(size, t, p) && CanReach(size, s, p, t)
    decreases if s.processes[p].temporary.Some? then size - s.processes[p].temporary.value.written else 0
  {
    assert ProcessOk(size, s, p);
    var step := if s.processes[p].temporary.value.written == size then FillDone(p) else Fill(p);
    StepKeepsSound(size, s, step);
    var u := Stepped(size, s, step);
    if step.FillDone? {
      t := FilledResolves(size, u, p);
    } else {
      t := FillingResolves(size, u, p);
    }
    ReachesFirst(size, s, step, p, t);
  }

  lemma {:induction false} CheckingResolves(size: nat, s: State, p: nat) returns (t: State)
    requires Sound(size, s) && p < |s.processes| && s.processes[p].work.Checking?
    ensures Done(size, t, p) && CanReach(size, s, p, t)
  {
    assert ProcessOk(size, s, p);
    var step := Check(p, s.shared.Some?);
    StepKeepsSound(size, s, step);
    var u := Stepped(size, s, step);
    if s.shared.Some? {
      t := u;
      DoneAtOnce(size, u, p);
    } else {
      t := FillingResolves(size, u, p);
    }
    ReachesFirst(size, s, step, p, t);
  }

  /** From every state that a run reaches, whatever the other processes left behind, a process that is
      not disturbed ends with the complete published directory. */
  lemma {:induction false} AlwaysResolvable(size: nat, processes: nat, steps: seq<Step>, p: nat) returns (t: State)
    requires p < processes
    ensures Done(size, t, p) && CanReach(size, After(size, processes, steps), p, t)
  {
    var s := After(size, processes, steps);
    NeverPartial(size, processes, steps);
    assert ProcessOk(size, s, p);
    match s.processes[p].work
    case Idle =>
      if s.processes[p].slot.Resolved? {
        t := s;
        DoneAtOnce(size, s, p);
      } else {
        StepKeepsSound(size, s, Call(p));
        t := CheckingResolves(size, Stepped(size, s, Call(p)), p);
        ReachesFirst(size, s, Call(p), p, t);
      }
    case Checking => t := CheckingResolves(size, s, p);
    case Filling => t := FillingResolves(size, s, p);
    case Filled => t := FilledResolves(size, s, p);
  }
}
