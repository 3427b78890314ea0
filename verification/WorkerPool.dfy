/**
 The worker pool in mutex mode, as a state machine over the steps of submitters, workers, timeouts and the
 destructor.  A step is a critical section, or the part of one between two reads of what others may
 change without the lock: the busy counter and the stop flag.
 */
module WorkerPool {
  type Task = int

  /** Where a worker is: about to take the lock, asleep, woken by a timeout, executing, done executing, gone. */
  datatype Pc = Ready | Waiting(timed: bool) | TimedOut | Running(task: Task) | Finished | Exited

  /** The queue lock, and how far the submission that holds it has come. */
  datatype Lock = Free | Reading(pending: nat) | Testing(pending: nat, idle: int) | Signalling

  datatype State = State(
    min: nat, max: nat, maxRequests: nat,
    queue: seq<Task>, current: int, busy: int, stop: bool, broadcast: bool, lock: Lock, workers: seq<Pc>,
    accepted: seq<Task>, started: seq<Task>, executed: seq<Task>)   // history

  datatype Action =
    | Enter(task: Task)        // lock, test, push
    | ReadIdle                 // compute the idle threads
    | Grow(created: bool)      // one test of the growth loop, and pthread_create if it asks for one
    | Signal(woken: nat)       // wake one sleeper if there is one, unlock
    | Loop(w: nat)             // lock; then take a task, exit, or wait
    | TimeOut(w: nat)          // a timed wait ends by itself
    | Retire(w: nat)           // lock after a timeout; leave if idle and above the minimum
    | SpuriousWake(w: nat)
    | Execute(w: nat)
    | Release(w: nat)          // busy counter down, without the lock
    | Stop                     // the destructor sets the flag, without the lock
    | Broadcast

  predicate Asleep(s: State) { exists w: nat :: w < |s.workers| && s.workers[w].Waiting? }

  predicate At(s: State, w: nat) { w < |s.workers| && s.lock.Free? }

  ghost predicate Enabled(s: State, a: Action) {
    match a
    case Enter(_) => s.lock.Free?
    case ReadIdle => s.lock.Reading?
    case Grow(_) => s.lock.Testing?
    case Signal(w) => s.lock.Signalling? && (Asleep(s) ==> w < |s.workers| && s.workers[w].Waiting?)
    case Loop(w) => At(s, w) && s.workers[w].Ready?
    case TimeOut(w) => w < |s.workers| && s.workers[w] == Waiting(true)
    case Retire(w) => At(s, w) && s.workers[w].TimedOut?
    case SpuriousWake(w) => w < |s.workers| && s.workers[w].Waiting?
    case Execute(w) => w < |s.workers| && s.workers[w].Running?
    case Release(w) => w < |s.workers| && s.workers[w].Finished?
    case Stop => true
    case Broadcast => s.stop && s.lock.Free?
  }

  function To(s: State, w: nat, pc: Pc): State
    requires w < |s.workers|
  {
    s.(workers := s.workers[w := pc])
  }

  function WakeAll(workers: seq<Pc>): seq<Pc> {
    seq(|workers|, i requires 0 <= i < |workers| => if workers[i].Waiting? then Ready else workers[i])
  }

  function Apply(s: State, a: Action): State
    requires Enabled(s, a)
  {
    match a
    case Enter(task) =>
      if s.stop || |s.queue| >= s.maxRequests then s
      else s.(queue := s.queue + [task], accepted := s.accepted + [task], lock := Reading(|s.queue| + 1))
    case ReadIdle => s.(lock := Testing(s.lock.pending, s.current - s.busy))
    case Grow(created) =>
      if s.lock.pending > s.lock.idle && s.current < s.max && created then
        s.(workers := s.workers + [Ready], current := s.current + 1, lock := Reading(s.lock.pending))
      else s.(lock := Signalling)
    case Signal(w) =>
      (if w < |s.workers| && s.workers[w].Waiting? then To(s, w, Ready) else s).(lock := Free)
    case Loop(w) =>
      if s.queue != [] then
        To(s, w, Running(s.queue[0])).(queue := s.queue[1..], started := s.started + [s.queue[0]], busy := s.busy + 1)
      else if s.stop then To(s, w, Exited).(current := s.current - 1)
      else To(s, w, Waiting(s.current > s.min))
    case TimeOut(w) => To(s, w, TimedOut)
    case Retire(w) =>
      if s.queue == [] && s.current > s.min then To(s, w, Exited).(current := s.current - 1) else To(s, w, Ready)
    case SpuriousWake(w) => To(s, w, Ready)
    case Execute(w) => To(s, w, Finished).(executed := s.executed + [s.workers[w].task])
    case Release(w) => To(s, w, Ready).(busy := s.busy - 1)
    case Stop => s.(stop := true)
    case Broadcast => s.(workers := WakeAll(s.workers), broadcast := true)
  }

  predicate Starting(pc: Pc) { pc == Ready || pc == Waiting(false) }

  /** A pool that has just been constructed: some workers may already be asleep. */
  predicate Init(s: State) {
    && 0 < s.min == |s.workers| <= s.max && 0 < s.maxRequests
    && s.queue == [] && s.current == s.min && s.busy == 0 && !s.stop && !s.broadcast && s.lock.Free?
    && (forall pc <- s.workers :: Starting(pc))
    && s.accepted == [] && s.started == [] && s.executed == []
  }

  ghost predicate Next(s: State, s': State) { exists a :: Enabled(s, a) && s' == Apply(s, a) }

  ghost predicate IsRun(run: seq<State>) {
    && run != [] && Init(run[0])
    && forall i: nat :: i + 1 < |run| ==> Next(run[i], run[i + 1])
  }

  // ---------- Counting workers ----------

  function Live(pc: Pc): nat { if pc.Exited? then 0 else 1 }
  function Busy(pc: Pc): nat { if pc.Running? || pc.Finished? then 1 else 0 }

  function Sum(workers: seq<Pc>, f: Pc -> nat): nat {
    if workers == [] then 0 else Sum(workers[..|workers| - 1], f) + f(workers[|workers| - 1])
  }

  function Hand(pc: Pc, t: Task): nat { if pc == Running(t) then 1 else 0 }

  /** How many workers are executing `t`. */
  function InHand(workers: seq<Pc>, t: Task): nat {
    if workers == [] then 0 else InHand(workers[..|workers| - 1], t) + Hand(workers[|workers| - 1], t)
  }

  /** How often `t` occurs. */
  function Times(tasks: seq<Task>, t: Task): nat {
    if tasks == [] then 0 else Times(tasks[..|tasks| - 1], t) + if tasks[|tasks| - 1] == t then 1 else 0
  }

  lemma TimesAppend(tasks: seq<Task>, x: Task, t: Task)
    ensures Times(tasks + [x], t) == Times(tasks, t) + if x == t then 1 else 0
  {
    assert (tasks + [x])[..|tasks|] == tasks;
  }

  lemma {:induction false} SumUpdate(workers: seq<Pc>, w: nat, pc: Pc, f: Pc -> nat)
    requires w < |workers|
    ensures Sum(workers[w := pc], f) + f(workers[w]) == Sum(workers, f) + f(pc)
    decreases |workers|
  {
    var n := |workers| - 1;
    if w == n {
      assert workers[w := pc][..n] == workers[..n];
    } else {
      assert workers[w := pc][..n] == workers[..n][w := pc];
      SumUpdate(workers[..n], w, pc, f);
    }
  }

  lemma SumAppend(workers: seq<Pc>, pc: Pc, f: Pc -> nat)
    ensures Sum(workers + [pc], f) == Sum(workers, f) + f(pc)
  {
    assert (workers + [pc])[..|workers|] == workers;
  }

  lemma {:induction false} InHandUpdate(workers: seq<Pc>, w: nat, pc: Pc, t: Task)
    requires w < |workers|
    ensures InHand(workers[w := pc], t) + Hand(workers[w], t) == InHand(workers, t) + Hand(pc, t)
    decreases |workers|
  {
    var n := |workers| - 1;
    if w == n {
      assert workers[w := pc][..n] == workers[..n];
    } else {
      assert workers[w := pc][..n] == workers[..n][w := pc];
      InHandUpdate(workers[..n], w, pc, t);
    }
  }

  lemma InHandAppend(workers: seq<Pc>, t: Task)
    ensures InHand(workers + [Ready], t) == InHand(workers, t)
  {
    assert (workers + [Ready])[..|workers|] == workers;
  }

  lemma {:induction false} WakeAllCounts(workers: seq<Pc>)
    ensures Sum(WakeAll(workers), Live) == Sum(workers, Live) && Sum(WakeAll(workers), Busy) == Sum(workers, Busy)
    ensures forall t :: InHand(WakeAll(workers), t) == InHand(workers, t)
    decreases |workers|
  {
    if workers != [] {
      var n := |workers| - 1;
      assert WakeAll(workers)[..n] == WakeAll(workers[..n]);
      WakeAllCounts(workers[..n]);
    }
  }

  lemma {:induction false} SomeoneCounts(workers: seq<Pc>, f: Pc -> nat) returns (w: nat)
    requires Sum(workers, f) > 0
    ensures w < |workers| && f(workers[w]) > 0
    decreases |workers|
  {
    var n := |workers| - 1;
    if f(workers[n]) > 0 { w := n; } else { w := SomeoneCounts(workers[..n], f); }
  }

  // ---------- The invariant ----------

  predicate Awake(pc: Pc) { !pc.Waiting? && !pc.Exited? }

  predicate SomeoneAwake(s: State) { exists w: nat :: w < |s.workers| && Awake(s.workers[w]) }

  predicate StartedOnce(s: State, t: Task) { Times(s.started, t) == InHand(s.workers, t) + Times(s.executed, t) }

  /** Every accepted task is queued, or was started in its turn, and then is in hand or executed. */
  ghost predicate Accounted(s: State) {
    && s.accepted == s.started + s.queue && |s.queue| <= s.maxRequests
    && forall t :: StartedOnce(s, t)
  }

  /** The counters say what the workers do, and the bounds hold until the pool is stopped. */
  predicate Counted(s: State) {
    && s.current == Sum(s.workers, Live) && s.busy == Sum(s.workers, Busy)
    && s.current <= s.max && (!s.stop ==> s.min <= s.current)
  }

  /** No task is left with every worker asleep or gone, and nobody sleeps after the broadcast. */
  predicate Attended(s: State) {
    && 0 < s.min
    && (!s.lock.Free? ==> s.current > 0)
    && (s.queue != [] && s.lock.Free? ==> SomeoneAwake(s))
    && (s.broadcast ==> s.stop && s.lock.Free? && !Asleep(s))
  }

  ghost predicate Inv(s: State) { Accounted(s) && Counted(s) && Attended(s) }

  lemma {:induction false} InitCounts(workers: seq<Pc>)
    requires forall pc <- workers :: Starting(pc)
    ensures Sum(workers, Live) == |workers| && Sum(workers, Busy) == 0
    ensures forall t :: InHand(workers, t) == 0
    decreases |workers|
  {
    if workers != [] {
      forall pc | pc in workers[..|workers| - 1] ensures Starting(pc) { assert pc in workers; }
      InitCounts(workers[..|workers| - 1]);
      assert workers[|workers| - 1] in workers;
    }
  }

  lemma InitHolds(s: State)
    requires Init(s)
    ensures Inv(s)
  {
    InitCounts(s.workers);
  }

  /** One worker moves and the rest of the state may change elsewhere. */
  ghost predicate Moves(s: State, s': State, w: nat) {
    w < |s.workers| == |s'.workers| && s'.workers == s.workers[w := s'.workers[w]]
  }

  predicate SameHistory(s: State, s': State) {
    && s'.queue == s.queue && s'.accepted == s.accepted && s'.started == s.started && s'.executed == s.executed
    && s'.maxRequests == s.maxRequests
  }

  lemma MovedCounts(s: State, s': State, w: nat)
    requires Moves(s, s', w)
    ensures Sum(s'.workers, Live) + Live(s.workers[w]) == Sum(s.workers, Live) + Live(s'.workers[w])
    ensures Sum(s'.workers, Busy) + Busy(s.workers[w]) == Sum(s.workers, Busy) + Busy(s'.workers[w])
  {
    SumUpdate(s.workers, w, s'.workers[w], Live);
    SumUpdate(s.workers, w, s'.workers[w], Busy);
  }

  /** A worker without a task moves to a place without one. */
  lemma MovedEmptyHanded(s: State, s': State, w: nat)
    requires Accounted(s) && SameHistory(s, s') && Moves(s, s', w) && !s.workers[w].Running? && !s'.workers[w].Running?
    ensures Accounted(s')
  {
    forall t ensures StartedOnce(s', t) {
      assert StartedOnce(s, t);
      InHandUpdate(s.workers, w, s'.workers[w], t);
    }
  }

  lemma SameWorkers(s: State, s': State)
    requires Accounted(s) && s'.workers == s.workers && s'.started == s.started && s'.executed == s.executed
    ensures forall t :: StartedOnce(s', t)
  {
    forall t ensures StartedOnce(s', t) { assert StartedOnce(s, t); }
  }

  /** A worker that stays awake, or one that falls asleep or leaves while nothing is queued. */
  lemma StillAttended(s: State, s': State, w: nat)
    requires Attended(s) && Moves(s, s', w)
    requires s'.lock == s.lock && s'.min == s.min && s'.broadcast == s.broadcast && s'.stop == s.stop
    requires s'.workers[w].Waiting? ==> !s.stop
    requires Awake(s'.workers[w]) || s'.queue == []
    requires !s.lock.Free? ==> s'.current > 0
    requires s'.queue != [] ==> s.queue != []
    ensures Attended(s')
  {
    assert Awake(s'.workers[w]) ==> SomeoneAwake(s');
    if s.broadcast {
      forall k: nat | k < |s'.workers| ensures !s'.workers[k].Waiting? { assert !s.workers[k].Waiting?; }
    }
  }

  lemma TakeAccounted(s: State, w: nat)
    requires Accounted(s) && Enabled(s, Loop(w)) && s.queue != []
    ensures Accounted(Apply(s, Loop(w)))
  {
    var s' := Apply(s, Loop(w));
    forall t ensures StartedOnce(s', t) {
      assert StartedOnce(s, t);
      InHandUpdate(s.workers, w, s'.workers[w], t);
      TimesAppend(s.started, s.queue[0], t);
    }
    assert s.queue == [s.queue[0]] + s.queue[1..];
  }

  lemma LoopKeeps(s: State, w: nat)
    requires Inv(s) && Enabled(s, Loop(w))
    ensures Inv(Apply(s, Loop(w)))
  {
    var s' := Apply(s, Loop(w));
    assert Moves(s, s', w);
    MovedCounts(s, s', w);
    if s.queue != [] { TakeAccounted(s, w); } else { MovedEmptyHanded(s, s', w); }
    StillAttended(s, s', w);
  }

  lemma ExecuteAccounted(s: State, w: nat)
    requires Accounted(s) && Enabled(s, Execute(w))
    ensures Accounted(Apply(s, Execute(w)))
  {
    var s' := Apply(s, Execute(w));
    forall t ensures StartedOnce(s', t) {
      assert StartedOnce(s, t);
      InHandUpdate(s.workers, w, s'.workers[w], t);
      TimesAppend(s.executed, s.workers[w].task, t);
    }
  }

  lemma WorkerKeeps(s: State, a: Action)
    requires Inv(s) && Enabled(s, a) && (a.TimeOut? || a.SpuriousWake? || a.Execute? || a.Release? || a.Retire?)
    ensures Inv(Apply(s, a))
  {
    var s' := Apply(s, a);
    assert Moves(s, s', a.w);
    MovedCounts(s, s', a.w);
    if a.Execute? { ExecuteAccounted(s, a.w); } else { MovedEmptyHanded(s, s', a.w); }
    StillAttended(s, s', a.w);
  }

  lemma GrowKeeps(s: State, created: bool)
    requires Inv(s) && Enabled(s, Grow(created))
    ensures Inv(Apply(s, Grow(created)))
  {
    SumAppend(s.workers, Ready, Live);
    SumAppend(s.workers, Ready, Busy);
    forall t ensures StartedOnce(Apply(s, Grow(created)), t) {
      InHandAppend(s.workers, t);
      assert StartedOnce(s, t);
    }
  }

  /** When a submission ends, either it woke a sleeper or no live worker sleeps. */
  lemma SignalKeeps(s: State, woken: nat)
    requires Inv(s) && Enabled(s, Signal(woken))
    ensures Inv(Apply(s, Signal(woken)))
    ensures var s' := Apply(s, Signal(woken));
            || (woken < |s.workers| && s.workers[woken].Waiting? && s'.workers == s.workers[woken := Ready])
            || (s'.workers == s.workers && !Asleep(s))
  {
    var s' := Apply(s, Signal(woken));
    if woken < |s.workers| && s.workers[woken].Waiting? {
      MovedCounts(s, s', woken);
      MovedEmptyHanded(s, s', woken);
      assert Awake(s'.workers[woken]);
    } else {
      var w := SomeoneCounts(s.workers, Live);
      assert Awake(s'.workers[w]);
      SameWorkers(s, s');
    }
  }

  lemma BroadcastKeeps(s: State)
    requires Inv(s) && Enabled(s, Broadcast)
    ensures Inv(Apply(s, Broadcast))
  {
    var s' := Apply(s, Broadcast);
    WakeAllCounts(s.workers);
    forall t ensures StartedOnce(s', t) { assert StartedOnce(s, t); }
    if SomeoneAwake(s) {
      var w: nat :| w < |s.workers| && Awake(s.workers[w]);
      assert Awake(s'.workers[w]);
    }
  }

  lemma StepKeeps(s: State, a: Action)
    requires Inv(s) && Enabled(s, a)
    ensures Inv(Apply(s, a))
  {
    match a
    case Enter(task) =>
      assert s.accepted + [task] == s.started + (s.queue + [task]);
      SameWorkers(s, Apply(s, a));
    case ReadIdle => SameWorkers(s, Apply(s, a));
    case Grow(created) => GrowKeeps(s, created);
    case Signal(woken) => SignalKeeps(s, woken);
    case Loop(w) => LoopKeeps(s, w);
    case Retire(_) => WorkerKeeps(s, a);
    case Broadcast => BroadcastKeeps(s);
    case Stop => SameWorkers(s, Apply(s, a));
    case TimeOut(_) => WorkerKeeps(s, a);
    case SpuriousWake(_) => WorkerKeeps(s, a);
    case Execute(_) => WorkerKeeps(s, a);
    case Release(_) => WorkerKeeps(s, a);
  }

  lemma {:induction false} RunInv(run: seq<State>, i: nat)
    requires IsRun(run) && i < |run|
    ensures Inv(run[i])
    decreases i
  {
    if i == 0 {
      InitHolds(run[0]);
    } else {
      RunInv(run, i - 1);
      assert Next(run[i - 1], run[i - 1 + 1]);
      var a :| Enabled(run[i - 1], a) && run[i] == Apply(run[i - 1], a);
      StepKeeps(run[i - 1], a);
    }
  }

  // ---------- Main results ----------

  /** At any moment of any run the tasks started are the first ones accepted, in the order of acceptance. */
  lemma TasksStartInOrder(run: seq<State>, i: nat)
    requires IsRun(run) && i < |run|
    ensures run[i].started <= run[i].accepted && run[i].queue == run[i].accepted[|run[i].started|..]
  {
    RunInv(run, i);
  }

  predicate Extends(s: State, s': State) {
    s.accepted <= s'.accepted && s.started <= s'.started && s.executed <= s'.executed
  }

  lemma StepExtends(s: State, a: Action)
    requires Enabled(s, a)
    ensures Extends(s, Apply(s, a))
  {
  }

  lemma ExtendsTransitive(s: State, s': State, s'': State)
    requires Extends(s, s') && Extends(s', s'')
    ensures Extends(s, s'')
  {
  }

  /** What was accepted stays accepted, what was started stays started, and what was executed stays executed. */
  lemma {:induction false} HistoryGrows(run: seq<State>, i: nat, j: nat)
    requires IsRun(run) && i <= j < |run|
    ensures Extends(run[i], run[j])
    decreases j - i
  {
    if i < j {
      HistoryGrows(run, i, j - 1);
      assert Next(run[j - 1], run[j - 1 + 1]);
      var a :| Enabled(run[j - 1], a) && run[j] == Apply(run[j - 1], a);
      StepExtends(run[j - 1], a);
      ExtendsTransitive(run[i], run[j - 1], run[j]);
    }
  }

  lemma {:induction false} TimesConcat(a: seq<Task>, b: seq<Task>, t: Task)
    ensures Times(a + b, t) == Times(a, t) + Times(b, t)
    decreases |b|
  {
    if b == [] {
      assert a + b == a;
    } else {
      var n := |b| - 1;
      assert a + b == (a + b[..n]) + [b[n]];
      TimesAppend(a + b[..n], b[n], t);
      TimesConcat(a, b[..n], t);
    }
  }

  /** Conservation: each task was accepted as often as it is queued, in hand and executed. */
  lemma AcceptedAreAccountedFor(run: seq<State>, i: nat, t: Task)
    requires IsRun(run) && i < |run|
    ensures var s := run[i]; Times(s.accepted, t) == Times(s.queue, t) + InHand(s.workers, t) + Times(s.executed, t)
  {
    RunInv(run, i);
    assert StartedOnce(run[i], t);
    TimesConcat(run[i].started, run[i].queue, t);
  }

  /** The pool keeps between its minimum and maximum of live workers until it is stopped. */
  lemma WorkerCountBounded(run: seq<State>, i: nat)
    requires IsRun(run) && i < |run|
    ensures Sum(run[i].workers, Live) <= run[i].max && (!run[i].stop ==> run[i].min <= Sum(run[i].workers, Live))
    ensures |run[i].queue| <= run[i].maxRequests
  {
    RunInv(run, i);
  }

  predicate AllExited(s: State) { forall pc <- s.workers :: pc.Exited? }

  lemma {:induction false} ExitedHoldNothing(workers: seq<Pc>, t: Task)
    requires forall pc <- workers :: pc.Exited?
    ensures InHand(workers, t) == 0 && Sum(workers, Live) == 0
    decreases |workers|
  {
    if workers != [] {
      assert workers[|workers| - 1] in workers;
      forall pc | pc in workers[..|workers| - 1] ensures pc.Exited? { assert pc in workers; }
      ExitedHoldNothing(workers[..|workers| - 1], t);
    }
  }

  /** When the last worker is gone, every task that was ever accepted has been executed, each as often as accepted. */
  lemma NothingLeftBehind(run: seq<State>, i: nat, t: Task)
    requires IsRun(run) && i < |run| && AllExited(run[i])
    ensures run[i].queue == [] && Times(run[i].executed, t) == Times(run[i].accepted, t)
  {
    var s := run[i];
    RunInv(run, i);
    ExitedHoldNothing(s.workers, t);
    assert !SomeoneAwake(s);
    AcceptedAreAccountedFor(run, i, t);
  }

  // ---------- Shutdown ----------

  function Rank(pc: Pc): nat {
    match pc
    case Exited => 0
    case Waiting(_) => 0
    case Ready => 1
    case TimedOut => 2
    case Finished => 2
    case Running(_) => 3
  }

  /** How much there is left to do. */
  function Remaining(s: State): nat { 3 * |s.queue| + Sum(s.workers, Rank) }

  lemma WorkerStepShrinks(s: State, a: Action)
    requires Inv(s) && s.broadcast && Enabled(s, a) && (a.Loop? || a.Retire? || a.Execute? || a.Release?)
    ensures Remaining(Apply(s, a)) < Remaining(s)
  {
    SumUpdate(s.workers, a.w, Apply(s, a).workers[a.w], Rank);
  }

  /** After the broadcast a step of a worker leaves less to do, and no other step changes anything. */
  lemma ShutdownShrinks(s: State, a: Action)
    requires Inv(s) && s.broadcast && Enabled(s, a)
    ensures Apply(s, a) == s || Remaining(Apply(s, a)) < Remaining(s)
  {
    match a
    case Loop(_) => WorkerStepShrinks(s, a);
    case Retire(_) => WorkerStepShrinks(s, a);
    case Execute(_) => WorkerStepShrinks(s, a);
    case Release(_) => WorkerStepShrinks(s, a);
    case Broadcast => assert WakeAll(s.workers) == s.workers;
    case _ =>
  }

  /** After the broadcast every worker that has not exited can take a step, so the joins come to an end. */
  lemma NobodyIsStuck(s: State, w: nat) returns (a: Action)
    requires Inv(s) && s.broadcast && w < |s.workers| && !s.workers[w].Exited?
    ensures Enabled(s, a) && Remaining(Apply(s, a)) < Remaining(s) && Apply(s, a).workers[w] != s.workers[w]
  {
    match s.workers[w] {
      case Ready => a := Loop(w);
      case TimedOut => a := Retire(w);
      case Running(_) => a := Execute(w);
      case Finished => a := Release(w);
      case Waiting(_) => assert false;
    }
    WorkerStepShrinks(s, a);
  }
}
