/**
 The lock-free bounded queue of the thread pool, as a state machine whose steps are the
 individual atomic accesses of `enqueue` and `dequeue`.  Any number of threads take steps in any order.

 A thread that wins the compare-and-swap on a position counter owns that position: it is the
 thread's "ticket".  The `log` part of a state is history only: no step reads it to decide anything.
 */
module MpmcQueue {
  import opened SlotMask

  datatype Task = Task(request: nat, state: int, useState: bool)
  datatype Cell = Cell(sequence: nat, payload: Task)

  /** `tickets[k]` is the task that claimed enqueue ticket k; the sets record whose store has happened. */
  datatype Log = Log(tickets: seq<Task>, published: set<nat>, taken: map<nat, Task>, released: set<nat>,
                     delivered: seq<(nat, Task)>)

  /** Where a thread stands.  The `Seen` states keep the history at the moment of their sequence load. */
  datatype Pc =
    | Idle
    | EnqLoaded(pos: nat, value: Task)
    | EnqSeen(pos: nat, value: Task, seen: nat, at: Log)
    | EnqClaimed(pos: nat, value: Task)
    | EnqWritten(pos: nat, value: Task)
    | DeqLoaded(pos: nat)
    | DeqSeen(pos: nat, seen: nat, at: Log)
    | DeqClaimed(pos: nat)
    | DeqTaken(pos: nat, value: Task)

  datatype State = State(cells: seq<Cell>, enqueuePos: nat, dequeuePos: nat, pcs: map<nat, Pc>, log: Log)

  datatype Action =
    | BeginEnqueue(thread: nat, value: Task)
    | BeginDequeue(thread: nat)
    | Advance(thread: nat, spurious: bool) // `spurious`: the weak compare-and-swap fails for no reason

  // ---------- Steps ----------

  ghost predicate Init(s: State, capacity: nat) {
    && |s.cells| == capacity
    && (forall i :: 0 <= i < capacity ==> s.cells[i].sequence == i)
    && s.enqueuePos == 0 && s.dequeuePos == 0
    && (forall t :: t in s.pcs ==> s.pcs[t].Idle?)
    && s.log == Log([], {}, map[], {}, [])
  }

  ghost predicate WellFormed(s: State) {
    |s.cells| > 0 && IsPowerOfTwo(|s.cells|)
  }

  function CellOf(s: State, pos: nat): nat
    requires |s.cells| > 0
  {
    Slot(pos, |s.cells|)
  }

  function Move(s: State, t: nat, pc: Pc): State {
    s.(pcs := s.pcs[t := pc])
  }

  ghost predicate Enabled(s: State, a: Action) {
    && WellFormed(s)
    && a.thread in s.pcs
    && (a.Advance? <==> !s.pcs[a.thread].Idle?)
  }

  ghost function Apply(s: State, a: Action): State
    requires Enabled(s, a)
  {
    match a
    case BeginEnqueue(t, value) => Move(s, t, EnqLoaded(s.enqueuePos, value))
    case BeginDequeue(t) => Move(s, t, DeqLoaded(s.dequeuePos))
    case Advance(t, spurious) =>
      match s.pcs[t]
      case EnqLoaded(pos, value) =>
        Move(s, t, EnqSeen(pos, value, s.cells[CellOf(s, pos)].sequence, s.log))
      case EnqSeen(pos, value, seen, _) => AfterEnqueueLoad(s, t, pos, value, seen, spurious)
      case EnqClaimed(pos, value) =>
        var i := CellOf(s, pos);
        Move(s, t, EnqWritten(pos, value)).(cells := s.cells[i := s.cells[i].(payload := value)])
      case EnqWritten(pos, value) =>
        var i := CellOf(s, pos);
        Move(s, t, Idle).(cells := s.cells[i := s.cells[i].(sequence := pos + 1)],
                          log := s.log.(published := s.log.published + {pos}))
      case DeqLoaded(pos) =>
        Move(s, t, DeqSeen(pos, s.cells[CellOf(s, pos)].sequence, s.log))
      case DeqSeen(pos, seen, _) => AfterDequeueLoad(s, t, pos, seen, spurious)
      case DeqClaimed(pos) =>
        var value := s.cells[CellOf(s, pos)].payload;
        Move(s, t, DeqTaken(pos, value)).(log := s.log.(taken := s.log.taken[pos := value]))
      case DeqTaken(pos, value) =>
        var i := CellOf(s, pos);
        Move(s, t, Idle).(cells := s.cells[i := s.cells[i].(sequence := pos + |s.cells|)],
                          log := s.log.(released := s.log.released + {pos},
                                        delivered := s.log.delivered + [(pos, value)]))
      case Idle => s
  }

  /** diff == 0: try the compare-and-swap; diff < 0: report a full queue; diff > 0: reload the position. */
  ghost function AfterEnqueueLoad(s: State, t: nat, pos: nat, value: Task, seen: nat, spurious: bool): State {
    if seen == pos then
      if s.enqueuePos == pos && !spurious then
        Move(s, t, EnqClaimed(pos, value)).(enqueuePos := pos + 1, log := s.log.(tickets := s.log.tickets + [value]))
      else Move(s, t, EnqLoaded(s.enqueuePos, value))
    else if seen < pos then Move(s, t, Idle)
    else Move(s, t, EnqLoaded(s.enqueuePos, value))
  }

  ghost function AfterDequeueLoad(s: State, t: nat, pos: nat, seen: nat, spurious: bool): State {
    if seen == pos + 1 then
      if s.dequeuePos == pos && !spurious then Move(s, t, DeqClaimed(pos)).(dequeuePos := pos + 1)
      else Move(s, t, DeqLoaded(s.dequeuePos))
    else if seen < pos + 1 then Move(s, t, Idle)
    else Move(s, t, DeqLoaded(s.dequeuePos))
  }

  ghost predicate Next(s: State, s': State) {
    exists a :: Enabled(s, a) && s' == Apply(s, a)
  }

  ghost predicate IsRun(run: seq<State>, capacity: nat) {
    && |run| > 0
    && Init(run[0], capacity)
    && forall i :: 0 < i < |run| ==> Next(run[i - 1], run[i])
  }

  // ---------- The inductive invariant ----------

  /** Everything the sequence number of ticket k's cell says about ticket k. */
  ghost predicate TicketOk(s: State, k: nat)
    requires WellFormed(s) && |s.log.tickets| == s.enqueuePos
  {
    var n := |s.cells|;
    var cell := s.cells[CellOf(s, k)];
    var c := cell.sequence;
    && (k in s.log.published <==> k < c)
    && (k in s.log.released <==> k + n <= c)
    && (c == k || c == k + 1 || k + n <= c || c + n <= k + 1)
    && (k in s.log.published ==> k < s.enqueuePos && (k !in s.log.released ==> cell.payload == s.log.tickets[k]))
    && (k in s.log.released ==> k in s.log.taken && k < s.dequeuePos)
    && (k in s.log.taken ==> k < s.dequeuePos && k < s.enqueuePos && s.log.taken[k] == s.log.tickets[k])
    && (k < s.dequeuePos ==> k in s.log.published)
    && (k < n || k < s.enqueuePos ==> k <= c)
  }

  ghost predicate PcOk(s: State, pc: Pc)
    requires WellFormed(s) && |s.log.tickets| == s.enqueuePos
  {
    var n := |s.cells|;
    match pc
    case Idle => true
    case EnqLoaded(pos, _) => pos <= s.enqueuePos
    case EnqSeen(pos, _, seen, at) =>
      && pos <= s.enqueuePos
      && seen <= s.cells[CellOf(s, pos)].sequence
      && (seen < pos <==> pos >= n && pos - n !in at.released)
      && (seen < pos ==> pos == |at.tickets|)
    case EnqClaimed(k, value) =>
      k < s.enqueuePos && s.log.tickets[k] == value && s.cells[CellOf(s, k)].sequence == k
    case EnqWritten(k, value) =>
      && k < s.enqueuePos && s.log.tickets[k] == value
      && s.cells[CellOf(s, k)] == Cell(k, value)
    case DeqLoaded(pos) => pos <= s.dequeuePos
    case DeqSeen(pos, seen, at) =>
      && pos <= s.dequeuePos
      && seen <= s.cells[CellOf(s, pos)].sequence
      && (seen < pos + 1 <==> pos !in at.published)
      && (seen < pos + 1 ==> forall j: nat :: j < pos ==> j in at.published)
    case DeqClaimed(k) =>
      k < s.dequeuePos && k !in s.log.taken && s.cells[CellOf(s, k)].sequence == k + 1
    case DeqTaken(k, value) =>
      && k < s.dequeuePos && s.cells[CellOf(s, k)].sequence == k + 1
      && k in s.log.taken && value == s.log.taken[k]
  }

  ghost predicate Produces(pc: Pc, k: nat) { (pc.EnqClaimed? || pc.EnqWritten?) && pc.pos == k }
  ghost predicate Consumes(pc: Pc, k: nat) { (pc.DeqClaimed? || pc.DeqTaken?) && pc.pos == k }

  ghost predicate OwnersDistinct(pcs: map<nat, Pc>) {
    forall t, u, k | t in pcs && u in pcs && t != u ::
      !(Produces(pcs[t], k) && Produces(pcs[u], k)) && !(Consumes(pcs[t], k) && Consumes(pcs[u], k))
  }

  /** Delivered tickets are released ones, each delivered once with the task that claimed it. */
  ghost predicate DeliveredOk(s: State)
    requires |s.log.tickets| == s.enqueuePos
  {
    var d := s.log.delivered;
    && (forall i :: 0 <= i < |d| ==> d[i].0 in s.log.released && d[i].0 < s.enqueuePos && d[i].1 == s.log.tickets[d[i].0])
    && (forall i, j :: 0 <= i < j < |d| ==> d[i].0 != d[j].0)
  }

  ghost predicate Shape(s: State, n: nat) {
    && n >= 2 && |s.cells| == n && IsPowerOfTwo(n)
    && |s.log.tickets| == s.enqueuePos
    && s.dequeuePos <= s.enqueuePos <= s.dequeuePos + n
  }

  ghost predicate TicketsOk(s: State, n: nat) {
    Shape(s, n) && forall k: nat :: TicketOk(s, k)
  }

  ghost predicate PcsOk(s: State, n: nat) {
    Shape(s, n) && forall t :: t in s.pcs ==> PcOk(s, s.pcs[t])
  }

  ghost predicate Inv(s: State, n: nat) {
    TicketsOk(s, n) && PcsOk(s, n) && OwnersDistinct(s.pcs) && DeliveredOk(s)
  }

  lemma InitInv(s: State, n: nat)
    requires Init(s, n) && n >= 2 && IsPowerOfTwo(n)
    ensures Inv(s, n)
  {
    forall k: nat ensures TicketOk(s, k) {
      SlotFirstLap(CellOf(s, k), n);
      if k < n { SlotFirstLap(k, n); } else { SlotSeparation(CellOf(s, k), k, n); }
    }
  }

  // ---------- Preservation: the ticket side, one lemma per kind of step ----------

  ghost predicate Owner(pc: Pc) {
    pc.EnqClaimed? || pc.EnqWritten? || pc.DeqClaimed? || pc.DeqTaken?
  }

  /** What one step may do to the parts of the state that other threads rely on. */
  ghost predicate Grew(s: State, s': State) {
    && |s'.cells| == |s.cells|
    && (forall i :: 0 <= i < |s.cells| ==> s.cells[i].sequence <= s'.cells[i].sequence)
    && s.log.tickets <= s'.log.tickets
    && s.enqueuePos <= s'.enqueuePos && s.dequeuePos <= s'.dequeuePos
  }

  lemma BystanderOk(s: State, s': State, pc: Pc, n: nat)
    requires Shape(s, n) && Shape(s', n) && PcOk(s, pc) && Grew(s, s')
    requires Owner(pc) ==> s'.cells[CellOf(s, pc.pos)] == s.cells[CellOf(s, pc.pos)]
    requires pc.DeqClaimed? ==> pc.pos !in s'.log.taken
    requires pc.DeqTaken? ==> pc.pos in s'.log.taken && s'.log.taken[pc.pos] == s.log.taken[pc.pos]
    ensures PcOk(s', pc)
  {
  }

  /** Loading a sequence number tells exactly whether the ticket's cell is free, or published. */
  lemma LoadFacts(s: State, pos: nat, n: nat)
    requires TicketsOk(s, n)
    ensures var seen := s.cells[CellOf(s, pos)].sequence;
            && (seen < pos <==> pos >= n && pos - n !in s.log.released)
            && (pos <= s.enqueuePos && seen < pos ==> pos == s.enqueuePos)
            && (seen < pos + 1 <==> pos !in s.log.published)
            && (pos <= s.dequeuePos ==> forall j: nat :: j < pos ==> j in s.log.published)
  {
    assert TicketOk(s, pos);
    if pos >= n {
      SlotLap(pos - n, n);
      assert TicketOk(s, pos - n);
    }
    forall j: nat | j < pos <= s.dequeuePos ensures j in s.log.published { assert TicketOk(s, j); }
  }

  /** Winning the enqueue compare-and-swap: the cell is free for exactly this ticket. */
  lemma EnqueueClaimTickets(s: State, s': State, pos: nat, value: Task, n: nat)
    requires TicketsOk(s, n) && pos == s.enqueuePos <= s.cells[CellOf(s, pos)].sequence
    requires s' == s.(pcs := s'.pcs, enqueuePos := pos + 1, log := s.log.(tickets := s.log.tickets + [value]))
    ensures TicketsOk(s', n) && s.cells[CellOf(s, pos)].sequence == pos
  {
    LoadFacts(s, pos, n);
    assert TicketOk(s, pos);
    if pos >= n {
      SlotLap(pos - n, n);
      assert TicketOk(s, pos - n);
    }
    forall k: nat ensures TicketOk(s', k) { assert TicketOk(s, k); }
  }

  /** Winning the dequeue compare-and-swap: the ticket is published and nobody has taken it. */
  lemma DequeueClaimTickets(s: State, s': State, pos: nat, n: nat)
    requires TicketsOk(s, n) && pos == s.dequeuePos < s.cells[CellOf(s, pos)].sequence
    requires s' == s.(pcs := s'.pcs, dequeuePos := pos + 1)
    ensures TicketsOk(s', n) && s.cells[CellOf(s, pos)].sequence == pos + 1
    ensures pos < s.enqueuePos && pos !in s.log.taken
  {
    assert TicketOk(s, pos);
    forall k: nat ensures TicketOk(s', k) { assert TicketOk(s, k); }
  }

  /** Filling the claimed cell disturbs no published, unreleased ticket. */
  lemma WriteTickets(s: State, s': State, k: nat, value: Task, n: nat)
    requires TicketsOk(s, n) && s.cells[CellOf(s, k)].sequence == k
    requires s' == s.(pcs := s'.pcs, cells := s.cells[CellOf(s, k) := Cell(k, value)])
    ensures TicketsOk(s', n)
  {
    forall j: nat ensures TicketOk(s', j) {
      assert TicketOk(s, j);
      if CellOf(s, j) == CellOf(s, k) && j < k { SlotSeparation(j, k, n); }
    }
  }

  lemma PublishTickets(s: State, s': State, k: nat, value: Task, n: nat)
    requires TicketsOk(s, n) && k < s.enqueuePos && s.cells[CellOf(s, k)] == Cell(k, value) && s.log.tickets[k] == value
    requires s' == s.(pcs := s'.pcs, cells := s.cells[CellOf(s, k) := Cell(k + 1, value)],
                      log := s.log.(published := s.log.published + {k}))
    ensures TicketsOk(s', n)
  {
    forall j: nat ensures TicketOk(s', j) {
      assert TicketOk(s, j);
      if CellOf(s, j) == CellOf(s, k) {
        if j < k { SlotSeparation(j, k, n); }
        if k < j { SlotSeparation(k, j, n); }
      }
    }
  }

  /** Reading the payload of a claimed ticket yields the task that claimed it. */
  lemma TakeTickets(s: State, s': State, k: nat, n: nat)
    requires TicketsOk(s, n) && k < s.dequeuePos && s.cells[CellOf(s, k)].sequence == k + 1
    requires s' == s.(pcs := s'.pcs, log := s.log.(taken := s.log.taken[k := s.cells[CellOf(s, k)].payload]))
    ensures TicketsOk(s', n)
  {
    assert TicketOk(s, k);
    forall j: nat ensures TicketOk(s', j) { assert TicketOk(s, j); }
  }

  lemma ReleaseTickets(s: State, s': State, k: nat, n: nat)
    requires TicketsOk(s, n) && k < s.dequeuePos && s.cells[CellOf(s, k)].sequence == k + 1 && k in s.log.taken
    requires s'.log == s.log.(released := s.log.released + {k}, delivered := s'.log.delivered)
    requires s' == s.(pcs := s'.pcs, log := s'.log,
                      cells := s.cells[CellOf(s, k) := s.cells[CellOf(s, k)].(sequence := k + n)])
    ensures TicketsOk(s', n)
    ensures k !in s.log.released
  {
    assert TicketOk(s, k);
    SlotLap(k, n);
    forall j: nat ensures TicketOk(s', j) {
      assert TicketOk(s, j);
      if CellOf(s, j) == CellOf(s, k) {
        if j < k { SlotSeparation(j, k, n); }
        if k < j { SlotSeparation(k, j, n); }
        if k + n < j { SlotSeparation(k + n, j, n); }
      }
    }
  }

  // ---------- Preservation: the thread side ----------

  /** Two different owners never work on the same cell. */
  lemma OwnersElsewhere(s: State, t: nat, u: nat, n: nat)
    requires PcsOk(s, n) && OwnersDistinct(s.pcs) && t in s.pcs && u in s.pcs && u != t
    requires Owner(s.pcs[t]) && Owner(s.pcs[u])
    ensures CellOf(s, s.pcs[u].pos) != CellOf(s, s.pcs[t].pos)
  {
    var j, k := s.pcs[u].pos, s.pcs[t].pos;
    assert PcOk(s, s.pcs[u]) && PcOk(s, s.pcs[t]);
    assert !(Produces(s.pcs[t], k) && Produces(s.pcs[u], k)) && !(Consumes(s.pcs[t], k) && Consumes(s.pcs[u], k));
    if CellOf(s, j) == CellOf(s, k) {
      if j < k { SlotSeparation(j, k, n); }
      if k < j { SlotSeparation(k, j, n); }
    }
  }

  ghost predicate Local(s: State, s': State, pc: Pc)
    requires |s.cells| == |s'.cells| > 0
  {
    if Owner(pc) then
      && (forall i :: 0 <= i < |s.cells| && i != CellOf(s, pc.pos) ==> s'.cells[i] == s.cells[i])
      && (forall k: nat :: k != pc.pos ==> (k in s'.log.taken <==> k in s.log.taken))
      && (forall k: nat :: k != pc.pos && k in s.log.taken ==> s'.log.taken[k] == s.log.taken[k])
    else s'.cells == s.cells && s'.log.taken == s.log.taken
  }

  lemma StepIsLocal(s: State, a: Action)
    requires Enabled(s, a)
    ensures var s' := Apply(s, a); |s'.cells| == |s.cells| && Local(s, s', s.pcs[a.thread])
  {
  }

  ghost predicate MovesOne(s: State, s': State, t: nat) { t in s'.pcs && s'.pcs == s.pcs[t := s'.pcs[t]] }

  lemma MovedTo(s: State, s': State, t: nat, pc: Pc)
    requires s'.pcs == s.pcs[t := pc]
    ensures MovesOne(s, s', t)
  {
  }

  lemma AfterLoadMovesOne(s: State, t: nat, pos: nat, value: Task, seen: nat, spurious: bool)
    ensures MovesOne(s, AfterEnqueueLoad(s, t, pos, value, seen, spurious), t)
    ensures MovesOne(s, AfterDequeueLoad(s, t, pos, seen, spurious), t)
  {
  }

  lemma StepMovesOne(s: State, a: Action)
    requires Enabled(s, a)
    ensures MovesOne(s, Apply(s, a), a.thread)
  {
    var s', t := Apply(s, a), a.thread;
    match a
    case BeginEnqueue(_, value) => MovedTo(s, s', t, EnqLoaded(s.enqueuePos, value));
    case BeginDequeue(_) => MovedTo(s, s', t, DeqLoaded(s.dequeuePos));
    case Advance(_, spurious) =>
      match s.pcs[t]
      case EnqSeen(pos, value, seen, _) => AfterLoadMovesOne(s, t, pos, value, seen, spurious);
      case DeqSeen(pos, seen, _) => AfterLoadMovesOne(s, t, pos, s.cells[0].payload, seen, spurious);
      case EnqLoaded(pos, value) => MovedTo(s, s', t, EnqSeen(pos, value, s.cells[CellOf(s, pos)].sequence, s.log));
      case EnqClaimed(pos, value) => MovedTo(s, s', t, EnqWritten(pos, value));
      case EnqWritten(_, _) => MovedTo(s, s', t, Idle);
      case DeqLoaded(pos) => MovedTo(s, s', t, DeqSeen(pos, s.cells[CellOf(s, pos)].sequence, s.log));
      case DeqClaimed(pos) => MovedTo(s, s', t, DeqTaken(pos, s.cells[CellOf(s, pos)].payload));
      case DeqTaken(_, _) => MovedTo(s, s', t, Idle);
  }

  /** A thread comes to own only the ticket at a position counter. */
  lemma StepClaims(s: State, a: Action)
    requires Enabled(s, a) && a.thread in Apply(s, a).pcs
    ensures var pc, pc' := s.pcs[a.thread], Apply(s, a).pcs[a.thread];
            && (forall k: nat :: Produces(pc', k) ==> Produces(pc, k) || k == s.enqueuePos)
            && (forall k: nat :: Consumes(pc', k) ==> Consumes(pc, k) || k == s.dequeuePos)
  {
  }

  /** A step of thread t that touches only its own ticket's cell and history leaves every other thread in order. */
  lemma BystandersOk(s: State, s': State, t: nat, n: nat)
    requires PcsOk(s, n) && OwnersDistinct(s.pcs) && Shape(s', n) && Grew(s, s')
    requires t in s.pcs && t in s'.pcs && s'.pcs == s.pcs[t := s'.pcs[t]] && PcOk(s', s'.pcs[t])
    requires Local(s, s', s.pcs[t])
    ensures PcsOk(s', n)
  {
    forall u | u in s'.pcs ensures PcOk(s', s'.pcs[u]) {
      if u != t {
        assert PcOk(s, s.pcs[u]);
        if Owner(s.pcs[u]) && Owner(s.pcs[t]) { OwnersElsewhere(s, t, u, n); }
        BystanderOk(s, s', s.pcs[u], n);
      }
    }
  }

  /** Ownership changes hands only with the position counters, so no ticket ever has two owners. */
  lemma OwnersStayDistinct(s: State, s': State, t: nat, n: nat)
    requires PcsOk(s, n) && OwnersDistinct(s.pcs) && t in s.pcs && t in s'.pcs && s'.pcs == s.pcs[t := s'.pcs[t]]
    requires forall k: nat :: Produces(s'.pcs[t], k) ==> Produces(s.pcs[t], k) || k == s.enqueuePos
    requires forall k: nat :: Consumes(s'.pcs[t], k) ==> Consumes(s.pcs[t], k) || k == s.dequeuePos
    ensures OwnersDistinct(s'.pcs)
  {
    forall u | u in s.pcs ensures OwnsBelow(s.pcs[u], s.enqueuePos, s.dequeuePos) { assert PcOk(s, s.pcs[u]); }
    NewOwnerDistinct(s.pcs, t, s'.pcs[t], s.enqueuePos, s.dequeuePos);
  }

  ghost predicate OwnsBelow(pc: Pc, enqueuePos: nat, dequeuePos: nat) {
    forall k: nat :: (Produces(pc, k) ==> k < enqueuePos) && (Consumes(pc, k) ==> k < dequeuePos)
  }

  lemma NewOwnerDistinct(pcs: map<nat, Pc>, t: nat, pc: Pc, enqueuePos: nat, dequeuePos: nat)
    requires OwnersDistinct(pcs) && t in pcs && forall u :: u in pcs ==> OwnsBelow(pcs[u], enqueuePos, dequeuePos)
    requires forall k: nat :: Produces(pc, k) ==> Produces(pcs[t], k) || k == enqueuePos
    requires forall k: nat :: Consumes(pc, k) ==> Consumes(pcs[t], k) || k == dequeuePos
    ensures OwnersDistinct(pcs[t := pc])
  {
  }

  lemma StepKeeps(s: State, a: Action, n: nat)
    requires Inv(s, n) && Enabled(s, a)
    ensures Inv(Apply(s, a), n)
  {
    var s', t := Apply(s, a), a.thread;
    StepIsLocal(s, a);
    StepMovesOne(s, a);
    StepKeepsTickets(s, a, n);
    StepKeepsActor(s, a, n);
    BystandersOk(s, s', t, n);
    StepClaims(s, a);
    OwnersStayDistinct(s, s', t, n);
    StepKeepsDelivered(s, a, n);
  }

  lemma StepKeepsTickets(s: State, a: Action, n: nat)
    requires Inv(s, n) && Enabled(s, a)
    ensures TicketsOk(Apply(s, a), n)
  {
    var s', t := Apply(s, a), a.thread;
    assert PcOk(s, s.pcs[t]);
    match s.pcs[t]
    case EnqSeen(pos, value, seen, _) =>
      if s'.enqueuePos != s.enqueuePos { EnqueueClaimTickets(s, s', pos, value, n); }
      else { SameTickets(s, s', n); }
    case DeqSeen(pos, seen, _) =>
      if s'.dequeuePos != s.dequeuePos { DequeueClaimTickets(s, s', pos, n); }
      else { SameTickets(s, s', n); }
    case EnqClaimed(k, value) => WriteTickets(s, s', k, value, n);
    case EnqWritten(k, value) => PublishTickets(s, s', k, value, n);
    case DeqClaimed(k) => TakeTickets(s, s', k, n);
    case DeqTaken(k, value) => ReleaseTickets(s, s', k, n);
    case Idle => SameTickets(s, s', n);
    case EnqLoaded(_, _) => SameTickets(s, s', n);
    case DeqLoaded(_) => SameTickets(s, s', n);
  }

  lemma SameTickets(s: State, s': State, n: nat)
    requires TicketsOk(s, n) && s' == s.(pcs := s'.pcs)
    ensures TicketsOk(s', n)
  {
    forall k: nat ensures TicketOk(s', k) { assert TicketOk(s, k); }
  }

  lemma StepGrows(s: State, a: Action, n: nat)
    requires Shape(s, n) && Enabled(s, a) && PcOk(s, s.pcs[a.thread])
    ensures Grew(s, Apply(s, a))
  {
  }

  lemma SeenActor(s: State, a: Action, n: nat)
    requires Inv(s, n) && Enabled(s, a) && a.Advance? && (s.pcs[a.thread].EnqSeen? || s.pcs[a.thread].DeqSeen?)
    requires Shape(Apply(s, a), n)
    ensures PcOk(Apply(s, a), Apply(s, a).pcs[a.thread])
  {
    var s', t := Apply(s, a), a.thread;
    assert PcOk(s, s.pcs[t]);
    if s'.enqueuePos != s.enqueuePos { EnqueueClaimTickets(s, s', s.pcs[t].pos, s.pcs[t].value, n); }
    if s'.dequeuePos != s.dequeuePos { DequeueClaimTickets(s, s', s.pcs[t].pos, n); }
  }

  lemma LoadedActor(s: State, a: Action, n: nat)
    requires Inv(s, n) && Enabled(s, a) && a.Advance? && (s.pcs[a.thread].EnqLoaded? || s.pcs[a.thread].DeqLoaded?)
    requires Shape(Apply(s, a), n)
    ensures PcOk(Apply(s, a), Apply(s, a).pcs[a.thread])
  {
    assert PcOk(s, s.pcs[a.thread]);
    LoadFacts(s, s.pcs[a.thread].pos, n);
  }

  lemma OwnerActor(s: State, a: Action, n: nat)
    requires PcsOk(s, n) && Enabled(s, a) && a.Advance? && Owner(s.pcs[a.thread])
    requires Shape(Apply(s, a), n)
    ensures PcOk(Apply(s, a), Apply(s, a).pcs[a.thread])
  {
    assert PcOk(s, s.pcs[a.thread]);
  }

  lemma StepKeepsActor(s: State, a: Action, n: nat)
    requires Inv(s, n) && Enabled(s, a)
    ensures Shape(Apply(s, a), n) && PcOk(Apply(s, a), Apply(s, a).pcs[a.thread]) && Grew(s, Apply(s, a))
  {
    StepKeepsTickets(s, a, n);
    assert PcOk(s, s.pcs[a.thread]);
    StepGrows(s, a, n);
    if a.Advance? {
      if Owner(s.pcs[a.thread]) { OwnerActor(s, a, n); }
      else if s.pcs[a.thread].EnqSeen? || s.pcs[a.thread].DeqSeen? { SeenActor(s, a, n); }
      else { LoadedActor(s, a, n); }
    }
  }

  lemma StepKeepsDelivered(s: State, a: Action, n: nat)
    requires Inv(s, n) && Enabled(s, a)
    ensures |Apply(s, a).log.tickets| == Apply(s, a).enqueuePos && DeliveredOk(Apply(s, a))
  {
    var pc := s.pcs[a.thread];
    assert PcOk(s, pc);
    if pc.DeqTaken? { assert TicketOk(s, pc.pos); }
  }

  lemma NextKeeps(s: State, s': State, n: nat)
    requires Inv(s, n) && Next(s, s')
    ensures Inv(s', n)
  {
    var a :| Enabled(s, a) && s' == Apply(s, a);
    StepKeeps(s, a, n);
  }

  lemma {:induction false} RunInv(run: seq<State>, n: nat, i: nat)
    requires IsRun(run, n) && n >= 2 && IsPowerOfTwo(n) && i < |run|
    ensures Inv(run[i], n)
  {
    if i == 0 {
      InitInv(run[0], n);
    } else {
      RunInv(run, n, i - 1);
      NextKeeps(run[i - 1], run[i], n);
    }
  }

  // ---------- Main results ----------

  /** The abstract queue: tickets claimed by producers and not yet claimed by consumers. */
  ghost function Fifo(s: State): seq<Task>
    requires s.dequeuePos <= |s.log.tickets|
  {
    s.log.tickets[s.dequeuePos..]
  }

  /** One step of a bounded first-in first-out queue, seen by the thread that moves. */
  ghost predicate FifoStep(q: seq<Task>, q': seq<Task>, before: Pc, after: Pc, capacity: nat) {
    if after.EnqClaimed? && !before.EnqClaimed? then |q| < capacity && q' == q + [after.value]
    else if after.DeqClaimed? && !before.DeqClaimed? then q != [] && q' == q[1..]
    else q' == q
  }

  /** Every step is a step of the bounded FIFO queue: claims append and remove, all else changes nothing. */
  lemma StepRefinesFifo(s: State, a: Action, n: nat)
    requires Inv(s, n) && Enabled(s, a)
    ensures var s' := Apply(s, a);
            && Inv(s', n)
            && FifoStep(Fifo(s), Fifo(s'), s.pcs[a.thread], s'.pcs[a.thread], n)
            && (s'.pcs[a.thread].DeqClaimed? ==> s.log.tickets[s'.pcs[a.thread].pos] == Fifo(s)[0])
  {
    StepKeeps(s, a, n);
    StepIsFifo(s, a, n);
  }

  lemma StepIsFifo(s: State, a: Action, n: nat)
    requires Inv(s, n) && Enabled(s, a) && a.thread in Apply(s, a).pcs
    requires Apply(s, a).dequeuePos <= |Apply(s, a).log.tickets| && s.dequeuePos <= |s.log.tickets|
    ensures var s', t := Apply(s, a), a.thread;
            && FifoStep(s.log.tickets[s.dequeuePos..], s'.log.tickets[s'.dequeuePos..], s.pcs[t], s'.pcs[t], n)
            && (s'.pcs[t].DeqClaimed? ==> s'.pcs[t].pos == s.dequeuePos < |s.log.tickets|)
  {
    var t := a.thread;
    assert PcOk(s, s.pcs[t]);
    match s.pcs[t]
    case EnqSeen(pos, value, _, _) =>
      var s' := Apply(s, a);
      if s'.enqueuePos != s.enqueuePos {
        EnqueueClaimTickets(s, s', pos, value, n);
        assert s'.log.tickets[s.dequeuePos..] == s.log.tickets[s.dequeuePos..] + [value];
      }
    case DeqSeen(pos, _, _) =>
      var s' := Apply(s, a);
      if s'.dequeuePos != s.dequeuePos { DequeueClaimTickets(s, s', pos, n); }
    case _ =>
  }

  /** What a thread holding a dequeued payload is about to return, and what has been returned, is what was enqueued. */
  lemma RunDelivers(run: seq<State>, n: nat, i: nat)
    requires IsRun(run, n) && n >= 2 && IsPowerOfTwo(n) && i < |run|
    ensures var s := run[i]; var d := s.log.delivered;
            && (forall j :: 0 <= j < |d| ==> d[j].0 < |s.log.tickets| && d[j].1 == s.log.tickets[d[j].0])
            && (forall j, k :: 0 <= j < k < |d| ==> d[j].0 != d[k].0)
            && (forall t :: t in s.pcs && s.pcs[t].DeqTaken? ==>
                  s.pcs[t].pos < |s.log.tickets| && s.pcs[t].value == s.log.tickets[s.pcs[t].pos])
  {
    RunInv(run, n, i);
    var s := run[i];
    forall t | t in s.pcs && s.pcs[t].DeqTaken?
      ensures s.pcs[t].pos < |s.log.tickets| && s.pcs[t].value == s.log.tickets[s.pcs[t].pos]
    {
      assert PcOk(s, s.pcs[t]) && TicketOk(s, s.pcs[t].pos);
    }
  }

  /**
   `enqueue` returns false exactly when, at its last sequence load, it stood at the tail ticket and the
   ticket one lap behind had not been released; `dequeue` returns false exactly when the ticket at the
   head had not been published.
   */
  lemma RunReportsExactly(run: seq<State>, n: nat, i: nat, t: nat)
    requires IsRun(run, n) && n >= 2 && IsPowerOfTwo(n) && i < |run| && t in run[i].pcs
    ensures WellFormed(run[i])
    ensures match run[i].pcs[t]
            case EnqSeen(pos, _, _, at) =>
              Apply(run[i], Advance(t, false)).pcs[t].Idle?
              <==> pos == |at.tickets| && pos >= n && pos - n !in at.released
            case DeqSeen(pos, _, at) =>
              Apply(run[i], Advance(t, false)).pcs[t].Idle?
              <==> pos !in at.published && forall j: nat :: j < pos ==> j in at.published
            case _ => true
  {
    RunInv(run, n, i);
    assert PcOk(run[i], run[i].pcs[t]);
  }

  /** A published ticket whose consumer has not released it still has its task in its cell. */
  ghost predicate PayloadsKept(s: State)
    requires |s.cells| > 0
  {
    forall k: nat :: k in s.log.published && k !in s.log.released ==>
      k < |s.log.tickets| && s.cells[CellOf(s, k)].payload == s.log.tickets[k]
  }

  ghost predicate SafeCapacity(n: nat) {
    forall run: seq<State>, i: nat | IsRun(run, n) && i < |run| :: |run[i].cells| > 0 && PayloadsKept(run[i])
  }

  /** With one cell, "published" looks like "free for the next lap": the second enqueue overwrites the first task. */
  lemma OneCellOverwrites(a: Task, b: Task) returns (run: seq<State>)
    requires a != b
    ensures IsRun(run, 1) && |run[|run| - 1].cells| > 0 && !PayloadsKept(run[|run| - 1])
  {
    run := [State([Cell(0, a)], 0, 0, map[0 := Idle], Log([], {}, map[], {}, []))];
    var log1 := Log([a], {0}, map[], {}, []);
    run := Extend(run, BeginEnqueue(0, a), run[0].(pcs := map[0 := EnqLoaded(0, a)]));
    run := OneCellEnqueue(run, a);
    run := Extend(run, BeginEnqueue(0, b), State([Cell(1, a)], 1, 0, map[0 := EnqLoaded(1, b)], log1));
    run := Extend(run, Advance(0, false), State([Cell(1, a)], 1, 0, map[0 := EnqSeen(1, b, 1, log1)], log1));
    var log2 := log1.(tickets := [a, b]);
    run := Extend(run, Advance(0, false), State([Cell(1, a)], 2, 0, map[0 := EnqClaimed(1, b)], log2));
    run := Extend(run, Advance(0, false), State([Cell(1, b)], 2, 0, map[0 := EnqWritten(1, b)], log2));
    assert 0 in log2.published && 0 !in log2.released;
  }

  lemma OneCellEnqueue(run: seq<State>, a: Task) returns (longer: seq<State>)
    requires IsRun(run, 1)
    requires run[|run| - 1] == State([Cell(0, a)], 0, 0, map[0 := EnqLoaded(0, a)], Log([], {}, map[], {}, []))
    ensures IsRun(longer, 1)
    ensures longer[|longer| - 1] == State([Cell(1, a)], 1, 0, map[0 := Idle], Log([a], {0}, map[], {}, []))
  {
    var log0 := Log([], {}, map[], {}, []);
    var log1 := log0.(tickets := [a]);
    longer := Extend(run, Advance(0, false), State([Cell(0, a)], 0, 0, map[0 := EnqSeen(0, a, 0, log0)], log0));
    longer := Extend(longer, Advance(0, false), State([Cell(0, a)], 1, 0, map[0 := EnqClaimed(0, a)], log1));
    longer := Extend(longer, Advance(0, false), State([Cell(0, a)], 1, 0, map[0 := EnqWritten(0, a)], log1));
    longer := Extend(longer, Advance(0, false), State([Cell(1, a)], 1, 0, map[0 := Idle], log1.(published := {0})));
  }

  lemma Extend(run: seq<State>, a: Action, s': State) returns (longer: seq<State>)
    requires IsRun(run, 1) && Enabled(run[|run| - 1], a) && s' == Apply(run[|run| - 1], a)
    ensures longer == run + [s'] && IsRun(longer, 1)
  {
    longer := run + [s'];
    forall i | 0 < i < |longer| ensures Next(longer[i - 1], longer[i]) {
      if i < |run| { assert Next(run[i - 1], run[i]); }
    }
  }

  /** No task is overwritten before it is read, on any run, exactly when there are at least two cells. */
  lemma SafeIffTwoCells(n: nat)
    requires IsPowerOfTwo(n)
    ensures SafeCapacity(n) <==> n >= 2
  {
    if n >= 2 {
      forall run: seq<State>, i: nat | IsRun(run, n) && i < |run| ensures |run[i].cells| > 0 && PayloadsKept(run[i]) {
        RunInv(run, n, i);
        forall k: nat | k in run[i].log.published ensures TicketOk(run[i], k) {}
      }
    } else {
      var run := OneCellOverwrites(Task(1, 0, false), Task(2, 0, false));
      assert IsRun(run, n) && 0 <= |run| - 1 < |run|;
    }
  }
}
