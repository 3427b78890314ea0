/** The connection timer: a binary min-heap of expiry times with an index from socket to heap position. */
module HeapTimer {
  import opened Text

  datatype Node = Node(sockfd: int, expire: int)

  function Parent(i: nat): nat
    requires i > 0
  {
    (i - 1) / 2
  }

  /** The index is the exact inverse of the heap's socket column. */
  ghost predicate Indexed(heap: seq<Node>, index: map<int, nat>) {
    && (forall i :: 0 <= i < |heap| ==> heap[i].sockfd in index && index[heap[i].sockfd] == i)
    && (forall fd :: fd in index ==> index[fd] < |heap| && heap[index[fd]].sockfd == fd)
  }

  ghost function ExpiryMap(heap: seq<Node>, index: map<int, nat>): map<int, int>
    requires Indexed(heap, index)
  {
    map fd | fd in index :: heap[index[fd]].expire
  }

  ghost predicate EdgeOk(heap: seq<Node>, i: nat) {
    0 < i < |heap| ==> heap[Parent(i)].expire <= heap[i].expire
  }

  ghost predicate Ordered(heap: seq<Node>) {
    forall i: nat :: EdgeOk(heap, i)
  }

  /** Heap order holds except around position k, and k's parent is no later than k's children. */
  ghost predicate OrderedExcept(heap: seq<Node>, k: nat) {
    && (forall i: nat :: 0 < i < |heap| && i != k && Parent(i) != k ==> EdgeOk(heap, i))
    && (forall i: nat :: 0 < i < |heap| && Parent(i) == k && 0 < k ==> heap[Parent(k)].expire <= heap[i].expire)
  }

  /** The children of k are no earlier than k. */
  ghost predicate AboveChildren(heap: seq<Node>, k: nat) {
    forall i: nat :: 0 < i < |heap| && Parent(i) == k ==> EdgeOk(heap, i)
  }

  lemma {:induction false} RootIsEarliest(heap: seq<Node>, i: nat)
    requires Ordered(heap) && i < |heap|
    ensures heap[0].expire <= heap[i].expire
  {
    if i > 0 {
      assert EdgeOk(heap, i);
      RootIsEarliest(heap, Parent(i));
    }
  }

  lemma OrderedFromParts(heap: seq<Node>, k: nat)
    requires OrderedExcept(heap, k) && EdgeOk(heap, k) && AboveChildren(heap, k)
    ensures Ordered(heap)
  {
    forall i: nat ensures EdgeOk(heap, i) {}
  }

  function Swapped(heap: seq<Node>, l: nat, r: nat): seq<Node>
    requires l < |heap| && r < |heap|
  {
    heap[l := heap[r]][r := heap[l]]
  }

  /** Moving k up past a later parent leaves only the parent's position in question. */
  lemma SwapUp(heap: seq<Node>, k: nat, moved: bool)
    requires 0 < k < |heap| && OrderedExcept(heap, k) && heap[Parent(k)].expire > heap[k].expire
    requires moved ==> AboveChildren(heap, k)
    ensures OrderedExcept(Swapped(heap, Parent(k), k), Parent(k)) && AboveChildren(Swapped(heap, Parent(k), k), Parent(k))
  {
    var p, after := Parent(k), Swapped(heap, Parent(k), k);
    forall i: nat | 0 < i < |heap| && i != p && Parent(i) != p ensures EdgeOk(after, i) {
      if Parent(i) != k { assert EdgeOk(heap, i); }
    }
    forall i: nat | 0 < i < |heap| && Parent(i) == p ensures EdgeOk(after, i) {
      if i != k { assert EdgeOk(heap, i); }
    }
    forall i: nat | 0 < i < |heap| && Parent(i) == p && 0 < p ensures after[Parent(p)].expire <= after[i].expire {
      assert EdgeOk(heap, p);
      if i != k { assert EdgeOk(heap, i); }
    }
  }

  /** Moving k down past its earliest child c leaves only the child's position in question. */
  lemma SwapDown(heap: seq<Node>, k: nat, c: nat)
    requires k < c < |heap| && Parent(c) == k && OrderedExcept(heap, k) && EdgeOk(heap, k)
    requires heap[c].expire < heap[k].expire
    requires forall i: nat :: 0 < i < |heap| && Parent(i) == k ==> heap[c].expire <= heap[i].expire
    ensures OrderedExcept(Swapped(heap, k, c), c) && EdgeOk(Swapped(heap, k, c), c)
  {
    var after := Swapped(heap, k, c);
    forall i: nat | 0 < i < |heap| && i != c && Parent(i) != c ensures EdgeOk(after, i) {
      if i != k && Parent(i) != k { assert EdgeOk(heap, i); }
    }
    forall i: nat | 0 < i < |heap| && Parent(i) == c ensures after[Parent(c)].expire <= after[i].expire {
      assert EdgeOk(heap, i);
    }
  }

  /** Two maps from sockets to expiries agree when they agree pointwise on the same sockets. */
  lemma SameExpiries(heap: seq<Node>, index: map<int, nat>, expected: map<int, int>)
    requires Indexed(heap, index) && index.Keys == expected.Keys
    requires forall i :: 0 <= i < |heap| ==> expected[heap[i].sockfd] == heap[i].expire
    ensures ExpiryMap(heap, index) == expected
  {
    forall fd | fd in index ensures ExpiryMap(heap, index)[fd] == expected[fd] {
      assert heap[index[fd]].sockfd == fd;
    }
  }

  lemma SwapIndexed(heap: seq<Node>, index: map<int, nat>, l: nat, r: nat)
    requires Indexed(heap, index) && l < |heap| && r < |heap|
    ensures var index' := index[heap[r].sockfd := l][heap[l].sockfd := r];
            Indexed(Swapped(heap, l, r), index') && ExpiryMap(Swapped(heap, l, r), index') == ExpiryMap(heap, index)
  {
    var heap', index' := Swapped(heap, l, r), index[heap[r].sockfd := l][heap[l].sockfd := r];
    assert index'.Keys == index.Keys;
    SameExpiries(heap', index', ExpiryMap(heap, index));
  }

  lemma PushIndexed(heap: seq<Node>, index: map<int, nat>, node: Node)
    requires Indexed(heap, index) && node.sockfd !in index
    ensures Indexed(heap + [node], index[node.sockfd := |heap|])
    ensures ExpiryMap(heap + [node], index[node.sockfd := |heap|]) == ExpiryMap(heap, index)[node.sockfd := node.expire]
  {
    SameExpiries(heap + [node], index[node.sockfd := |heap|], ExpiryMap(heap, index)[node.sockfd := node.expire]);
  }

  lemma ChangeIndexed(heap: seq<Node>, index: map<int, nat>, node: Node)
    requires Indexed(heap, index) && node.sockfd in index
    ensures var heap' := heap[index[node.sockfd] := node];
            Indexed(heap', index) && ExpiryMap(heap', index) == ExpiryMap(heap, index)[node.sockfd := node.expire]
  {
    SameExpiries(heap[index[node.sockfd] := node], index, ExpiryMap(heap, index)[node.sockfd := node.expire]);
  }

  lemma PopIndexed(heap: seq<Node>, index: map<int, nat>)
    requires Indexed(heap, index) && heap != []
    ensures var last := |heap| - 1; var fd := heap[last].sockfd;
            && Indexed(heap[..last], index - {fd})
            && ExpiryMap(heap[..last], index - {fd}) == ExpiryMap(heap, index) - {fd}
  {
    var last := |heap| - 1;
    var fd := heap[last].sockfd;
    SameExpiries(heap[..last], index - {fd}, ExpiryMap(heap, index) - {fd});
  }

  class Timer {
    var heap: seq<Node>
    var index: map<int, nat>

    ghost predicate Valid()
      reads this
    {
      Indexed(heap, index) && Ordered(heap)
    }

    /** The timers as a finite map from socket to expiry. */
    ghost function Expiries(): map<int, int>
      requires Indexed(heap, index)
      reads this
    {
      ExpiryMap(heap, index)
    }

    constructor ()
      ensures Valid() && Expiries() == map[]
    {
      heap, index := [], map[];
    }

    /**
     How long the event loop may sleep: for ever without timers, not at all when one has run out, and else
     until the earliest one.  The milliseconds are cut to an int, which is exact up to 2147483 seconds.
     */
    method NextTimeoutMs(now: int) returns (ms: int)
      requires Valid()
      ensures Expiries() == map[] ==> ms == -1
      ensures Expired(Expiries(), now) != {} ==> ms == 0
      ensures Expiries() != map[] && Expired(Expiries(), now) == {} ==>
                exists fd :: fd in Expiries() && SleepsUntil(fd, now, ms)
    {
      if heap == [] {
        assert forall fd :: fd !in index;
        assert Expiries() == map[] && forall fd :: fd !in Expired(Expiries(), now);
        return -1;
      }
      FrontIsEarliest(heap, index);
      assert heap[0].sockfd in Expiries();
      if heap[0].expire <= now {
        assert heap[0].sockfd in Expired(Expiries(), now);
        return 0;
      }
      assert forall fd :: fd !in Expired(Expiries(), now);
      ms := Int32((heap[0].expire - now) * 1000);
      assert SleepsUntil(heap[0].sockfd, now, ms);
    }

    /** `fd` has an earliest timer, and `ms` leads exactly to it unless it is too far off. */
    ghost predicate SleepsUntil(fd: int, now: int, ms: int)
      requires Valid() && fd in Expiries()
      reads this
    {
      && (forall g :: g in Expiries() ==> Expiries()[fd] <= Expiries()[g])
      && (now * 1000 + ms == Expiries()[fd] * 1000 <==> Expiries()[fd] - now <= 2147483)
    }

    method SwapNode(l: nat, r: nat)
      requires Indexed(heap, index) && l < |heap| && r < |heap|
      modifies this
      ensures Indexed(heap, index) && heap == Swapped(old(heap), l, r) && Expiries() == old(Expiries())
    {
      SwapIndexed(heap, index, l, r);
      heap := heap[l := heap[r]][r := heap[l]];
      index := index[heap[l].sockfd := l];
      index := index[heap[r].sockfd := r];
    }

    method SiftUp(start: nat) returns (moved: bool)
      requires Indexed(heap, index) && start < |heap| && OrderedExcept(heap, start)
      modifies this
      ensures Indexed(heap, index) && |heap| == old(|heap|) && Expiries() == old(Expiries())
      ensures moved ==> Ordered(heap)
      ensures !moved ==> heap == old(heap) && EdgeOk(heap, start)
    {
      moved := false;
      var k: nat := start;
      while k > 0
        invariant k < |heap| == old(|heap|) && Indexed(heap, index) && Expiries() == old(Expiries())
        invariant OrderedExcept(heap, k)
        invariant moved ==> AboveChildren(heap, k)
        invariant !moved ==> heap == old(heap) && k == start
        decreases k
      {
        var parent := (k - 1) / 2;
        if heap[parent].expire <= heap[k].expire { break; }
        SwapUp(heap, k, moved);
        SwapNode(parent, k);
        k := parent;
        moved := true;
      }
      if moved { OrderedFromParts(heap, k); }
    }

    /** The earliest of node k and its children. */
    method EarliestOfFamily(k: nat) returns (smallest: nat)
      requires k < |heap|
      ensures smallest == k || (smallest < |heap| && smallest > 0 && Parent(smallest) == k && heap[smallest].expire < heap[k].expire)
      ensures forall i: nat :: 0 < i < |heap| && Parent(i) == k ==> heap[smallest].expire <= heap[i].expire
    {
      var size := |heap|;
      smallest := k;
      var left := k * 2 + 1;
      var right := left + 1;
      if left < size && heap[left].expire < heap[smallest].expire { smallest := left; }
      if right < size && heap[right].expire < heap[smallest].expire { smallest := right; }
      forall i: nat | 0 < i < size && Parent(i) == k ensures heap[smallest].expire <= heap[i].expire {
        assert i == left || i == right;
      }
    }

    method SiftDown(start: nat)
      requires Indexed(heap, index) && start < |heap| && OrderedExcept(heap, start) && EdgeOk(heap, start)
      modifies this
      ensures Valid() && |heap| == old(|heap|) && Expiries() == old(Expiries())
    {
      var size := |heap|;
      var k: nat := start;
      while true
        invariant k < |heap| == size == old(|heap|) && Indexed(heap, index) && Expiries() == old(Expiries())
        invariant OrderedExcept(heap, k) && EdgeOk(heap, k)
        decreases size - k
      {
        var smallest := EarliestOfFamily(k);
        if smallest == k { break; }
        SwapDown(heap, k, smallest);
        SwapNode(k, smallest);
        k := smallest;
      }
      OrderedFromParts(heap, k);
    }

    method Sift(k: nat)
      requires Indexed(heap, index) && k < |heap| && OrderedExcept(heap, k)
      modifies this
      ensures Valid() && |heap| == old(|heap|) && Expiries() == old(Expiries())
    {
      var moved := SiftUp(k);
      if !moved { SiftDown(k); }
    }

    /** `now` is the clock reading of this call. */
    method AddOrUpdate(sockfd: int, timeout: int, now: int)
      requires Valid()
      modifies this
      ensures Valid() && Expiries() == old(Expiries())[sockfd := now + timeout]
    {
      var expire := now + timeout;
      if sockfd !in index {
        ghost var before := heap;
        PushIndexed(heap, index, Node(sockfd, expire));
        heap := heap + [Node(sockfd, expire)];
        var last := |heap| - 1;
        index := index[sockfd := last];
        assert OrderedExcept(heap, last) by {
          forall i: nat | 0 < i < last ensures EdgeOk(heap, i) { assert EdgeOk(before, i); }
        }
        var moved := SiftUp(last);
        if !moved { OrderedFromParts(heap, last); }
        return;
      }
      var k := index[sockfd];
      ChangedExcept(heap, k, Node(sockfd, expire));
      ChangeIndexed(heap, index, Node(sockfd, expire));
      heap := heap[k := Node(sockfd, expire)];
      Sift(k);
    }

    method Remove(sockfd: int)
      requires Valid()
      modifies this
      ensures Valid() && Expiries() == old(Expiries()) - {sockfd}
    {
      if sockfd in index {
        DeleteAt(index[sockfd]);
      }
    }

    method DeleteAt(k: nat)
      requires Valid() && k < |heap|
      modifies this
      ensures Valid() && Expiries() == old(Expiries()) - {old(heap[k].sockfd)}
    {
      var last := |heap| - 1;
      var sockfd := heap[k].sockfd;
      RemovedExcept(heap, k);
      if k != last {
        FillHole(k, last, sockfd);
        Sift(k);
      } else {
        PopLast(sockfd);
      }
    }

    /** Takes out a node by putting the last one in its place. */
    method FillHole(k: nat, last: nat, sockfd: int)
      requires Indexed(heap, index) && k < last == |heap| - 1 && heap[k].sockfd == sockfd
      modifies this
      ensures Indexed(heap, index) && heap == Swapped(old(heap), k, last)[..last] && Expiries() == old(Expiries()) - {sockfd}
    {
      SwapNode(k, last);
      PopLast(sockfd);
    }

    method PopLast(sockfd: int)
      requires Indexed(heap, index) && heap != [] && heap[|heap| - 1].sockfd == sockfd
      modifies this
      ensures heap == old(heap)[..old(|heap|) - 1] && Indexed(heap, index) && Expiries() == old(Expiries()) - {sockfd}
    {
      PopIndexed(heap, index);
      index := index - {sockfd};
      heap := heap[..|heap| - 1];
    }
  }

  /** Replacing one node leaves order everywhere else. */
  lemma ChangedExcept(heap: seq<Node>, k: nat, node: Node)
    requires Ordered(heap) && k < |heap|
    ensures OrderedExcept(heap[k := node], k)
  {
    forall i: nat | 0 < i < |heap| && i != k && Parent(i) != k ensures EdgeOk(heap[k := node], i) { assert EdgeOk(heap, i); }
    forall i: nat | 0 < i < |heap| && Parent(i) == k && 0 < k ensures heap[k := node][Parent(k)].expire <= heap[k := node][i].expire {
      assert EdgeOk(heap, i) && EdgeOk(heap, k);
    }
  }

  /** Filling the hole at k with the last node leaves order everywhere else. */
  lemma RemovedExcept(heap: seq<Node>, k: nat)
    requires Ordered(heap) && k < |heap|
    ensures var last := |heap| - 1; var rest := Swapped(heap, k, last)[..last];
            if k < last then OrderedExcept(rest, k) else rest == heap[..last] && Ordered(rest)
  {
    var last := |heap| - 1;
    var rest := Swapped(heap, k, last)[..last];
    if k < last {
      ChangedExcept(heap, k, heap[last]);
      var changed := heap[k := heap[last]];
      assert rest == changed[..last];
      forall i: nat | 0 < i < last && i != k && Parent(i) != k ensures EdgeOk(rest, i) { assert EdgeOk(changed, i); }
    } else {
      forall i: nat ensures EdgeOk(rest, i) { assert EdgeOk(heap, i); }
    }
  }

  // ---------- The client: scanning for idle connections ----------

  /** The sockets whose timers have run out. */
  ghost function Expired(timers: map<int, int>, now: int): set<int> {
    set fd | fd in timers && timers[fd] <= now
  }

  ghost predicate FiredInOrder(fired: seq<int>, timers: map<int, int>) {
    && (forall i :: 0 <= i < |fired| ==> fired[i] in timers)
    && (forall i, j :: 0 <= i < j < |fired| ==> fired[i] != fired[j] && timers[fired[i]] <= timers[fired[j]])
  }

  /** Half way through a scan: what has fired, what is still to fire, what has been put back. */
  ghost predicate ScanInvariant(start: map<int, int>, current: map<int, int>, fired: seq<int>, now: int) {
    && FiredInOrder(fired, start)
    && (forall i :: 0 <= i < |fired| ==> start[fired[i]] <= now)
    && (forall fd :: fd in start && fd !in fired ==> fd in current && current[fd] == start[fd])
    && (forall fd :: fd in current ==> fd in start && (fd in fired ==> current[fd] > now))
    && (forall i, fd :: 0 <= i < |fired| && fd in start && fd !in fired ==> start[fired[i]] <= start[fd])
  }

  /** The front of the heap is an earliest timer of the map. */
  lemma FrontIsEarliest(heap: seq<Node>, index: map<int, nat>)
    requires Indexed(heap, index) && Ordered(heap) && heap != []
    ensures heap[0].sockfd in index && ExpiryMap(heap, index)[heap[0].sockfd] == heap[0].expire
    ensures forall fd :: fd in ExpiryMap(heap, index) ==> heap[0].expire <= ExpiryMap(heap, index)[fd]
  {
    forall fd | fd in index ensures heap[0].expire <= heap[index[fd]].expire { RootIsEarliest(heap, index[fd]); }
  }

  lemma FireStep(start: map<int, int>, current: map<int, int>, after: map<int, int>, fired: seq<int>, fd: int, now: int)
    requires ScanInvariant(start, current, fired, now) && fd in current && current[fd] <= now
    requires forall g :: g in current ==> current[fd] <= current[g]
    requires after == current - {fd} || (fd in after && after[fd] > now && after == (current - {fd})[fd := after[fd]])
    ensures ScanInvariant(start, after, fired + [fd], now)
  {
    var longer := fired + [fd];
    AppendMembers(fired, fd);
    assert fd !in fired && fd in start && current[fd] == start[fd];
    forall g | g in start && g !in longer ensures g in after && after[g] == start[g] && start[fd] <= start[g] {
      assert g !in fired && g != fd && g in current;
    }
    forall g | g in after ensures g in start && (g in longer ==> after[g] > now) {
      assert g != fd ==> g in current && after[g] == current[g];
    }
    FiredLonger(start, fired, fd, now);
  }

  lemma AppendMembers(fired: seq<int>, fd: int)
    ensures forall g :: g in fired + [fd] <==> g in fired || g == fd
  {
  }

  /** The next timer fired is not earlier than those before, and not later than those to come. */
  lemma FiredLonger(start: map<int, int>, fired: seq<int>, fd: int, now: int)
    requires FiredInOrder(fired, start) && fd in start && fd !in fired && start[fd] <= now
    requires forall i :: 0 <= i < |fired| ==> start[fired[i]] <= now && start[fired[i]] <= start[fd]
    requires forall g :: g in start && g !in fired && g != fd ==> start[fd] <= start[g]
    ensures var longer := fired + [fd];
            && FiredInOrder(longer, start) && (forall i :: 0 <= i < |longer| ==> start[longer[i]] <= now)
            && (forall i, g :: 0 <= i < |longer| && g in start && g !in longer ==> start[longer[i]] <= start[g])
  {
    var longer := fired + [fd];
    AppendMembers(fired, fd);
    forall i | 0 <= i < |longer| ensures longer[i] in start && start[longer[i]] <= start[fd] {
      assert i < |fired| ==> longer[i] == fired[i];
    }
  }

  lemma FireShrinks(current: map<int, int>, after: map<int, int>, fd: int, now: int)
    requires fd in current && current[fd] <= now
    requires after == current - {fd} || (fd in after && after[fd] > now && after == (current - {fd})[fd := after[fd]])
    ensures |Expired(after, now)| < |Expired(current, now)|
  {
    assert Expired(after, now) == Expired(current, now) - {fd};
  }

  lemma FinishScan(start: map<int, int>, current: map<int, int>, fired: seq<int>, now: int)
    requires ScanInvariant(start, current, fired, now) && forall fd :: fd in current ==> current[fd] > now
    ensures forall fd :: fd in fired <==> fd in Expired(start, now)
    ensures Expired(current, now) == {}
  {
    forall fd | fd in Expired(start, now) ensures fd in fired {}
    assert forall fd :: fd !in Expired(current, now);
  }

  class Reactor {
    const timer: Timer
    const connTimeout: int
    var clock: int

    constructor (connTimeout: int, clock: int)
      ensures timer.Valid() && fresh(timer) && this.connTimeout == connTimeout && this.clock == clock
    {
      timer := new Timer();
      this.connTimeout, this.clock := connTimeout, clock;
    }

    /** The wall clock never goes back. */
    method Time() returns (t: int)
      modifies this`clock
      ensures t == clock >= old(clock)
    {
      t :| t >= clock;
      clock := t;
    }

    /** When a worker last served a connection: any moment up to now, also one behind the last reading of the clock. */
    method LastActive() returns (stamp: int)
      modifies this`clock
      ensures stamp <= clock && old(clock) <= clock
    {
      stamp := *;
      if stamp > clock { clock := stamp; }
    }

    /**
     What happens to a connection whose timer fired: an open one gets a new timer if it was active within the
     timeout, and is closed otherwise.  `t` is the moment at which that is decided.
     */
    method OnExpire(sockfd: int, isOpen: bool) returns (readded: bool, closed: bool, t: int, lastActive: int)
      requires timer.Valid()
      modifies this`clock, timer
      ensures timer.Valid() && old(clock) <= t <= clock && lastActive <= clock
      ensures readded <==> isOpen && t - lastActive < connTimeout
      ensures closed <==> isOpen && !readded
      ensures readded ==>
                && sockfd in timer.Expiries() && old(clock) < timer.Expiries()[sockfd]
                && (if t < lastActive then lastActive else t) + connTimeout <= timer.Expiries()[sockfd] <= clock + connTimeout
                && timer.Expiries() == old(timer.Expiries())[sockfd := timer.Expiries()[sockfd]]
      ensures !readded ==> timer.Expiries() == old(timer.Expiries())
    {
      readded, closed, t, lastActive := false, false, clock, clock;
      if !isOpen { return; }
      t := Time();
      lastActive := LastActive();
      if t - lastActive < connTimeout {
        var t' := Time();
        timer.AddOrUpdate(sockfd, connTimeout, t');
        readded := true;
        return;
      }
      closed := true;
    }

    /**
     One scan fires exactly the timers that had run out when it began, once each and earliest first,
     and leaves only later ones, although the callback may put a socket back.
     */
    method ScanTimeout() returns (fired: seq<int>, now: int)
      requires timer.Valid()
      modifies this`clock, timer
      ensures timer.Valid() && now >= old(clock)
      ensures FiredInOrder(fired, old(timer.Expiries()))
      ensures forall fd :: fd in fired <==> fd in Expired(old(timer.Expiries()), now)
      ensures Expired(timer.Expiries(), now) == {}
      ensures forall fd :: fd in old(timer.Expiries()) && fd !in fired ==>
                fd in timer.Expiries() && timer.Expiries()[fd] == old(timer.Expiries())[fd]
      ensures forall fd :: fd in timer.Expiries() ==> fd in old(timer.Expiries())
    {
      now := Time();
      fired := [];
      ghost var start := timer.Expiries();
      while timer.heap != []
        invariant timer.Valid() && clock >= now
        invariant ScanInvariant(start, timer.Expiries(), fired, now)
        decreases |Expired(timer.Expiries(), now)|
      {
        var node := timer.heap[0];
        FrontIsEarliest(timer.heap, timer.index);
        if node.expire > now { break; }
        ghost var current := timer.Expiries();
        timer.DeleteAt(0);
        var isOpen: bool := *;   // workers use the connection meanwhile
        var readded, _, _, _ := OnExpire(node.sockfd, isOpen);
        FireStep(start, current, timer.Expiries(), fired, node.sockfd, now);
        FireShrinks(current, timer.Expiries(), node.sockfd, now);
        fired := fired + [node.sockfd];
      }
      FinishScan(start, timer.Expiries(), fired, now);
    }
  }
}
