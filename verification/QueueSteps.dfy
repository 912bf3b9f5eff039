/** The lock-free queue (src/LockFreeQueue.hpp) as a step machine.

    Any number of threads run `enq`, `nowait_deq` and `wait_deq` at the same time. One step is one
    access to shared memory: a load, a compare-and-swap, or one semaphore operation. Memory is
    sequentially consistent and a node's address is never used again, so `delete` has no step. */
module QueueSteps {
  import opened Wrappers

  type Addr = nat
  type Tid = nat
  type Value = int

  datatype Node = Node(t: Value, next: Option<Addr>)

  /** The first four fields are the queue; the others are history that decides no step: the nodes in
      linking order, each one's place in that order, and the values in the order of the successful
      link exchanges and of the successful `head` exchanges. */
  datatype Memory = Memory(
    heap: map<Addr, Node>, head: Addr, tail: Addr, sz: nat,
    linked: seq<Addr>, order: map<Addr, nat>, enqueued: seq<Value>, dequeued: seq<Value>)

  /** Where a thread is, with the values of its local variables. */
  datatype PC =
    | Idle
    // enq: n is the new node
    | EnqReadTail(n: Addr)
    | EnqReadNext(n: Addr, last: Addr)
    | EnqCheckTail(n: Addr, last: Addr, next: Option<Addr>)
    | EnqCasNext(n: Addr, last: Addr)
    | EnqSwingTail(n: Addr, last: Addr, nxt: Addr)
    | EnqCasTail(n: Addr, last: Addr)
    | EnqUp
    // nowait_deq (wait == false) and wait_deq (wait == true)
    | DeqReadHead(wait: bool)
    | DeqReadTail(wait: bool, first: Addr)
    | DeqReloadHead(wait: bool, first: Addr, last: Addr)
    | DeqReadNext(wait: bool, first: Addr, last: Addr, at: Addr)
    | DeqCheckHead(wait: bool, first: Addr, last: Addr, next: Option<Addr>)
    | DeqSwingTail(wait: bool, last: Addr, nxt: Addr)
    | DeqReadValue(wait: bool, first: Addr, next: Option<Addr>)
    | DeqCasHead(wait: bool, first: Addr, nxt: Addr, ans: Value)
    | DeqDown(ans: Value)
    | SleepDown
    | SleepUp
    // a NULL or wild pointer was dereferenced
    | Crashed

  /** `began` is history too: each thread's `Progress` when its current loop iteration began. */
  datatype State = State(m: Memory, pcs: map<Tid, PC>, began: map<Tid, nat>)

  datatype Event =
    | BeginEnq(tid: Tid, v: Value, n: Addr)
    | BeginDeq(tid: Tid, wait: bool)
    | Advance(tid: Tid)

  // ---------- the program ----------

  predicate Enqueuing(pc: PC) {
    pc.EnqReadTail? || pc.EnqReadNext? || pc.EnqCheckTail? || pc.EnqCasNext? || pc.EnqSwingTail?
    || pc.EnqCasTail? || pc.EnqUp?
  }

  function Swing(m: Memory, from: Addr, to: Addr): Memory {
    if m.tail == from then m.(tail := to) else m
  }

  /** `next` is NULL at `last`, so the new node `n` goes there. */
  function Link(m: Memory, last: Addr, n: Addr): Memory
    requires last in m.heap && n in m.heap
  {
    m.(heap := m.heap[last := m.heap[last].(next := Some(n))],
       linked := m.linked + [n], order := m.order[n := Length(m)], enqueued := m.enqueued + [m.heap[n].t])
  }

  function ActEnq(m: Memory, pc: PC): (Memory, PC)
    requires Enqueuing(pc)
  {
    match pc
    case EnqReadTail(n) => (m, EnqReadNext(n, m.tail))
    case EnqReadNext(n, last) =>
      (m, if last in m.heap then EnqCheckTail(n, last, m.heap[last].next) else Crashed)
    case EnqCheckTail(n, last, next) =>
      (m, if m.tail != last then EnqReadTail(n)
          else if next.None? then EnqCasNext(n, last)
          else EnqSwingTail(n, last, next.value))
    case EnqCasNext(n, last) =>
      if last !in m.heap || n !in m.heap then (m, Crashed)
      else if m.heap[last].next.None? then (Link(m, last, n), EnqCasTail(n, last))
      else (m, EnqReadTail(n))
    case EnqSwingTail(n, last, nxt) => (Swing(m, last, nxt), EnqReadTail(n))
    case EnqCasTail(n, last) => (Swing(m, last, n), EnqUp)
    case EnqUp => (m.(sz := m.sz + 1), Idle)
  }

  function ActDeq(m: Memory, pc: PC): (Memory, PC)
    requires !Enqueuing(pc)
  {
    match pc
    case DeqReadHead(w) => (m, DeqReadTail(w, m.head))
    case DeqReadTail(w, first) => (m, DeqReloadHead(w, first, m.tail))
    case DeqReloadHead(w, first, last) => (m, DeqReadNext(w, first, last, m.head))
    case DeqReadNext(w, first, last, at) =>
      (m, if at in m.heap then DeqCheckHead(w, first, last, m.heap[at].next) else Crashed)
    case DeqCheckHead(w, first, last, next) =>
      (m, if first != m.head then DeqReadHead(w)
          else if first != last then DeqReadValue(w, first, next)
          else if next.Some? then DeqSwingTail(w, last, next.value)
          else if w then SleepDown
          else Idle)
    case DeqSwingTail(w, last, nxt) => (Swing(m, last, nxt), DeqReadHead(w))
    case DeqReadValue(w, first, next) =>
      (m, if next.Some? && next.value in m.heap
          then DeqCasHead(w, first, next.value, m.heap[next.value].t) else Crashed)
    case DeqCasHead(w, first, nxt, ans) =>
      if m.head == first
      then (m.(head := nxt, dequeued := m.dequeued + [ans]), DeqDown(ans))
      else (m, DeqReadHead(w))
    case DeqDown(ans) => if m.sz > 0 then (m.(sz := m.sz - 1), Idle) else (m, pc)
    case SleepDown => if m.sz > 0 then (m.(sz := m.sz - 1), SleepUp) else (m, pc)
    case SleepUp => (m.(sz := m.sz + 1), DeqReadHead(true))
    case _ => (m, pc)
  }

  function Act(m: Memory, pc: PC): (Memory, PC) {
    if Enqueuing(pc) then ActEnq(m, pc) else ActDeq(m, pc)
  }

  /** A semaphore's `down` waits while the counter is zero. */
  predicate Blocked(m: Memory, pc: PC) {
    (pc.DeqDown? || pc.SleepDown?) && m.sz == 0
  }

  /** The places where `while (true)` starts a new iteration. */
  predicate AtTop(pc: PC) { pc.EnqReadTail? || pc.DeqReadHead? }

  ghost function Step(s: State, t: Tid): State
    requires t in s.pcs
  {
    var (m, pc) := Act(s.m, s.pcs[t]);
    State(m, s.pcs[t := pc],
          if AtTop(s.pcs[t]) then s.began[t := Progress(s.m)] else s.began)
  }

  ghost predicate Next(s: State, e: Event, s': State) {
    e.tid in s.pcs &&
    match e
    case BeginEnq(t, v, n) =>
      s.pcs[t].Idle? && n !in s.m.heap
      && s' == s.(m := s.m.(heap := s.m.heap[n := Node(v, None)]), pcs := s.pcs[t := EnqReadTail(n)])
    case BeginDeq(t, wait) =>
      s.pcs[t].Idle? && s' == s.(pcs := s.pcs[t := DeqReadHead(wait)])
    case Advance(t) =>
      !s.pcs[t].Idle? && !s.pcs[t].Crashed? && !Blocked(s.m, s.pcs[t]) && s' == Step(s, t)
  }

  ghost predicate Init(s: State) {
    && s.m.heap.Keys == {s.m.head} && s.m.heap[s.m.head].next.None? && s.m.tail == s.m.head
    && s.m.sz == 0 && s.m.linked == [s.m.head] && s.m.order == map[s.m.head := 0]
    && s.m.enqueued == s.m.dequeued == []
    && (forall t <- s.pcs :: s.pcs[t].Idle?)
  }

  // ---------- positions in the linking order ----------

  /** The number of nodes ever linked, with the first dummy node. */
  function Length(m: Memory): nat { |m.enqueued| + 1 }

  function Pos(m: Memory, a: Addr): nat {
    if a in m.order then m.order[a] else 0
  }

  function HeadPos(m: Memory): nat { Pos(m, m.head) }

  function TailPos(m: Memory): nat { Pos(m, m.tail) }

  /** Grows whenever `head`, `tail` or some `next` moves. */
  function Progress(m: Memory): nat { HeadPos(m) + TailPos(m) + Length(m) }

  /** The values met when following `next` from node `a`. */
  ghost function Walk(heap: map<Addr, Node>, a: Addr, fuel: nat): seq<Value>
    decreases fuel
  {
    if fuel == 0 || a !in heap || heap[a].next.None? then []
    else
      var n := heap[a].next.value;
      (if n in heap then [heap[n].t] else []) + Walk(heap, n, fuel - 1)
  }

  /** The queue's contents, read off the heap. No walk visits more nodes than the heap has. */
  ghost function Contents(m: Memory): seq<Value> { Walk(m.heap, m.head, |m.heap|) }

  // ---------- invariant ----------

  /** The linked nodes form one chain in linking order, which ends at the last node linked, and hold
      the values enqueued. */
  ghost predicate Chain(m: Memory) {
    && |m.linked| == |m.order| == Length(m)
    && (forall a {:trigger ChainAt(m, a)} :: a in m.order ==> ChainAt(m, a))
  }

  ghost predicate ChainAt(m: Memory, a: Addr)
    requires a in m.order
  {
    && a in m.heap && m.order[a] < |m.linked| == Length(m) && m.linked[m.order[a]] == a
    && (m.heap[a].next.None? <==> m.order[a] == |m.enqueued|)
    && (m.heap[a].next.Some? ==> AfterIn(m, a, m.heap[a].next.value))
    && (m.order[a] > 0 ==> m.heap[a].t == m.enqueued[m.order[a] - 1])
  }

  ghost predicate AfterIn(m: Memory, a: Addr, b: Addr) {
    a in m.order && b in m.order && m.order[b] == m.order[a] + 1
  }

  /** `head` never overtakes `tail`, and `tail` is the last node linked or the one before it. */
  ghost predicate Ends(m: Memory) {
    && m.head in m.order && m.tail in m.order && HeadPos(m) <= TailPos(m)
    && TailPos(m) < Length(m) <= TailPos(m) + 2
  }

  ghost predicate Fifo(m: Memory) {
    HeadPos(m) <= |m.enqueued| && m.dequeued == m.enqueued[..HeadPos(m)]
  }

  ghost predicate MemInv(m: Memory) { Chain(m) && Ends(m) && Fifo(m) }

  /** The node a thread has made but not linked. */
  function Unlinked(pc: PC): Option<Addr> {
    if Enqueuing(pc) && !pc.EnqCasTail? && !pc.EnqUp? then Some(pc.n) else None
  }

  ghost predicate Private(m: Memory, n: Addr) {
    n in m.heap && n !in m.order && m.heap[n].next.None?
  }

  /** What a thread's local variables say about the shared memory, when its iteration began at
      progress `b`. */
  ghost predicate Locals(m: Memory, pc: PC, b: nat) {
    (Unlinked(pc).Some? ==> Private(m, Unlinked(pc).value)) &&
    match pc
    case EnqReadNext(n, last) => ReadTail(m, b, last)
    case EnqCheckTail(n, last, next) =>
      && ReadTail(m, b, last)
      && (next.Some? ==> AfterIn(m, last, next.value))
      && (next.None? && Pos(m, last) < |m.enqueued| ==> b < Progress(m))
    case EnqCasNext(n, last) =>
      ReadTail(m, b, last) && (Pos(m, last) < |m.enqueued| ==> b < Progress(m))
    case EnqSwingTail(n, last, nxt) => ReadTail(m, b, last) && AfterIn(m, last, nxt)
    case EnqCasTail(n, last) => AfterIn(m, last, n)
    case DeqReadTail(w, first) => ReadHead(m, b, first)
    case DeqReloadHead(w, first, last) => ReadBoth(m, b, first, last)
    case DeqReadNext(w, first, last, at) =>
      ReadBoth(m, b, first, last) && at in m.order && Pos(m, first) <= Pos(m, at) <= HeadPos(m)
    case DeqCheckHead(w, first, last, next) =>
      && ReadBoth(m, b, first, last)
      && (next.Some? ==> next.value in m.order && Pos(m, first) < Pos(m, next.value) <= HeadPos(m) + 1)
      && (next.None? && first != last ==> Pos(m, first) < HeadPos(m))
    case DeqSwingTail(w, last, nxt) => ReadTail(m, b, last) && AfterIn(m, last, nxt)
    case DeqReadValue(w, first, next) => next.Some? && ReadyToTake(m, b, first, next.value)
    case DeqCasHead(w, first, nxt, ans) =>
      ReadyToTake(m, b, first, nxt) && nxt in m.heap && m.heap[nxt].t == ans
    case Crashed => false
    case _ => true
  }

  /** `last` was `tail` in this iteration. */
  ghost predicate ReadTail(m: Memory, b: nat, last: Addr) {
    b <= Progress(m) && last in m.order && Pos(m, last) <= TailPos(m)
    && (m.tail != last ==> b < Progress(m))
  }

  /** `first` was `head` in this iteration. */
  ghost predicate ReadHead(m: Memory, b: nat, first: Addr) {
    b <= Progress(m) && first in m.order && Pos(m, first) <= HeadPos(m)
    && (m.head != first ==> b < Progress(m))
  }

  ghost predicate ReadBoth(m: Memory, b: nat, first: Addr, last: Addr) {
    ReadHead(m, b, first) && ReadTail(m, b, last) && Pos(m, first) <= Pos(m, last)
  }

  ghost predicate ReadyToTake(m: Memory, b: nat, first: Addr, nxt: Addr) {
    ReadHead(m, b, first) && AfterIn(m, first, nxt) && Pos(m, nxt) <= TailPos(m)
  }

  /** What a thread owes the semaphore. */
  datatype Debt = OwesUp | OwesDown | Woken | Nothing

  function DebtOf(pc: PC): Debt {
    match pc
    case EnqCasTail(_, _) => OwesUp
    case EnqUp => OwesUp
    case DeqDown(_) => OwesDown
    case SleepUp => Woken
    case _ => Nothing
  }

  ghost function Owing(pcs: map<Tid, PC>, d: Debt): set<Tid> {
    set t | t in pcs && DebtOf(pcs[t]) == d
  }

  /** The semaphore follows the length of the queue, late by the debts outstanding. */
  ghost predicate Accounts(s: State) {
    s.m.sz as int == |s.m.enqueued| - HeadPos(s.m)
                     - |Owing(s.pcs, OwesUp)| + |Owing(s.pcs, OwesDown)| - |Owing(s.pcs, Woken)|
  }

  ghost function Began(s: State, t: Tid): nat {
    if t in s.began then s.began[t] else 0
  }

  ghost predicate ThreadInv(s: State, t: Tid)
    requires t in s.pcs
  {
    Locals(s.m, s.pcs[t], Began(s, t))
  }

  /** Two threads never hold the same unlinked node. */
  ghost predicate Apart(s: State) {
    forall t <- s.pcs, u <- s.pcs ::
      t != u && Unlinked(s.pcs[t]).Some? ==> Unlinked(s.pcs[t]) != Unlinked(s.pcs[u])
  }

  ghost predicate Inv(s: State) {
    && MemInv(s.m) && Apart(s) && Accounts(s)
    && (forall t {:trigger ThreadInv(s, t)} :: t in s.pcs ==> ThreadInv(s, t))
  }
}
