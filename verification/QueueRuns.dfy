/** What the queue promises over whole runs: first in, first out; `nowait_deq` answers "empty" only
    with reason; a thread retries only because another one advanced; the semaphore's exact value. */
module QueueRuns {
  import opened Wrappers
  import opened QueueSteps
  import opened QueueInvariant

  /** A run: states joined by the steps of any threads in any order. */
  ghost predicate Run(run: seq<State>, es: seq<Event>) {
    && |run| == |es| + 1 && Init(run[0])
    && forall i {:trigger StepAt(run, es, i)} :: 0 <= i < |es| ==> StepAt(run, es, i)
  }

  ghost predicate StepAt(run: seq<State>, es: seq<Event>, i: nat)
    requires |run| == |es| + 1 && i < |es|
  {
    Next(run[i], es[i], run[i + 1])
  }

  lemma {:induction false} RunInv(run: seq<State>, es: seq<Event>, i: nat)
    requires Run(run, es) && i < |run|
    ensures Inv(run[i])
  {
    if i == 0 {
      InitInv(run[0]);
    } else {
      RunInv(run, es, i - 1);
      assert StepAt(run, es, i - 1);
      NextInv(run[i - 1], es[i - 1], run[i]);
    }
  }

  lemma ForwardAgain(m: Memory, m': Memory, m'': Memory)
    requires Forward(m, m') && Forward(m', m'')
    ensures Forward(m, m'')
  {
  }

  /** Pointers only move forward, over any stretch of a run. */
  lemma {:induction false} RunForward(run: seq<State>, es: seq<Event>, i: nat, j: nat)
    requires Run(run, es) && i <= j < |run|
    ensures Forward(run[i].m, run[j].m)
    decreases j - i
  {
    if i < j {
      RunForward(run, es, i, j - 1);
      RunInv(run, es, j - 1);
      assert StepAt(run, es, j - 1);
      NextInv(run[j - 1], es[j - 1], run[j]);
      ForwardAgain(run[i].m, run[j - 1].m, run[j].m);
    }
  }

  /** `head` never overtakes `tail`; `tail` is the last node linked or the one before it; each linked node
      points to the one linked next, and only the last one's `next` is NULL. */
  lemma PointersInOrder(run: seq<State>, es: seq<Event>, i: nat)
    requires Run(run, es) && i < |run|
    ensures var m := run[i].m;
      && |m.linked| == Length(m) && HeadPos(m) <= TailPos(m) < Length(m) <= TailPos(m) + 2
      && m.linked[HeadPos(m)] == m.head && m.linked[TailPos(m)] == m.tail
      && forall a <- m.order ::
           a in m.heap && m.order[a] < Length(m) && m.linked[m.order[a]] == a &&
           m.heap[a].next == if m.order[a] + 1 < Length(m) then Some(m.linked[m.order[a] + 1]) else None
  {
    RunInv(run, es, i);
    var m := run[i].m;
    assert ChainAt(m, m.head) && ChainAt(m, m.tail);
    forall a | a in m.order
      ensures a in m.heap && m.order[a] < Length(m) && m.linked[m.order[a]] == a
      ensures m.heap[a].next == if m.order[a] + 1 < Length(m) then Some(m.linked[m.order[a] + 1]) else None
    {
      assert ChainAt(m, a);
      if m.heap[a].next.Some? { assert ChainAt(m, m.heap[a].next.value); }
    }
  }

  // ---------- first in, first out ----------

  /** Following `next` from a linked node meets exactly the values enqueued after it. */
  lemma {:induction false} WalkIs(m: Memory, a: Addr, fuel: nat)
    requires Chain(m) && a in m.order && |m.enqueued| <= Pos(m, a) + fuel
    ensures Pos(m, a) <= |m.enqueued| && Walk(m.heap, a, fuel) == m.enqueued[Pos(m, a)..]
    decreases fuel
  {
    assert ChainAt(m, a);
    if fuel > 0 && m.heap[a].next.Some? {
      var n := m.heap[a].next.value;
      assert ChainAt(m, n);
      WalkIs(m, n, fuel - 1);
      assert m.enqueued[Pos(m, a)..] == [m.enqueued[Pos(m, a)]] + m.enqueued[Pos(m, n)..];
    }
  }

  lemma ContentsIs(m: Memory)
    requires MemInv(m)
    ensures Contents(m) == m.enqueued[HeadPos(m)..]
  {
    assert forall a <- m.order :: ChainAt(m, a);
    assert m.order.Keys <= m.heap.Keys;
    SmallerSet(m.order.Keys, m.heap.Keys);
    WalkIs(m, m.head, |m.heap|);
  }

  lemma {:induction false} SmallerSet(a: set<Addr>, b: set<Addr>)
    requires a <= b
    ensures |a| <= |b|
  {
    if a != {} {
      var x :| x in a;
      SmallerSet(a - {x}, b - {x});
    }
  }

  /** Nothing is lost, duplicated or reordered: what was dequeued, followed by what a walk from
      `head` finds, is what was enqueued. And no thread ever follows a NULL or wild pointer. */
  lemma FirstInFirstOut(run: seq<State>, es: seq<Event>, i: nat)
    requires Run(run, es) && i < |run|
    ensures run[i].m.dequeued + Contents(run[i].m) == run[i].m.enqueued
    ensures forall t <- run[i].pcs :: !run[i].pcs[t].Crashed?
  {
    RunInv(run, es, i);
    ContentsIs(run[i].m);
    forall t | t in run[i].pcs ensures !run[i].pcs[t].Crashed? { assert ThreadInv(run[i], t); }
  }

  lemma LinkAppends(m: Memory, pc: PC, b: nat)
    requires MemInv(m) && Locals(m, pc, b) && pc.EnqCasNext? && Act(m, pc).1.EnqCasTail?
    ensures pc.n in m.heap && Contents(Act(m, pc).0) == Contents(m) + [m.heap[pc.n].t]
  {
    EnqLinks(m, pc, b);
    var m' := Act(m, pc).0;
    ContentsIs(m);
    ContentsIs(m');
    assert m'.enqueued[HeadPos(m)..] == m.enqueued[HeadPos(m)..] + [m.heap[pc.n].t];
  }

  lemma TakeRemoves(m: Memory, pc: PC, b: nat)
    requires MemInv(m) && Locals(m, pc, b) && pc.DeqCasHead? && Act(m, pc).1.DeqDown?
    ensures Contents(m) == [pc.ans] + Contents(Act(m, pc).0)
  {
    DeqExchanges(m, pc, b);
    var m', h := Act(m, pc).0, HeadPos(m);
    ContentsIs(m);
    ContentsIs(m');
    assert ChainAt(m, pc.nxt);
    assert m.enqueued[h..] == [m.enqueued[h]] + m.enqueued[h + 1..];
  }

  lemma OthersInvisible(m: Memory, m': Memory)
    requires MemInv(m) && MemInv(m') && m'.enqueued == m.enqueued && m'.head == m.head
    requires Forward(m, m')
    ensures Contents(m') == Contents(m)
  {
    ContentsIs(m);
    ContentsIs(m');
  }

  /** The abstract queue's view of a step: some thread's link exchange adds its value at the back,
      some thread's head exchange takes the value it will return from the front, and no other step
      is visible. */
  lemma StepRefinesQueue(s: State, e: Event, s': State)
    requires Inv(s) && Next(s, e, s')
    ensures var pc, pc' := s.pcs[e.tid], s'.pcs[e.tid];
      if pc.EnqCasNext? && pc'.EnqCasTail? then
        pc.n in s.m.heap && Contents(s'.m) == Contents(s.m) + [s.m.heap[pc.n].t]
      else if pc.DeqCasHead? && pc'.DeqDown? then
        Contents(s.m) == [pc.ans] + Contents(s'.m)
      else Contents(s'.m) == Contents(s.m)
  {
    NextInv(s, e, s');
    assert ThreadInv(s, e.tid);
    var pc, pc' := s.pcs[e.tid], s'.pcs[e.tid];
    if pc.EnqCasNext? && pc'.EnqCasTail? {
      LinkAppends(s.m, pc, Began(s, e.tid));
    } else if pc.DeqCasHead? && pc'.DeqDown? {
      TakeRemoves(s.m, pc, Began(s, e.tid));
    } else {
      OthersInvisible(s.m, s'.m);
    }
  }

  // ---------- "empty" in hindsight ----------

  /** A `nowait_deq` that is about to answer false, or a `wait_deq` about to sleep. */
  predicate SawEmpty(s: State, t: Tid) {
    t in s.pcs && s.pcs[t].DeqCheckHead? && s.pcs[t].first == s.m.head
    && s.pcs[t].first == s.pcs[t].last && s.pcs[t].next.None?
  }

  lemma OnlyAfterLoad(s: State, e: Event, s': State, t: Tid)
    requires Next(s, e, s') && t in s'.pcs && s'.pcs[t].DeqCheckHead?
    ensures t in s.pcs
    ensures s'.pcs[t] != s.pcs[t] ==> e == Advance(t) && s.pcs[t].DeqReadNext?
  {
  }

  /** The step at which the thread loaded the `next` it is about to test. */
  lemma {:induction false} LastLoad(run: seq<State>, es: seq<Event>, t: Tid, k: nat) returns (j: nat)
    requires Run(run, es) && k < |run| && t in run[k].pcs && run[k].pcs[t].DeqCheckHead?
    ensures j < k && es[j] == Advance(t) && t in run[j].pcs && run[j].pcs[t].DeqReadNext?
    ensures forall i :: j < i <= k ==> t in run[i].pcs && run[i].pcs[t] == run[k].pcs[t]
    decreases k
  {
    assert StepAt(run, es, k - 1);
    OnlyAfterLoad(run[k - 1], es[k - 1], run[k], t);
    if run[k - 1].pcs[t] == run[k].pcs[t] {
      j := LastLoad(run, es, t, k - 1);
    } else {
      j := k - 1;
    }
  }

  /** Whenever "empty" is answered, the queue was empty at some moment of that very iteration: when
      the thread loaded `head->next`. It need not be empty any more. */
  lemma EmptyInHindsight(run: seq<State>, es: seq<Event>, t: Tid, k: nat)
    requires Run(run, es) && k < |run| && SawEmpty(run[k], t)
    ensures exists j :: 0 <= j < k && es[j] == Advance(t) && Contents(run[j].m) == []
              && t in run[j].pcs && run[j].pcs[t].DeqReadNext?
              && forall i :: j < i <= k ==> t in run[i].pcs && run[i].pcs[t] == run[k].pcs[t]
  {
    var j := LastLoad(run, es, t, k);
    RunInv(run, es, j);
    RunInv(run, es, k);
    RunForward(run, es, j, k);
    assert run[j + 1].pcs[t] == run[k].pcs[t];
    assert StepAt(run, es, j);
    assert ThreadInv(run[j], t);
    var m, at := run[j].m, run[j].pcs[t].at;
    assert ChainAt(m, at) && ChainAt(m, m.head);
    assert m.order[at] == m.order[m.head] == |m.enqueued|;
    ContentsIs(m);
  }

  // ---------- progress ----------

  /** Thread t begins a loop iteration with step i and, still in the same call, is back at the top of
      the loop in state j. (A `wait_deq` that slept does not count: it was not refused.) */
  ghost predicate Failed(run: seq<State>, es: seq<Event>, t: Tid, i: nat, j: nat) {
    && i < j < |run| && |es| + 1 == |run|
    && (forall k :: i <= k <= j ==> t in run[k].pcs)
    && es[i] == Advance(t) && AtTop(run[i].pcs[t])
    && (forall k :: i < k < j ==> !AtTop(run[k].pcs[t]))
    && es[j - 1] == Advance(t) && AtTop(run[j].pcs[t]) && !run[j - 1].pcs[t].SleepUp?
  }

  lemma {:induction false} BeganStays(run: seq<State>, es: seq<Event>, t: Tid, i: nat, k: nat)
    requires Run(run, es) && i < k < |run| && forall l :: i <= l <= k ==> t in run[l].pcs
    requires es[i] == Advance(t) && AtTop(run[i].pcs[t])
    requires forall l :: i < l < k ==> !AtTop(run[l].pcs[t])
    ensures Began(run[k], t) == Progress(run[i].m)
    decreases k
  {
    assert StepAt(run, es, k - 1);
    if i + 1 < k { BeganStays(run, es, t, i, k - 1); }
  }

  lemma EnqRetry(m: Memory, pc: PC, b: nat)
    requires MemInv(m) && Locals(m, pc, b) && Enqueuing(pc) && !AtTop(pc) && AtTop(Act(m, pc).1)
    ensures b < Progress(Act(m, pc).0)
  {
    if pc.EnqCasNext? { assert ChainAt(m, pc.last); }
  }

  lemma DeqRetry(m: Memory, pc: PC, b: nat)
    requires MemInv(m) && Locals(m, pc, b) && !Enqueuing(pc) && !AtTop(pc) && AtTop(Act(m, pc).1)
    requires !pc.SleepUp?
    ensures b < Progress(Act(m, pc).0)
  {
  }

  lemma RetryStep(m: Memory, pc: PC, b: nat)
    requires MemInv(m) && Locals(m, pc, b) && !AtTop(pc) && AtTop(Act(m, pc).1) && !pc.SleepUp?
    ensures b < Progress(Act(m, pc).0)
  {
    if Enqueuing(pc) { EnqRetry(m, pc, b); } else { DeqRetry(m, pc, b); }
  }

  lemma Refused(run: seq<State>, es: seq<Event>, t: Tid, k: nat)
    requires Run(run, es) && k < |es| && es[k] == Advance(t) && t in run[k].pcs && t in run[k + 1].pcs
    requires !AtTop(run[k].pcs[t]) && AtTop(run[k + 1].pcs[t]) && !run[k].pcs[t].SleepUp?
    ensures Began(run[k], t) < Progress(run[k + 1].m)
  {
    RunInv(run, es, k);
    assert StepAt(run, es, k) && ThreadInv(run[k], t);
    RetryStep(run[k].m, run[k].pcs[t], Began(run[k], t));
  }

  /** Every iteration of `enq`, `nowait_deq` or `wait_deq` that has to be repeated ends with `head`,
      `tail` or the end of the chain further on than it began. */
  lemma FailedMeansProgress(run: seq<State>, es: seq<Event>, t: Tid, i: nat, j: nat)
    requires Run(run, es) && Failed(run, es, t, i, j)
    ensures Progress(run[i].m) < Progress(run[j].m)
  {
    assert StepAt(run, es, i);
    assert i < j - 1;
    BeganStays(run, es, t, i, j - 1);
    Refused(run, es, t, j - 1);
  }

  /** Lock freedom: after two refusals, of one thread or of two, some operation has taken effect. */
  lemma TwoRefusalsOneSuccess(run: seq<State>, es: seq<Event>, t: Tid, u: Tid,
                              i: nat, j: nat, k: nat, l: nat)
    requires Run(run, es) && Failed(run, es, t, i, j) && j <= k && Failed(run, es, u, k, l)
    ensures |run[i].m.enqueued| + |run[i].m.dequeued| < |run[l].m.enqueued| + |run[l].m.dequeued|
  {
    FailedMeansProgress(run, es, t, i, j);
    FailedMeansProgress(run, es, u, k, l);
    RunForward(run, es, j, k);
    RunForward(run, es, i, l);
    RunInv(run, es, i);
    RunInv(run, es, l);
  }

  // ---------- the semaphore ----------

  /** The semaphore equals the length of the queue exactly when the debts cancel out. */
  lemma SemaphoreExact(run: seq<State>, es: seq<Event>, i: nat)
    requires Run(run, es) && i < |run|
    ensures var s := run[i];
      && s.m.sz as int == |Contents(s.m)| - |Owing(s.pcs, OwesUp)| + |Owing(s.pcs, OwesDown)|
                          - |Owing(s.pcs, Woken)|
      && (s.m.sz == |Contents(s.m)| <==>
          |Owing(s.pcs, OwesDown)| == |Owing(s.pcs, OwesUp)| + |Owing(s.pcs, Woken)|)
  {
    RunInv(run, es, i);
    ContentsIs(run[i].m);
  }

  /** No lost wake-up: a dequeuer stuck at `down` with its value in hand, or asleep although the
      queue is not empty, always coexists with a thread whose next semaphore operation is `up`. */
  lemma NoLostWakeup(run: seq<State>, es: seq<Event>, i: nat, t: Tid)
    requires Run(run, es) && i < |run| && t in run[i].pcs && Blocked(run[i].m, run[i].pcs[t])
    requires run[i].pcs[t].SleepDown? ==> Contents(run[i].m) != []
    ensures exists u :: u in run[i].pcs && DebtOf(run[i].pcs[u]) in {OwesUp, Woken}
  {
    SemaphoreExact(run, es, i);
    var pcs := run[i].pcs;
    if pcs[t].DeqDown? { assert t in Owing(pcs, OwesDown); }
    assert Owing(pcs, OwesUp) + Owing(pcs, Woken) != {};
    var u :| u in Owing(pcs, OwesUp) + Owing(pcs, Woken);
    assert u in pcs && DebtOf(pcs[u]) in {OwesUp, Woken};
  }

  /** A dequeuer past its head exchange sleeps at `down` exactly when the enqueuers that still owe an
      `up` and the sleepers just woken outnumber the values left as far as this. */
  lemma TakerSleepsIff(run: seq<State>, es: seq<Event>, i: nat, t: Tid)
    requires Run(run, es) && i < |run| && t in run[i].pcs && run[i].pcs[t].DeqDown?
    ensures var s := run[i];
      Blocked(s.m, s.pcs[t]) <==>
        |Owing(s.pcs, OwesUp)| + |Owing(s.pcs, Woken)| == |Contents(s.m)| + |Owing(s.pcs, OwesDown)|
  {
    SemaphoreExact(run, es, i);
  }

  ghost predicate RunTo(run: seq<State>, es: seq<Event>, m: Memory, pcs: map<Tid, PC>) {
    Run(run, es) && run[|run| - 1].m == m && run[|run| - 1].pcs == pcs
  }

  ghost predicate Reachable(m: Memory, pcs: map<Tid, PC>) {
    exists run, es :: RunTo(run, es, m, pcs)
  }

  lemma Reaches(m: Memory, pcs: map<Tid, PC>, t: Tid)
    requires Reachable(m, pcs) && t in pcs
    requires !pcs[t].Idle? && !pcs[t].Crashed? && !Blocked(m, pcs[t])
    ensures Reachable(Act(m, pcs[t]).0, pcs[t := Act(m, pcs[t]).1])
  {
    var run, es :| RunTo(run, es, m, pcs);
    var s' := Step(run[|run| - 1], t);
    var run', es' := run + [s'], es + [Advance(t)];
    forall i | 0 <= i < |es'| ensures StepAt(run', es', i) {
      if i < |es| { assert StepAt(run, es, i); }
    }
    assert RunTo(run', es', s'.m, s'.pcs);
  }

  /** The queue that holds 7 only. */
  function Seven(): Memory {
    Memory(map[0 := Node(0, Some(1)), 1 := Node(7, None)], 0, 1, 0,
           [0, 1], map[0 := 0, 1 := 1], [7], [])
  }

  function Pair(zero: PC, one: PC): map<Tid, PC> { map[0 := zero, 1 := one] }

  /** Thread 0 calls `enq` with 7, and thread 1 calls `nowait_deq`. */
  lemma BothCalled(m: Memory)
    requires m == Memory(map[0 := Node(0, None), 1 := Node(7, None)], 0, 0, 0, [0], map[0 := 0], [], [])
    ensures Reachable(m, Pair(EnqReadTail(1), DeqReadHead(false)))
  {
    var m0 := m.(heap := map[0 := Node(0, None)]);
    var run := [State(m0, Pair(Idle, Idle), map[]), State(m0, Pair(Idle, DeqReadHead(false)), map[]),
                State(m, Pair(EnqReadTail(1), DeqReadHead(false)), map[])];
    assert RunTo(run, [BeginDeq(1, false), BeginEnq(0, 7, 1)], m, run[2].pcs);
  }

  lemma PairSet(zero: PC, one: PC, zero': PC, one': PC)
    ensures Pair(zero, one)[0] == zero && Pair(zero, one)[1] == one
    ensures Pair(zero, one)[0 := zero'] == Pair(zero', one) && Pair(zero, one)[1 := one'] == Pair(zero, one')
  {
  }

  lemma Reaches0(m: Memory, zero: PC, one: PC, m': Memory, zero': PC)
    requires Reachable(m, Pair(zero, one)) && Enqueuing(zero) && Act(m, zero) == (m', zero')
    ensures Reachable(m', Pair(zero', one))
  {
    PairSet(zero, one, zero', one);
    Reaches(m, Pair(zero, one), 0);
  }

  lemma Reaches1(m: Memory, zero: PC, one: PC, m': Memory, one': PC)
    requires Reachable(m, Pair(zero, one)) && !Enqueuing(one) && Act(m, one) == (m', one')
    requires !one.Idle? && !one.Crashed? && !Blocked(m, one)
    ensures Reachable(m', Pair(zero, one'))
  {
    PairSet(zero, one, zero, one');
    Reaches(m, Pair(zero, one), 1);
  }

  lemma LinkSeven(m: Memory)
    requires m == Memory(map[0 := Node(0, None), 1 := Node(7, None)], 0, 0, 0, [0], map[0 := 0], [], [])
    ensures Link(m, 0, 1) == Seven().(tail := 0)
  {
    assert m.linked + [1] == [0, 1] && m.enqueued + [7] == [7];
  }

  /** Thread 0 links 7 and stops before `up`. */
  lemma LinkedNotUp()
    ensures Reachable(Seven(), Pair(EnqUp, DeqReadHead(false)))
  {
    var m := Memory(map[0 := Node(0, None), 1 := Node(7, None)], 0, 0, 0, [0], map[0 := 0], [], []);
    var one := DeqReadHead(false);
    BothCalled(m);
    Reaches0(m, EnqReadTail(1), one, m, EnqReadNext(1, 0));
    Reaches0(m, EnqReadNext(1, 0), one, m, EnqCheckTail(1, 0, None));
    Reaches0(m, EnqCheckTail(1, 0, None), one, m, EnqCasNext(1, 0));
    var m' := Seven().(tail := 0);
    LinkSeven(m);
    Reaches0(m, EnqCasNext(1, 0), one, m', EnqCasTail(1, 0));
    Reaches0(m', EnqCasTail(1, 0), one, Seven(), EnqUp);
  }

  /** Thread 1 then runs to its test of `head`. */
  lemma TakerReady()
    ensures Reachable(Seven(), Pair(EnqUp, DeqCheckHead(false, 0, 1, Some(1))))
  {
    LinkedNotUp();
    var m := Seven();
    Reaches1(m, EnqUp, DeqReadHead(false), m, DeqReadTail(false, 0));
    Reaches1(m, EnqUp, DeqReadTail(false, 0), m, DeqReloadHead(false, 0, 1));
    Reaches1(m, EnqUp, DeqReloadHead(false, 0, 1), m, DeqReadNext(false, 0, 1, 0));
    Reaches1(m, EnqUp, DeqReadNext(false, 0, 1, 0), m, DeqCheckHead(false, 0, 1, Some(1)));
  }

  /** It can happen, although the comment at src/LockFreeQueue.hpp:107-108 expects otherwise: thread 1
      takes the 7 while thread 0 still stands before `up`, and sleeps. */
  lemma TakerMaySleep()
    ensures exists m :: Reachable(m, Pair(EnqUp, DeqDown(7))) && Blocked(m, DeqDown(7))
  {
    TakerReady();
    var m := Seven();
    Reaches1(m, EnqUp, DeqCheckHead(false, 0, 1, Some(1)), m, DeqReadValue(false, 0, Some(1)));
    Reaches1(m, EnqUp, DeqReadValue(false, 0, Some(1)), m, DeqCasHead(false, 0, 1, 7));
    var m' := m.(head := 1, dequeued := [7]);
    assert m.dequeued + [7] == [7];
    Reaches1(m, EnqUp, DeqCasHead(false, 0, 1, 7), m', DeqDown(7));
    assert Blocked(m', DeqDown(7));
  }
}
