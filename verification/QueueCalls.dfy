/** What each call on the lock-free queue has done when it returns (src/LockFreeQueue.hpp), whatever other
    threads do meanwhile; and how a call ends when its thread runs alone. */
module QueueCalls {
  import opened Wrappers
  import opened QueueSteps
  import opened QueueInvariant
  import opened QueueRuns

  /** `enq(v)` with the new node n, `nowait_deq` and `wait_deq`. */
  datatype Op = Enq(v: Value, n: Addr) | NowaitDeq | WaitDeq

  predicate Begins(e: Event, t: Tid, op: Op) {
    match op
    case Enq(v, n) => e == BeginEnq(t, v, n)
    case NowaitDeq => e == BeginDeq(t, false)
    case WaitDeq => e == BeginDeq(t, true)
  }

  /** From step b on, with which it began, and still in state k thread t is in one call of op. */
  ghost predicate InCall(run: seq<State>, es: seq<Event>, t: Tid, op: Op, b: nat, k: nat) {
    && Run(run, es) && b < k < |run| && Begins(es[b], t, op)
    && forall i {:trigger Busy(run, t, i)} :: b < i <= k ==> Busy(run, t, i)
  }

  ghost predicate Busy(run: seq<State>, t: Tid, i: nat)
    requires i < |run|
  {
    t in run[i].pcs && !run[i].pcs[t].Idle?
  }

  /** The call returns with step k. */
  ghost predicate Returns(run: seq<State>, es: seq<Event>, t: Tid, op: Op, b: nat, k: nat) {
    && InCall(run, es, t, op, b, k) && k < |es| && es[k] == Advance(t)
    && t in run[k + 1].pcs && run[k + 1].pcs[t].Idle?
  }

  /** If step i is t's own, nobody can see it in the queue's contents. */
  ghost predicate Unseen(run: seq<State>, es: seq<Event>, t: Tid, i: nat)
    requires i < |es| && |run| == |es| + 1
  {
    es[i] == Advance(t) ==> Contents(run[i + 1].m) == Contents(run[i].m)
  }

  ghost predicate Quiet(run: seq<State>, es: seq<Event>, t: Tid, b: nat, k: nat) {
    |run| == |es| + 1 && k < |run| && forall i {:trigger Unseen(run, es, t, i)} :: b < i < k ==> Unseen(run, es, t, i)
  }

  /** Between b and k thread t makes exactly one visible step, j: it adds v at the back. */
  ghost predicate AddsOnce(run: seq<State>, es: seq<Event>, t: Tid, b: nat, k: nat, j: nat, v: Value) {
    && b < j < k < |run| && Quiet(run, es, t, b, j) && Quiet(run, es, t, j, k)
    && es[j] == Advance(t) && Contents(run[j + 1].m) == Contents(run[j].m) + [v]
  }

  /** Exactly one: it takes v from the front. */
  ghost predicate TakesOnce(run: seq<State>, es: seq<Event>, t: Tid, b: nat, k: nat, j: nat, v: Value) {
    && b < j < k < |run| && Quiet(run, es, t, b, j) && Quiet(run, es, t, j, k)
    && es[j] == Advance(t) && Contents(run[j].m) == [v] + Contents(run[j + 1].m)
  }

  // ---------- one step further in a call ----------

  predicate Looking(pc: PC) {
    || pc.DeqReadHead? || pc.DeqReadTail? || pc.DeqReloadHead? || pc.DeqReadNext?
    || pc.DeqCheckHead? || pc.DeqSwingTail? || pc.DeqReadValue? || pc.DeqCasHead?
  }

  /** The thread's place in a call of op, as far as it can be told from there. */
  ghost predicate Fits(m: Memory, pc: PC, op: Op) {
    match op
    case Enq(v, n) =>
      && Enqueuing(pc) && n in m.heap && m.heap[n].t == v
      && (Unlinked(pc).Some? ==> Unlinked(pc).value == n)
      && (pc.EnqCasTail? ==> pc.n == n)
      && (pc.EnqUp? ==> n in m.order && Pos(m, n) <= TailPos(m))
    case _ =>
      && !Enqueuing(pc) && !pc.Crashed?
      && (Looking(pc) ==> pc.wait == op.WaitDeq?)
      && (pc.SleepDown? || pc.SleepUp? ==> op.WaitDeq?)
  }

  /** The thread is past the step that takes effect. */
  predicate Past(pc: PC) { pc.EnqCasTail? || pc.EnqUp? || pc.DeqDown? }

  lemma FitsKept(m: Memory, m': Memory, pc: PC, op: Op)
    requires Fits(m, pc, op) && Forward(m, m')
    ensures Fits(m', pc, op)
  {
  }

  lemma FitsAfter(m: Memory, pc: PC, op: Op, b: nat)
    requires MemInv(m) && Locals(m, pc, b) && Fits(m, pc, op) && GoodAct(m, pc, b)
    requires !Act(m, pc).1.Idle?
    ensures Fits(Act(m, pc).0, Act(m, pc).1, op)
  {
    if op.Enq? { EnqFits(m, pc, op, b); } else { DeqFits(m, pc, op, b); }
  }

  lemma EnqFits(m: Memory, pc: PC, op: Op, b: nat)
    requires MemInv(m) && Locals(m, pc, b) && Fits(m, pc, op) && GoodAct(m, pc, b) && op.Enq?
    requires !Act(m, pc).1.Idle?
    ensures Fits(Act(m, pc).0, Act(m, pc).1, op)
  {
    if pc.EnqCasTail? { assert ChainAt(m, pc.last) && ChainAt(m, m.tail) && ChainAt(m, pc.n); }
  }

  lemma DeqFits(m: Memory, pc: PC, op: Op, b: nat)
    requires MemInv(m) && Locals(m, pc, b) && Fits(m, pc, op) && GoodAct(m, pc, b) && !op.Enq?
    requires !Act(m, pc).1.Idle?
    ensures Fits(Act(m, pc).0, Act(m, pc).1, op)
  {
  }

  lemma {:induction false} CallFits(run: seq<State>, es: seq<Event>, t: Tid, op: Op, b: nat, k: nat)
    requires InCall(run, es, t, op, b, k)
    ensures Busy(run, t, k) && Fits(run[k].m, run[k].pcs[t], op)
    decreases k
  {
    assert StepAt(run, es, k - 1) && Busy(run, t, k);
    if k > b + 1 {
      assert Busy(run, t, k - 1);
      CallFits(run, es, t, op, b, k - 1);
      RunInv(run, es, k - 1);
      NextFits(run[k - 1], es[k - 1], run[k], t, op);
    }
  }

  lemma NextFits(s: State, e: Event, s': State, t: Tid, op: Op)
    requires Inv(s) && Next(s, e, s') && t in s.pcs && !s.pcs[t].Idle? && Fits(s.m, s.pcs[t], op)
    requires !s'.pcs[t].Idle?
    ensures Fits(s'.m, s'.pcs[t], op)
  {
    NextInv(s, e, s');
    if e.tid == t {
      assert ThreadInv(s, t);
      EveryAct(s.m, s.pcs[t], Began(s, t));
      FitsAfter(s.m, s.pcs[t], op, Began(s, t));
    } else {
      FitsKept(s.m, s'.m, s.pcs[t], op);
    }
  }

  /** What a step of t in a call does to the contents. */
  lemma OwnStep(s: State, e: Event, s': State, t: Tid, op: Op)
    requires Inv(s) && Next(s, e, s') && e == Advance(t) && t in s.pcs && Fits(s.m, s.pcs[t], op)
    ensures !Past(s.pcs[t]) && Past(s'.pcs[t]) ==> Effect(s, s', s'.pcs[t], op)
    ensures Past(s.pcs[t]) || !Past(s'.pcs[t]) ==> Contents(s'.m) == Contents(s.m)
    ensures Past(s.pcs[t]) && !s'.pcs[t].Idle? ==> Past(s'.pcs[t]) && (s'.pcs[t].DeqDown? ==> s'.pcs[t] == s.pcs[t])
  {
    StepRefinesQueue(s, e, s');
  }

  /** The step that takes effect. */
  ghost predicate Effect(s: State, s': State, pc': PC, op: Op) {
    match op
    case Enq(v, _) => Contents(s'.m) == Contents(s.m) + [v]
    case _ => pc'.DeqDown? && Contents(s.m) == [pc'.ans] + Contents(s'.m)
  }

  // ---------- the effect of a call so far ----------

  /** Before its step that takes effect a call has done nothing visible; after it, exactly that. */
  ghost predicate DoneSoFar(run: seq<State>, es: seq<Event>, t: Tid, op: Op, b: nat, k: nat, j: nat)
    requires k < |run| && t in run[k].pcs
  {
    var pc := run[k].pcs[t];
    if !Past(pc) then Quiet(run, es, t, b, k)
    else match op
      case Enq(v, _) => AddsOnce(run, es, t, b, k, j, v)
      case _ => pc.DeqDown? && TakesOnce(run, es, t, b, k, j, pc.ans)
  }

  lemma QuietMore(run: seq<State>, es: seq<Event>, t: Tid, b: nat, k: nat)
    requires Quiet(run, es, t, b, k) && k < |es| && Unseen(run, es, t, k)
    ensures Quiet(run, es, t, b, k + 1)
  {
  }

  lemma {:induction false} EffectSoFar(run: seq<State>, es: seq<Event>, t: Tid, op: Op, b: nat, k: nat) returns (j: nat)
    requires InCall(run, es, t, op, b, k)
    ensures Busy(run, t, k) && DoneSoFar(run, es, t, op, b, k, j)
    decreases k
  {
    assert Busy(run, t, k);
    j := 0;
    if k > b + 1 {
      assert Busy(run, t, k - 1);
      j := EffectSoFar(run, es, t, op, b, k - 1);
      j := EffectNext(run, es, t, op, b, k - 1, j);
    } else {
      assert StepAt(run, es, b);
    }
  }

  lemma EffectNext(run: seq<State>, es: seq<Event>, t: Tid, op: Op, b: nat, k: nat, j: nat) returns (j': nat)
    requires InCall(run, es, t, op, b, k) && k < |es| && Busy(run, t, k) && Busy(run, t, k + 1)
    requires DoneSoFar(run, es, t, op, b, k, j)
    ensures DoneSoFar(run, es, t, op, b, k + 1, j')
  {
    assert StepAt(run, es, k);
    RunInv(run, es, k);
    CallFits(run, es, t, op, b, k);
    j' := j;
    if es[k] == Advance(t) {
      OwnStep(run[k], es[k], run[k + 1], t, op);
      if !Past(run[k].pcs[t]) && Past(run[k + 1].pcs[t]) {
        j' := k;
      } else {
        QuietOn(run, es, t, op, b, k, j);
      }
    } else {
      QuietOn(run, es, t, op, b, k, j);
    }
  }

  lemma QuietOn(run: seq<State>, es: seq<Event>, t: Tid, op: Op, b: nat, k: nat, j: nat)
    requires InCall(run, es, t, op, b, k) && k < |es| && Busy(run, t, k) && Busy(run, t, k + 1)
    requires DoneSoFar(run, es, t, op, b, k, j) && Unseen(run, es, t, k)
    requires Past(run[k].pcs[t]) == Past(run[k + 1].pcs[t])
    requires run[k + 1].pcs[t].DeqDown? ==> run[k + 1].pcs[t] == run[k].pcs[t]
    requires Past(run[k].pcs[t]) && !op.Enq? ==> run[k + 1].pcs[t].DeqDown?
    ensures DoneSoFar(run, es, t, op, b, k + 1, j)
  {
    QuietMore(run, es, t, if Past(run[k].pcs[t]) then j else b, k);
  }

  // ---------- returns ----------

  /** `enq` returns only after its own link exchange in that call: exactly once its value was added, at the
      back, and `tail` has reached its node. */
  lemma EnqReturns(run: seq<State>, es: seq<Event>, t: Tid, v: Value, n: Addr, b: nat, k: nat)
    requires Returns(run, es, t, Enq(v, n), b, k)
    ensures exists j :: AddsOnce(run, es, t, b, k, j, v)
    ensures n in run[k + 1].m.order && Pos(run[k + 1].m, n) <= TailPos(run[k + 1].m)
    ensures run[k + 1].m.sz == run[k].m.sz + 1 && Unseen(run, es, t, k)
  {
    var op := Enq(v, n);
    var j := EffectSoFar(run, es, t, op, b, k);
    CallFits(run, es, t, op, b, k);
    assert StepAt(run, es, k);
    RunInv(run, es, k);
    OwnStep(run[k], es[k], run[k + 1], t, op);
    NextInv(run[k], es[k], run[k + 1]);
  }

  /** The load, in the iteration that ends in state k, that found the queue empty. */
  ghost predicate FoundEmpty(run: seq<State>, es: seq<Event>, t: Tid, b: nat, k: nat, j: nat) {
    && b < j < k < |run| && |run| == |es| + 1 && es[j] == Advance(t) && Contents(run[j].m) == []
    && t in run[j].pcs && run[j].pcs[t].DeqReadNext? && t in run[k].pcs
    && forall i :: j < i <= k ==> t in run[i].pcs && run[i].pcs[t] == run[k].pcs[t]
  }

  lemma BeganLater(run: seq<State>, es: seq<Event>, t: Tid, op: Op, b: nat, k: nat, j: nat)
    requires InCall(run, es, t, op, b, k) && t in run[k].pcs && run[k].pcs[t].DeqCheckHead?
    requires forall i :: j < i <= k ==> t in run[i].pcs && run[i].pcs[t] == run[k].pcs[t]
    ensures b <= j
  {
    assert StepAt(run, es, b);
    assert run[b].pcs[t].Idle?;
  }

  lemma CheckedEmpty(run: seq<State>, es: seq<Event>, t: Tid, op: Op, b: nat, k: nat)
    requires InCall(run, es, t, op, b, k) && SawEmpty(run[k], t) && !op.Enq?
    ensures exists j :: FoundEmpty(run, es, t, b, k, j)
  {
    EmptyInHindsight(run, es, t, k);
    var j :| 0 <= j < k && es[j] == Advance(t) && Contents(run[j].m) == []
          && t in run[j].pcs && run[j].pcs[t].DeqReadNext?
          && forall i :: j < i <= k ==> t in run[i].pcs && run[i].pcs[t] == run[k].pcs[t];
    assert StepAt(run, es, b);
    assert run[b + 1].pcs[t].DeqReadHead?;
    assert j >= b by { BeganLater(run, es, t, op, b, k, j); }
    assert FoundEmpty(run, es, t, b, k, j);
  }

  /** `nowait_deq` returns in two ways only: with the value its own `head` exchange took in this call, exactly
      once; or with "no", having done nothing visible, and then the queue was empty at a load made in the
      same iteration. */
  lemma NowaitDeqReturns(run: seq<State>, es: seq<Event>, t: Tid, b: nat, k: nat)
    requires Returns(run, es, t, NowaitDeq, b, k)
    ensures Busy(run, t, k) && Unseen(run, es, t, k)
    ensures
      if run[k].pcs[t].DeqDown? then exists j :: TakesOnce(run, es, t, b, k, j, run[k].pcs[t].ans)
      else Quiet(run, es, t, b, k) && exists j :: FoundEmpty(run, es, t, b, k, j)
  {
    var j := EffectSoFar(run, es, t, NowaitDeq, b, k);
    CallFits(run, es, t, NowaitDeq, b, k);
    assert StepAt(run, es, k);
    RunInv(run, es, k);
    OwnStep(run[k], es[k], run[k + 1], t, NowaitDeq);
    if !run[k].pcs[t].DeqDown? { CheckedEmpty(run, es, t, NowaitDeq, b, k); }
  }

  /** `wait_deq` returns only with the value its own `head` exchange took in this call. */
  lemma WaitDeqReturns(run: seq<State>, es: seq<Event>, t: Tid, b: nat, k: nat)
    requires Returns(run, es, t, WaitDeq, b, k)
    ensures Busy(run, t, k) && Unseen(run, es, t, k)
    ensures run[k].pcs[t].DeqDown? && exists j :: TakesOnce(run, es, t, b, k, j, run[k].pcs[t].ans)
  {
    var j := EffectSoFar(run, es, t, WaitDeq, b, k);
    CallFits(run, es, t, WaitDeq, b, k);
    assert StepAt(run, es, k);
    RunInv(run, es, k);
    OwnStep(run[k], es[k], run[k + 1], t, WaitDeq);
  }

  /** Only `wait_deq` goes to sleep without a value, and only when the queue was empty at a load made in the
      same iteration. */
  lemma SleepsOnlyOnEmpty(run: seq<State>, es: seq<Event>, t: Tid, op: Op, b: nat, k: nat)
    requires InCall(run, es, t, op, b, k) && k < |es| && Busy(run, t, k)
    requires !run[k].pcs[t].SleepDown? && t in run[k + 1].pcs && run[k + 1].pcs[t].SleepDown?
    ensures op == WaitDeq && exists j :: FoundEmpty(run, es, t, b, k, j)
  {
    CallFits(run, es, t, op, b, k);
    assert StepAt(run, es, k);
    CheckedEmpty(run, es, t, op, b, k);
  }

  // ---------- a thread alone ----------

  /** The memory and the thread's place after n steps of this thread only. */
  ghost function Alone(m: Memory, pc: PC, n: nat): (Memory, PC)
    decreases n
  {
    if n == 0 then (m, pc) else Alone(Act(m, pc).0, Act(m, pc).1, n - 1)
  }

  lemma {:induction false} AloneAdd(m: Memory, pc: PC, i: nat, j: nat)
    ensures Alone(m, pc, i + j) == Alone(Alone(m, pc, i).0, Alone(m, pc, i).1, j)
    decreases i
  {
    if i > 0 { AloneAdd(Act(m, pc).0, Act(m, pc).1, i - 1, j); }
  }

  lemma ThreeAlone(m: Memory, pc: PC, m1: Memory, pc1: PC, m2: Memory, pc2: PC, m3: Memory, pc3: PC)
    requires Act(m, pc) == (m1, pc1) && Act(m1, pc1) == (m2, pc2) && Act(m2, pc2) == (m3, pc3)
    ensures Alone(m, pc, 3) == (m3, pc3)
  {
    assert Alone(m2, pc2, 1) == Alone(m3, pc3, 0);
    assert Alone(m1, pc1, 2) == Alone(m2, pc2, 1);
  }

  /** `tail` is the last node. */
  ghost predicate Caught(m: Memory) { TailPos(m) == |m.enqueued| }

  lemma TailNode(m: Memory)
    requires MemInv(m)
    ensures m.tail in m.heap && (m.heap[m.tail].next.None? <==> Caught(m))
    ensures m.heap[m.tail].next.Some? ==> var n := m.heap[m.tail].next.value;
      MemInv(m.(tail := n)) && Caught(m.(tail := n)) && Contents(m.(tail := n)) == Contents(m)
  {
    assert ChainAt(m, m.tail);
    if m.heap[m.tail].next.Some? {
      var n := m.heap[m.tail].next.value;
      TailSwung(m, n);
      OthersInvisible(m, m.(tail := n));
    }
  }

  /** An `enq` alone, when `tail` is the last node: six steps. */
  lemma EnqAloneCaught(m: Memory, n: Addr)
    requires MemInv(m) && Private(m, n) && Caught(m)
    ensures var (m', pc') := Alone(m, EnqReadTail(n), 6);
      pc'.Idle? && Contents(m') == Contents(m) + [m.heap[n].t] && m'.sz == m.sz + 1 && Caught(m') && MemInv(m')
  {
    TailNode(m);
    var last, m1 := m.tail, Link(m, m.tail, n);
    ThreeAlone(m, EnqReadTail(n), m, EnqReadNext(n, last), m, EnqCheckTail(n, last, None), m, EnqCasNext(n, last));
    var m2 := m1.(tail := n);
    var m3 := m2.(sz := m2.sz + 1);
    ThreeAlone(m, EnqCasNext(n, last), m1, EnqCasTail(n, last), m2, EnqUp, m3, Idle);
    AloneAdd(m, EnqReadTail(n), 3, 3);
    LinkedAlone(m, n);
  }

  lemma LinkedAlone(m: Memory, n: Addr)
    requires MemInv(m) && Private(m, n) && Caught(m) && m.tail in m.heap
    ensures var m' := Link(m, m.tail, n).(tail := n, sz := m.sz + 1);
      MemInv(m') && Caught(m') && Contents(m') == Contents(m) + [m.heap[n].t]
  {
    var m1 := Link(m, m.tail, n);
    assert ChainAt(m, m.tail);
    Linked(m, m.tail, n);
    TailSwung(m1, n);
    Recounted(m1.(tail := n), m.sz + 1);
    var m' := m1.(tail := n, sz := m.sz + 1);
    ContentsIs(m);
    ContentsIs(m');
  }

  /** An `enq` alone, from any memory other threads may leave: in at most ten steps it returns, the value is
      last, the semaphore is raised by one, and `tail` is the last node. */
  lemma EnqAlone(m: Memory, n: Addr) returns (k: nat)
    requires MemInv(m) && Private(m, n)
    ensures k <= 10
    ensures var (m', pc') := Alone(m, EnqReadTail(n), k);
      pc'.Idle? && Contents(m') == Contents(m) + [m.heap[n].t] && m'.sz == m.sz + 1 && Caught(m')
  {
    TailNode(m);
    if Caught(m) {
      k := 6;
      EnqAloneCaught(m, n);
    } else {
      k := 10;
      var last, nxt := m.tail, m.heap[m.tail].next.value;
      var m1 := m.(tail := nxt);
      ThreeAlone(m, EnqReadTail(n), m, EnqReadNext(n, last), m, EnqCheckTail(n, last, Some(nxt)),
                 m, EnqSwingTail(n, last, nxt));
      assert Alone(m, EnqSwingTail(n, last, nxt), 1) == (m1, EnqReadTail(n)) by {
        assert Alone(m1, EnqReadTail(n), 0) == (m1, EnqReadTail(n));
      }
      AloneAdd(m, EnqReadTail(n), 3, 1);
      AloneAdd(m, EnqReadTail(n), 4, 6);
      EnqAloneCaught(m1, n);
    }
  }

  /** How a dequeuer alone gets past its test: five steps. */
  lemma LookAlone(m: Memory, w: bool)
    requires MemInv(m)
    ensures var (m', pc') := Alone(m, DeqReadHead(w), 5);
      && m' == m && m.head in m.heap
      && var next := m.heap[m.head].next;
         pc' == if m.head != m.tail then DeqReadValue(w, m.head, next)
                else if next.Some? then DeqSwingTail(w, m.tail, next.value)
                else if w then SleepDown else Idle
  {
    var h, l := m.head, m.tail;
    assert ChainAt(m, h);
    var next := m.heap[h].next;
    ThreeAlone(m, DeqReadHead(w), m, DeqReadTail(w, h), m, DeqReloadHead(w, h, l), m, DeqReadNext(w, h, l, h));
    var checked := Act(m, DeqCheckHead(w, h, l, next)).1;
    assert Alone(m, DeqReadNext(w, h, l, h), 2) == (m, checked) by {
      assert Alone(m, DeqCheckHead(w, h, l, next), 1) == Alone(m, checked, 0);
    }
    AloneAdd(m, DeqReadHead(w), 3, 2);
  }

  lemma HeadTail(m: Memory)
    requires MemInv(m)
    ensures m.head in m.heap && (Contents(m) == [] <==> m.heap[m.head].next.None?)
    ensures m.head != m.tail ==> m.heap[m.head].next.Some?
    ensures Contents(m) == [] ==> m.head == m.tail
  {
    ContentsIs(m);
    assert ChainAt(m, m.head) && ChainAt(m, m.tail);
  }

  lemma ExchangeAlone(m: Memory, w: bool) returns (m': Memory, ans: Value)
    requires MemInv(m) && m.head != m.tail && m.head in m.heap
    ensures Alone(m, DeqReadValue(w, m.head, m.heap[m.head].next), 2) == (m', DeqDown(ans))
    ensures Contents(m) == [ans] + Contents(m') && m'.sz == m.sz
  {
    HeadTail(m);
    ReadyAlone(m);
    var h, nxt := m.head, m.heap[m.head].next.value;
    ans := m.heap[nxt].t;
    m' := m.(head := nxt, dequeued := m.dequeued + [ans]);
    TwoAlone(m, DeqReadValue(w, h, Some(nxt)), m, DeqCasHead(w, h, nxt, ans), m', DeqDown(ans));
    TakeRemoves(m, DeqCasHead(w, h, nxt, ans), 0);
  }

  /** With `head` and `tail` apart it takes the front value with seven steps. */
  lemma TakeAlone(m: Memory, w: bool)
    requires MemInv(m) && m.head != m.tail
    ensures var (m', pc') := Alone(m, DeqReadHead(w), 7);
      pc'.DeqDown? && Contents(m) == [pc'.ans] + Contents(m') && m'.sz == m.sz
  {
    LookAlone(m, w);
    var m', ans := ExchangeAlone(m, w);
    AloneAdd(m, DeqReadHead(w), 5, 2);
  }

  lemma TwoAlone(m: Memory, pc: PC, m1: Memory, pc1: PC, m2: Memory, pc2: PC)
    requires Act(m, pc) == (m1, pc1) && Act(m1, pc1) == (m2, pc2)
    ensures Alone(m, pc, 2) == (m2, pc2)
  {
    assert Alone(m1, pc1, 1) == Alone(m2, pc2, 0);
  }

  lemma ReadyAlone(m: Memory)
    requires MemInv(m) && m.head != m.tail && m.head in m.heap && m.heap[m.head].next.Some?
    ensures var nxt := m.heap[m.head].next.value; nxt in m.heap && ReadyToTake(m, 0, m.head, nxt)
  {
    assert ChainAt(m, m.head) && ChainAt(m, m.tail) && ChainAt(m, m.heap[m.head].next.value);
  }

  /** A dequeuer alone, from any memory other threads may leave. On an empty queue `nowait_deq` says no and
      `wait_deq` goes to sleep, with nothing changed; otherwise in at most thirteen steps it has taken the
      front value and stands before `down`. */
  lemma DeqAlone(m: Memory, w: bool) returns (k: nat)
    requires MemInv(m)
    ensures k <= 13
    ensures var (m', pc') := Alone(m, DeqReadHead(w), k);
      if Contents(m) == [] then m' == m && pc' == (if w then SleepDown else Idle)
      else pc'.DeqDown? && Contents(m) == [pc'.ans] + Contents(m') && m'.sz == m.sz
  {
    HeadTail(m);
    LookAlone(m, w);
    if Contents(m) == [] {
      k := 5;
    } else if m.head != m.tail {
      k := 7;
      TakeAlone(m, w);
    } else {
      k := 13;
      TailNode(m);
      var nxt := m.heap[m.tail].next.value;
      var m1 := m.(tail := nxt);
      assert Alone(m, DeqSwingTail(w, m.tail, nxt), 1) == (m1, DeqReadHead(w)) by {
        assert Alone(m1, DeqReadHead(w), 0) == (m1, DeqReadHead(w));
      }
      AloneAdd(m, DeqReadHead(w), 5, 1);
      AloneAdd(m, DeqReadHead(w), 6, 7);
      assert ChainAt(m, m.head);
      TakeAlone(m1, w);
    }
  }

  /** Before `down` a dequeuer returns if the semaphore is not 0, and sleeps otherwise. Asleep in `wait_deq` it
      wakes if it is not 0, gives back what it took, and looks again. */
  lemma DownAlone(m: Memory, ans: Value)
    ensures Act(m, DeqDown(ans)) == if m.sz > 0 then (m.(sz := m.sz - 1), Idle) else (m, DeqDown(ans))
    ensures m.sz > 0 ==> Alone(m, SleepDown, 2) == (m, DeqReadHead(true))
  {
    if m.sz > 0 { TwoAlone(m, SleepDown, m.(sz := m.sz - 1), SleepUp, m, DeqReadHead(true)); }
  }
}
