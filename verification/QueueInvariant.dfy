/** Every step of the queue keeps the invariant of `QueueSteps`. */
module QueueInvariant {
  import opened Wrappers
  import opened QueueSteps

  /** How one step can change the shared pointers: linked nodes stay where they are, and `head`,
      `tail` and the end of the chain only move forward. */
  ghost predicate Forward(m: Memory, m': Memory) {
    && (forall a <- m.order :: a in m'.order && m'.order[a] == m.order[a])
    && (forall a <- m.heap :: a in m'.heap && m'.heap[a].t == m.heap[a].t)
    && Length(m) <= Length(m') && HeadPos(m) <= HeadPos(m') && TailPos(m) <= TailPos(m')
    && (Progress(m) < Progress(m')
        || (Length(m) == Length(m') && m.head == m'.head && m.tail == m'.tail))
  }

  lemma ReadTailKept(m: Memory, m': Memory, b: nat, last: Addr)
    requires Forward(m, m') && Ends(m) && ReadTail(m, b, last)
    ensures ReadTail(m', b, last)
    ensures Pos(m, last) < |m.enqueued| || b < Progress(m') || |m'.enqueued| == |m.enqueued|
  {
  }

  lemma ReadHeadKept(m: Memory, m': Memory, b: nat, first: Addr)
    requires Forward(m, m') && Ends(m) && ReadHead(m, b, first)
    ensures ReadHead(m', b, first)
  {
  }

  lemma EnqLocalsKept(m: Memory, m': Memory, pc: PC, b: nat)
    requires Forward(m, m') && Ends(m) && Locals(m, pc, b) && Enqueuing(pc)
    requires Unlinked(pc).Some? ==> Private(m', Unlinked(pc).value)
    ensures Locals(m', pc, b)
  {
    if !pc.EnqReadTail? && !pc.EnqUp? && !pc.EnqCasTail? { ReadTailKept(m, m', b, pc.last); }
  }

  lemma DeqLocalsKept(m: Memory, m': Memory, pc: PC, b: nat)
    requires Forward(m, m') && Ends(m) && Locals(m, pc, b) && !Enqueuing(pc)
    ensures Locals(m', pc, b)
  {
    match pc
    case DeqReadTail(_, first) => ReadHeadKept(m, m', b, first);
    case DeqReloadHead(_, first, last) =>
      ReadHeadKept(m, m', b, first);
      ReadTailKept(m, m', b, last);
    case DeqReadNext(_, first, last, _) =>
      ReadHeadKept(m, m', b, first);
      ReadTailKept(m, m', b, last);
    case DeqCheckHead(_, first, last, _) =>
      ReadHeadKept(m, m', b, first);
      ReadTailKept(m, m', b, last);
    case DeqSwingTail(_, last, _) => ReadTailKept(m, m', b, last);
    case DeqReadValue(_, first, _) => ReadHeadKept(m, m', b, first);
    case DeqCasHead(_, first, _, _) => ReadHeadKept(m, m', b, first);
    case _ =>
  }

  /** A waiting thread's knowledge survives the steps of the others. */
  lemma LocalsKept(m: Memory, m': Memory, pc: PC, b: nat)
    requires Forward(m, m') && Ends(m) && Locals(m, pc, b)
    requires Unlinked(pc).Some? ==> Private(m', Unlinked(pc).value)
    ensures Locals(m', pc, b)
  {
    if Enqueuing(pc) { EnqLocalsKept(m, m', pc, b); } else { DeqLocalsKept(m, m', pc, b); }
  }

  /** By how much the semaphore differs from the length of the queue. */
  function Lag(m: Memory): int { m.sz + HeadPos(m) - |m.enqueued| }

  /** What a thread's debt makes of the counter: an `up` owed keeps it low, a `down` owed high. */
  function Due(pc: PC): int {
    match DebtOf(pc)
    case OwesUp => -1
    case OwesDown => 1
    case Woken => -1
    case Nothing => 0
  }

  /** What the next step of a thread at `pc` achieves by itself. */
  ghost predicate GoodAct(m: Memory, pc: PC, b: nat) {
    var (m', pc') := Act(m, pc);
    && MemInv(m') && Forward(m, m')
    && Locals(m', pc', if AtTop(pc) then Progress(m) else b)
    && Lag(m') - Lag(m) == Due(pc') - Due(pc)
    && (Unlinked(pc').Some? ==> Unlinked(pc') == Unlinked(pc))
    && (forall n: Addr :: Private(m, n) && Unlinked(pc) != Some(n) ==> Private(m', n))
  }

  lemma TailSwung(m: Memory, to: Addr)
    requires MemInv(m) && AfterIn(m, m.tail, to)
    ensures MemInv(m.(tail := to)) && Forward(m, m.(tail := to))
  {
    assert ChainAt(m, to) && ChainAt(m, m.tail);
    forall a | a in m.order ensures ChainAt(m.(tail := to), a) { assert ChainAt(m, a); }
  }

  lemma HeadSwung(m: Memory, first: Addr, nxt: Addr, b: nat)
    requires MemInv(m) && m.head == first && ReadyToTake(m, b, first, nxt)
    ensures nxt in m.heap
    ensures var m' := m.(head := nxt, dequeued := m.dequeued + [m.heap[nxt].t]);
            MemInv(m') && Forward(m, m')
  {
    assert ChainAt(m, nxt);
    var m' := m.(head := nxt, dequeued := m.dequeued + [m.heap[nxt].t]);
    var h := HeadPos(m);
    assert m.enqueued[..h] + [m.enqueued[h]] == m.enqueued[..h + 1];
    forall a | a in m.order ensures ChainAt(m', a) { assert ChainAt(m, a); }
  }

  lemma LinkedChain(m: Memory, last: Addr, n: Addr)
    requires Chain(m) && last in m.order && Private(m, n)
    requires last in m.heap && m.heap[last].next.None?
    ensures Chain(Link(m, last, n)) && m.order[last] == |m.enqueued|
  {
    var m' := Link(m, last, n);
    assert ChainAt(m, last);
    forall a | a in m'.order ensures ChainAt(m', a) {
      if a != n { assert ChainAt(m, a); }
    }
  }

  lemma Linked(m: Memory, last: Addr, n: Addr)
    requires MemInv(m) && last in m.order && Pos(m, last) <= TailPos(m) && Private(m, n)
    requires last in m.heap && m.heap[last].next.None?
    ensures var m' := Link(m, last, n);
            MemInv(m') && Forward(m, m') && AfterIn(m', last, n)
  {
    LinkedChain(m, last, n);
    var m' := Link(m, last, n);
    assert m'.enqueued[..HeadPos(m)] == m.enqueued[..HeadPos(m)];
  }

  lemma EnqLoads(m: Memory, pc: PC, b: nat)
    requires MemInv(m) && Locals(m, pc, b) && Enqueuing(pc)
    requires pc.EnqReadTail? || pc.EnqReadNext? || pc.EnqCheckTail?
    ensures GoodAct(m, pc, b)
  {
    if pc.EnqReadNext? { assert ChainAt(m, pc.last); }
  }

  lemma EnqLinks(m: Memory, pc: PC, b: nat)
    requires MemInv(m) && Locals(m, pc, b) && pc.EnqCasNext?
    ensures GoodAct(m, pc, b)
  {
    assert ChainAt(m, pc.last);
    if m.heap[pc.last].next.None? { Linked(m, pc.last, pc.n); }
  }

  lemma EnqSwings(m: Memory, pc: PC, b: nat)
    requires MemInv(m) && Locals(m, pc, b) && (pc.EnqSwingTail? || pc.EnqCasTail?)
    ensures GoodAct(m, pc, b)
  {
    if m.tail == pc.last { TailSwung(m, if pc.EnqSwingTail? then pc.nxt else pc.n); }
  }

  lemma DeqLoads(m: Memory, pc: PC, b: nat)
    requires MemInv(m) && Locals(m, pc, b)
    requires pc.DeqReadHead? || pc.DeqReadTail? || pc.DeqReloadHead? || pc.DeqReadNext?
    ensures GoodAct(m, pc, b)
  {
    if pc.DeqReadNext? {
      assert ChainAt(m, pc.at) && ChainAt(m, pc.first) && ChainAt(m, pc.last);
    }
  }

  lemma DeqChecks(m: Memory, pc: PC, b: nat)
    requires MemInv(m) && Locals(m, pc, b) && (pc.DeqCheckHead? || pc.DeqReadValue?)
    ensures GoodAct(m, pc, b)
  {
    if pc.DeqReadValue? {
      assert ChainAt(m, pc.next.value);
    } else {
      assert ChainAt(m, pc.first) && ChainAt(m, pc.last);
    }
  }

  lemma DeqExchanges(m: Memory, pc: PC, b: nat)
    requires MemInv(m) && Locals(m, pc, b) && (pc.DeqSwingTail? || pc.DeqCasHead?)
    ensures GoodAct(m, pc, b)
  {
    match pc
    case DeqSwingTail(w, last, nxt) => if m.tail == last { TailSwung(m, nxt); }
    case DeqCasHead(w, first, nxt, ans) => if m.head == first { HeadSwung(m, first, nxt, b); }
  }

  lemma Recounted(m: Memory, sz: nat)
    requires MemInv(m)
    ensures MemInv(m.(sz := sz)) && Forward(m, m.(sz := sz))
  {
    forall a | a in m.order ensures ChainAt(m.(sz := sz), a) { assert ChainAt(m, a); }
  }

  lemma UpActs(m: Memory, pc: PC, b: nat)
    requires MemInv(m) && Locals(m, pc, b) && (pc.EnqUp? || pc.SleepUp? || pc.Idle?)
    ensures GoodAct(m, pc, b)
  {
    Recounted(m, Act(m, pc).0.sz);
  }

  lemma DownActs(m: Memory, pc: PC, b: nat)
    requires MemInv(m) && Locals(m, pc, b) && (pc.DeqDown? || pc.SleepDown?)
    ensures GoodAct(m, pc, b)
  {
    Recounted(m, Act(m, pc).0.sz);
  }

  lemma SemaphoreActs(m: Memory, pc: PC, b: nat)
    requires MemInv(m) && Locals(m, pc, b)
    requires pc.EnqUp? || pc.DeqDown? || pc.SleepDown? || pc.SleepUp? || pc.Idle?
    ensures GoodAct(m, pc, b)
  {
    if pc.DeqDown? || pc.SleepDown? { DownActs(m, pc, b); } else { UpActs(m, pc, b); }
  }

  lemma EveryAct(m: Memory, pc: PC, b: nat)
    requires MemInv(m) && Locals(m, pc, b)
    ensures GoodAct(m, pc, b)
  {
    match pc
    case EnqReadTail(_) => EnqLoads(m, pc, b);
    case EnqReadNext(_, _) => EnqLoads(m, pc, b);
    case EnqCheckTail(_, _, _) => EnqLoads(m, pc, b);
    case EnqCasNext(_, _) => EnqLinks(m, pc, b);
    case EnqSwingTail(_, _, _) => EnqSwings(m, pc, b);
    case EnqCasTail(_, _) => EnqSwings(m, pc, b);
    case DeqReadHead(_) => DeqLoads(m, pc, b);
    case DeqReadTail(_, _) => DeqLoads(m, pc, b);
    case DeqReloadHead(_, _, _) => DeqLoads(m, pc, b);
    case DeqReadNext(_, _, _, _) => DeqLoads(m, pc, b);
    case DeqCheckHead(_, _, _, _) => DeqChecks(m, pc, b);
    case DeqReadValue(_, _, _) => DeqChecks(m, pc, b);
    case DeqSwingTail(_, _, _) => DeqExchanges(m, pc, b);
    case DeqCasHead(_, _, _, _) => DeqExchanges(m, pc, b);
    case _ => SemaphoreActs(m, pc, b);
  }

  lemma OwingAfter(pcs: map<Tid, PC>, t: Tid, pc: PC, d: Debt)
    requires t in pcs
    ensures |Owing(pcs[t := pc], d)|
         == |Owing(pcs, d)| - (if DebtOf(pcs[t]) == d then 1 else 0) + (if DebtOf(pc) == d then 1 else 0)
  {
    var before, after := Owing(pcs, d), Owing(pcs[t := pc], d);
    var others := before - {t};
    assert after == if DebtOf(pc) == d then others + {t} else others;
    assert before == if DebtOf(pcs[t]) == d then others + {t} else others;
  }

  lemma AccountsAfter(s: State, s': State, t: Tid, pc: PC)
    requires Accounts(s) && t in s.pcs && s'.pcs == s.pcs[t := pc]
    requires Lag(s'.m) - Lag(s.m) == Due(pc) - Due(s.pcs[t])
    ensures Accounts(s')
  {
    OwingAfter(s.pcs, t, pc, OwesDown);
    OwingAfter(s.pcs, t, pc, OwesUp);
    OwingAfter(s.pcs, t, pc, Woken);
  }

  lemma InitInv(s: State)
    requires Init(s)
    ensures Inv(s)
  {
    assert Owing(s.pcs, OwesUp) == {} && Owing(s.pcs, OwesDown) == {} && Owing(s.pcs, Woken) == {};
  }

  /** A new node is out of reach of everyone else. */
  lemma Allocated(m: Memory, v: Value, n: Addr)
    requires MemInv(m) && n !in m.heap
    ensures var m' := m.(heap := m.heap[n := Node(v, None)]);
            MemInv(m') && Forward(m, m') && Lag(m') == Lag(m) && Private(m', n)
            && forall k: Addr :: Private(m, k) ==> Private(m', k)
  {
    var m' := m.(heap := m.heap[n := Node(v, None)]);
    assert forall a <- m.order :: ChainAt(m, a);
    forall a | a in m.order ensures ChainAt(m', a) { assert ChainAt(m, a); }
  }

  lemma BeginEnqInv(s: State, e: Event, s': State)
    requires Inv(s) && Next(s, e, s') && e.BeginEnq?
    ensures Inv(s') && Forward(s.m, s'.m)
  {
    var t := e.tid;
    Allocated(s.m, e.v, e.n);
    forall u | u in s'.pcs
      ensures ThreadInv(s', u)
      ensures u != t ==> Unlinked(s'.pcs[u]) != Some(e.n)
    {
      assert ThreadInv(s, u);
      if u != t { LocalsKept(s.m, s'.m, s.pcs[u], Began(s, u)); }
    }
    AccountsAfter(s, s', t, s'.pcs[t]);
  }

  lemma BeginDeqInv(s: State, e: Event, s': State)
    requires Inv(s) && Next(s, e, s') && e.BeginDeq?
    ensures Inv(s') && Forward(s.m, s'.m)
  {
    Recounted(s.m, s.m.sz);
    forall u | u in s'.pcs ensures ThreadInv(s', u) { assert ThreadInv(s, u); }
    AccountsAfter(s, s', e.tid, s'.pcs[e.tid]);
  }

  lemma ThreadsAfter(s: State, t: Tid)
    requires Inv(s) && t in s.pcs && GoodAct(s.m, s.pcs[t], Began(s, t))
    ensures forall u <- Step(s, t).pcs :: ThreadInv(Step(s, t), u)
  {
    var s' := Step(s, t);
    forall u | u in s'.pcs ensures ThreadInv(s', u) {
      assert ThreadInv(s, u);
      if u != t { LocalsKept(s.m, s'.m, s.pcs[u], Began(s, u)); }
    }
  }

  lemma AdvanceInv(s: State, t: Tid)
    requires Inv(s) && t in s.pcs
    ensures Inv(Step(s, t)) && Forward(s.m, Step(s, t).m)
  {
    assert ThreadInv(s, t);
    EveryAct(s.m, s.pcs[t], Began(s, t));
    ThreadsAfter(s, t);
    AccountsAfter(s, Step(s, t), t, Step(s, t).pcs[t]);
  }

  /** Any step of any thread keeps the invariant, and no pointer moves backwards. */
  lemma NextInv(s: State, e: Event, s': State)
    requires Inv(s) && Next(s, e, s')
    ensures Inv(s') && Forward(s.m, s'.m)
  {
    match e
    case BeginEnq(_, _, _) => BeginEnqInv(s, e, s');
    case BeginDeq(_, _) => BeginDeqInv(s, e, s');
    case Advance(t) => AdvanceInv(s, t);
  }
}
