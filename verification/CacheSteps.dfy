/** The cache (src/Cache.hpp) under any number of threads, as a step machine without `flush`.

    A region guarded by a lock is one step, except that `evict(h)` is two: with the write lock held it
    first lowers `cur`, and then deletes and erases the entry, and other threads may use `cur` in
    between. Every other atomic operation on `cur` is a step of its own. */
module CacheSteps {
  import opened Wrappers
  import opened Sums

  type Tid = nat
  type Handle = int
  type Id = nat

  /** `id` names the object stored. */
  datatype Entry = Entry(id: Id, sz: nat, refcnt: int, invalid: bool)

  /** What has become of an object: made by a thread that has not stored it yet, stored, deleted, or
      forgotten by a `put` that lost the second lookup. */
  datatype Fate = Private(t: Tid) | Stored(h: Handle) | Deleted | Forgotten

  datatype After = Returns | Retries(h: Handle, sz: nat)

  datatype PC =
    | Idle
    | UngetEvict(v: Handle)
    | UngetInsert(v: Handle)
    | PutLookup(h: Handle, sz: nat)
    | PutReserve(h: Handle, sz: nat)
    | PutBackOut(h: Handle, sz: nat)
    | PutPop(h: Handle, sz: nat)
    | PutEvict(h: Handle, sz: nat, v: Handle)
    | PutAllocate(h: Handle, sz: nat)
    | PutRelease(h: Handle, sz: nat)
    | PutInsert(h: Handle, sz: nat, id: Id)
    | Erasing(v: Handle, after: After)

  /** The first five fields are the cache; the others are history: the objects clients hold, once per
      `get` or `put` not yet matched by an `unget`, what became of every object, and the sizes left in
      `cur` by puts that lost the second lookup. */
  datatype Memory = Memory(
    cache: map<Handle, Entry>, toevict: set<Handle>, cur: int, max: nat, writer: Option<Tid>,
    held: multiset<(Handle, Id)>, objects: map<Id, Fate>, leaked: nat)

  datatype State = State(m: Memory, pcs: map<Tid, PC>)

  /** Calls, and steps within a call. The environment chooses the handle that `toevict.begin()` finds
      and whether memory can be had. */
  datatype Event =
    | Get(t: Tid, h: Handle)
    | Unget(t: Tid, h: Handle, id: Id)
    | AdviseEvict(t: Tid, h: Handle)
    | BeginPut(t: Tid, h: Handle, sz: nat)
    | Pop(t: Tid, v: Handle)
    | Allocate(t: Tid, id: Id)
    | OutOfMemory(t: Tid)
    | Advance(t: Tid)

  // ---------- the program ----------

  predicate Enabled(m: Memory, pc: PC, e: Event) {
    match e
    case Get(_, h) => pc.Idle? && m.writer.None?
    case Unget(_, h, id) => pc.Idle? && m.writer.None? && (h, id) in m.held
    case AdviseEvict(_, h) => pc.Idle? && m.writer.None?
    case BeginPut(_, h, sz) => pc.Idle?
    case Pop(_, v) => pc.PutPop? && v in m.toevict
    case Allocate(_, id) => pc.PutAllocate? && id !in m.objects
    case OutOfMemory(_) => pc.PutAllocate?
    case Advance(t) =>
      match pc
      case Idle => false
      case PutAllocate(_, _) => false
      case PutPop(_, _) => m.toevict == {}
      case UngetEvict(_) => m.writer.None?
      case PutEvict(_, _, _) => m.writer.None?
      case PutLookup(_, _) => m.writer.None?
      case PutInsert(_, _, _) => m.writer.None?
      case _ => true
  }

  function Touch(m: Memory, h: Handle, n: int): map<Handle, Entry>
    requires h in m.cache
  {
    m.cache[h := m.cache[h].(refcnt := m.cache[h].refcnt + n)]
  }

  /** A call, up to its first step that others can see. */
  function Call(m: Memory, e: Event): (Memory, PC) {
    match e
    case Get(_, h) =>
      (if h in m.cache
       then m.(cache := Touch(m, h, 1), held := m.held + multiset{(h, m.cache[h].id)}) else m, Idle)
    case Unget(_, h, id) =>
      var held := m.held - multiset{(h, id)};
      if h in m.cache then
        (m.(cache := Touch(m, h, -1), held := held),
         if m.cache[h].refcnt - 1 != 0 then Idle
         else if m.cache[h].invalid then UngetEvict(h) else UngetInsert(h))
      else (m.(held := held), Idle)
    case AdviseEvict(_, h) =>
      (if h in m.cache then m.(cache := m.cache[h := m.cache[h].(invalid := true)]) else m, Idle)
    case BeginPut(_, h, sz) => (m, if sz > m.max then Idle else PutLookup(h, sz))
    case _ => (m, Idle)
  }

  /** `evict(v)` up to and including the change of `cur`. */
  function BeginEvict(m: Memory, t: Tid, v: Handle, after: After, failed: PC): (Memory, PC) {
    if v in m.cache && m.cache[v].refcnt == 0
    then (m.(cur := m.cur - m.cache[v].sz, writer := Some(t)), Erasing(v, after))
    else (m, failed)
  }

  function Act(m: Memory, t: Tid, pc: PC): (Memory, PC) {
    match pc
    case UngetEvict(v) => BeginEvict(m, t, v, Returns, UngetInsert(v))
    case UngetInsert(v) => (m.(toevict := m.toevict + {v}), Idle)
    case PutLookup(h, sz) => (m, if h in m.cache then Idle else PutReserve(h, sz))
    case PutReserve(h, sz) =>
      (m.(cur := m.cur + sz), if m.cur + sz > m.max then PutBackOut(h, sz) else PutAllocate(h, sz))
    case PutBackOut(h, sz) => (m.(cur := m.cur - sz), PutPop(h, sz))
    case PutPop(_, _) => (m, Idle)
    case PutEvict(h, sz, v) => BeginEvict(m, t, v, Retries(h, sz), PutPop(h, sz))
    case PutRelease(h, sz) => (m.(cur := m.cur - sz), Idle)
    case PutInsert(h, sz, id) =>
      if h in m.cache then (m.(objects := m.objects[id := Forgotten], leaked := m.leaked + sz), Idle)
      else (m.(cache := m.cache[h := Entry(id, sz, 1, false)],
               held := m.held + multiset{(h, id)}, objects := m.objects[id := Stored(h)]), Idle)
    case Erasing(v, after) =>
      (m.(cache := m.cache - {v}, writer := None,
          objects := if v in m.cache then m.objects[m.cache[v].id := Deleted] else m.objects),
       if after.Returns? then Idle else PutReserve(after.h, after.sz))
    case _ => (m, pc)
  }

  function Do(m: Memory, pc: PC, e: Event): (Memory, PC)
    requires Enabled(m, pc, e)
  {
    match e
    case Pop(_, v) => (m.(toevict := m.toevict - {v}), PutEvict(pc.h, pc.sz, v))
    case Allocate(t, id) => (m.(objects := m.objects[id := Private(t)]), PutInsert(pc.h, pc.sz, id))
    case OutOfMemory(_) => (m, PutRelease(pc.h, pc.sz))
    case Advance(t) => Act(m, t, pc)
    case _ => Call(m, e)
  }

  ghost predicate Next(s: State, e: Event, s': State) {
    && e.t in s.pcs && Enabled(s.m, s.pcs[e.t], e)
    && s' == State(Do(s.m, s.pcs[e.t], e).0, s.pcs[e.t := Do(s.m, s.pcs[e.t], e).1])
  }

  ghost predicate Init(s: State) {
    && s.m == Memory(map[], {}, 0, s.m.max, None, multiset{}, map[], 0)
    && forall t <- s.pcs :: s.pcs[t].Idle?
  }

  // ---------- invariant ----------

  ghost function SizeOf(c: map<Handle, Entry>): map<Handle, nat> { map h | h in c :: c[h].sz }

  ghost function Sizes(c: map<Handle, Entry>): nat { Sum(SizeOf(c)) }

  /** The entries that stay: all but the one being erased. */
  ghost function Kept(m: Memory, pcs: map<Tid, PC>): map<Handle, Entry> {
    if m.writer.Some? && m.writer.value in pcs && pcs[m.writer.value].Erasing?
    then m.cache - {pcs[m.writer.value].v} else m.cache
  }

  /** What a `put` in flight has added to `cur`. */
  function Reserved(pc: PC): nat {
    match pc
    case PutBackOut(_, sz) => sz
    case PutAllocate(_, sz) => sz
    case PutRelease(_, sz) => sz
    case PutInsert(_, sz, _) => sz
    case _ => 0
  }

  /** What it has added and found to fit. */
  function Granted(pc: PC): nat { if pc.PutBackOut? then 0 else Reserved(pc) }

  ghost function Reserves(pcs: map<Tid, PC>): map<Tid, nat> { map t | t in pcs :: Reserved(pcs[t]) }

  ghost function Grants(pcs: map<Tid, PC>): map<Tid, nat> { map t | t in pcs :: Granted(pcs[t]) }

  ghost function AllReserved(pcs: map<Tid, PC>): nat { Sum(Reserves(pcs)) }

  ghost function AllGranted(pcs: map<Tid, PC>): nat { Sum(Grants(pcs)) }

  /** Each hold is on the object stored under its handle, and each entry counts its holds. */
  ghost predicate Pinned(m: Memory) {
    && (forall h, id :: (h, id) in m.held ==> h in m.cache && m.cache[h].id == id)
    && (forall h <- m.cache :: m.cache[h].refcnt == m.held[(h, m.cache[h].id)])
    && (forall h <- m.cache :: m.cache[h].id in m.objects && m.objects[m.cache[h].id] == Stored(h))
  }

  ghost predicate Local(m: Memory, t: Tid, pc: PC) {
    && (pc.Erasing? <==> m.writer == Some(t))
    && (pc.Erasing? ==> pc.v in m.cache && m.cache[pc.v].refcnt == 0)
    && (pc.PutInsert? ==> pc.id in m.objects && m.objects[pc.id] == Private(t))
  }

  /** The thread is between taking responsibility for a zero-count entry and dealing with it. */
  predicate Tends(pc: PC, h: Handle) {
    match pc
    case UngetEvict(v) => v == h
    case UngetInsert(v) => v == h
    case PutEvict(_, _, v) => v == h
    case Erasing(v, _) => v == h
    case _ => false
  }

  ghost predicate Tended(s: State, h: Handle) {
    exists t :: t in s.pcs && Tends(s.pcs[t], h)
  }

  ghost predicate NoneLost(s: State) {
    forall h <- s.m.cache :: s.m.cache[h].refcnt == 0 ==> h in s.m.toevict || Tended(s, h)
  }

  ghost predicate Capacity(s: State) {
    && s.m.cur == Sizes(Kept(s.m, s.pcs)) + AllReserved(s.pcs) + s.m.leaked
    && Sizes(Kept(s.m, s.pcs)) + AllGranted(s.pcs) + s.m.leaked <= s.m.max
    && Sizes(s.m.cache) <= s.m.max
  }

  ghost predicate Inv(s: State) {
    && Pinned(s.m) && NoneLost(s) && Capacity(s)
    && (forall t <- s.pcs :: Local(s.m, t, s.pcs[t]))
    && (s.m.writer.Some? ==> s.m.writer.value in s.pcs)
  }

  // ---------- every step keeps it ----------

  lemma SizesRemove(c: map<Handle, Entry>, h: Handle)
    requires h in c
    ensures Sizes(c) == c[h].sz + Sizes(c - {h})
  {
    SumRemove(SizeOf(c), h);
    assert SizeOf(c) - {h} == SizeOf(c - {h});
  }

  lemma SizesSet(c: map<Handle, Entry>, h: Handle, e: Entry)
    ensures Sizes(c[h := e]) == Sizes(c) + e.sz - (if h in c then c[h].sz else 0)
  {
    SumSet(SizeOf(c), h, e.sz);
    assert SizeOf(c)[h := e.sz] == SizeOf(c[h := e]);
  }

  lemma ReservedAfter(pcs: map<Tid, PC>, t: Tid, pc: PC)
    requires t in pcs
    ensures AllReserved(pcs[t := pc]) == AllReserved(pcs) + Reserved(pc) - Reserved(pcs[t])
    ensures AllGranted(pcs[t := pc]) == AllGranted(pcs) + Granted(pc) - Granted(pcs[t])
  {
    SumSet(Reserves(pcs), t, Reserved(pc));
    SumSet(Grants(pcs), t, Granted(pc));
    assert Reserves(pcs)[t := Reserved(pc)] == Reserves(pcs[t := pc]);
    assert Grants(pcs)[t := Granted(pc)] == Grants(pcs[t := pc]);
  }

  /** Pins and fates, and what a step may not touch of the other threads'. */
  ghost predicate GoodDo(m: Memory, t: Tid, pc: PC, m': Memory, pc': PC) {
    && Pinned(m') && Local(m', t, pc')
    && (m'.writer == m.writer || m.writer == Some(t) || m'.writer == Some(t))
    && (m.writer.Some? && m.writer != Some(t) ==> m'.writer == m.writer && m'.cache == m.cache)
    && (forall id <- m.objects :: id in m'.objects)
    && (forall id <- m.objects :: m.objects[id].Private? && m.objects[id].t != t ==>
          m'.objects[id] == m.objects[id])
  }

  /** A zero-count entry is the thread's business now, or was in someone's care before and still is. */
  ghost predicate Cares(m: Memory, pc: PC, m': Memory, pc': PC) {
    forall h <- m'.cache :: m'.cache[h].refcnt == 0 ==>
      Tends(pc', h)
      || (h in m.cache && m.cache[h].refcnt == 0
          && (h in m.toevict || Tends(pc, h) ==> h in m'.toevict))
  }

  lemma TouchPins(m: Memory, h: Handle, e: Entry, held: multiset<(Handle, Id)>)
    requires Pinned(m) && h in m.cache && e.id == m.cache[h].id
    requires forall p :: p != (h, e.id) ==> held[p] == m.held[p]
    requires held[(h, e.id)] == e.refcnt
    ensures Pinned(m.(cache := m.cache[h := e], held := held))
  {
  }

  lemma GetPins(m: Memory, pc: PC, e: Event)
    requires Pinned(m) && Local(m, e.t, pc) && Enabled(m, pc, e) && e.Get?
    ensures GoodDo(m, e.t, pc, Do(m, pc, e).0, Do(m, pc, e).1)
  {
    if e.h in m.cache {
      var x := m.cache[e.h];
      TouchPins(m, e.h, x.(refcnt := x.refcnt + 1), m.held + multiset{(e.h, x.id)});
    }
  }

  lemma UngetPins(m: Memory, pc: PC, e: Event)
    requires Pinned(m) && Local(m, e.t, pc) && Enabled(m, pc, e) && e.Unget?
    ensures GoodDo(m, e.t, pc, Do(m, pc, e).0, Do(m, pc, e).1)
  {
    var x := m.cache[e.h];
    TouchPins(m, e.h, x.(refcnt := x.refcnt - 1), m.held - multiset{(e.h, x.id)});
  }

  lemma AdvisePins(m: Memory, pc: PC, e: Event)
    requires Pinned(m) && Local(m, e.t, pc) && Enabled(m, pc, e) && e.AdviseEvict?
    ensures GoodDo(m, e.t, pc, Do(m, pc, e).0, Do(m, pc, e).1)
  {
    if e.h in m.cache { TouchPins(m, e.h, m.cache[e.h].(invalid := true), m.held); }
  }

  lemma InsertPins(m: Memory, t: Tid, pc: PC)
    requires Pinned(m) && Local(m, t, pc) && pc.PutInsert? && m.writer.None?
    ensures GoodDo(m, t, pc, Act(m, t, pc).0, Act(m, t, pc).1)
  {
  }

  lemma ErasePins(m: Memory, t: Tid, pc: PC)
    requires Pinned(m) && Local(m, t, pc) && pc.Erasing?
    ensures GoodDo(m, t, pc, Act(m, t, pc).0, Act(m, t, pc).1)
  {
  }

  lemma EvictPins(m: Memory, t: Tid, pc: PC)
    requires Pinned(m) && Local(m, t, pc) && (pc.UngetEvict? || pc.PutEvict?) && m.writer.None?
    ensures GoodDo(m, t, pc, Act(m, t, pc).0, Act(m, t, pc).1)
  {
  }

  lemma AllocatePins(m: Memory, pc: PC, e: Event)
    requires Pinned(m) && Local(m, e.t, pc) && Enabled(m, pc, e) && e.Allocate?
    ensures GoodDo(m, e.t, pc, Do(m, pc, e).0, Do(m, pc, e).1)
  {
  }

  /** The steps that leave the map, the holds and the objects alone. */
  lemma OtherPins(m: Memory, pc: PC, e: Event)
    requires Pinned(m) && Local(m, e.t, pc) && Enabled(m, pc, e)
    requires e.BeginPut? || e.Pop? || e.OutOfMemory? || e.Advance?
    requires e.Advance? ==> !pc.PutInsert? && !pc.Erasing? && !pc.UngetEvict? && !pc.PutEvict?
    ensures GoodDo(m, e.t, pc, Do(m, pc, e).0, Do(m, pc, e).1)
  {
    var m', pc' := Do(m, pc, e).0, Do(m, pc, e).1;
    assert m' == m.(toevict := m'.toevict, cur := m'.cur);
    assert !pc'.Erasing? && !pc'.PutInsert?;
  }

  lemma EveryDo(m: Memory, pc: PC, e: Event)
    requires Pinned(m) && Local(m, e.t, pc) && Enabled(m, pc, e)
    ensures GoodDo(m, e.t, pc, Do(m, pc, e).0, Do(m, pc, e).1)
  {
    match e
    case Get(_, _) => GetPins(m, pc, e);
    case Unget(_, _, _) => UngetPins(m, pc, e);
    case AdviseEvict(_, _) => AdvisePins(m, pc, e);
    case Advance(t) =>
      if pc.PutInsert? { InsertPins(m, t, pc); }
      else if pc.Erasing? { ErasePins(m, t, pc); }
      else if pc.UngetEvict? || pc.PutEvict? { EvictPins(m, t, pc); }
      else { OtherPins(m, pc, e); }
    case Allocate(_, _) => AllocatePins(m, pc, e);
    case _ => OtherPins(m, pc, e);
  }

  lemma CallCares(m: Memory, pc: PC, e: Event)
    requires Pinned(m) && Enabled(m, pc, e) && (e.Get? || e.Unget? || e.AdviseEvict? || e.BeginPut?)
    ensures Cares(m, pc, Do(m, pc, e).0, Do(m, pc, e).1)
  {
  }

  lemma StepCares(m: Memory, pc: PC, e: Event)
    requires Local(m, e.t, pc) && Enabled(m, pc, e)
    requires e.Pop? || e.Allocate? || e.OutOfMemory? || e.Advance?
    ensures Cares(m, pc, Do(m, pc, e).0, Do(m, pc, e).1)
  {
  }

  lemma LocalsAfter(s: State, e: Event, s': State)
    requires Inv(s) && Next(s, e, s')
    ensures Pinned(s'.m) && (forall t <- s'.pcs :: Local(s'.m, t, s'.pcs[t]))
    ensures s'.m.writer.Some? ==> s'.m.writer.value in s'.pcs
  {
    EveryDo(s.m, s.pcs[e.t], e);
  }

  lemma NoneLostAfter(s: State, e: Event, s': State)
    requires Inv(s) && Next(s, e, s')
    ensures NoneLost(s')
  {
    if e.Get? || e.Unget? || e.AdviseEvict? || e.BeginPut? {
      CallCares(s.m, s.pcs[e.t], e);
    } else {
      StepCares(s.m, s.pcs[e.t], e);
    }
    EveryDo(s.m, s.pcs[e.t], e);
    forall h | h in s'.m.cache && s'.m.cache[h].refcnt == 0
      ensures h in s'.m.toevict || Tended(s', h)
    {
      if Tends(s'.pcs[e.t], h) {
        assert Tended(s', h);
      } else if h !in s.m.toevict {
        var u :| u in s.pcs && Tends(s.pcs[u], h);
        assert u != e.t ==> s'.pcs[u] == s.pcs[u];
      }
    }
  }

  // ---------- capacity ----------

  lemma GrantedIsReserved(pcs: map<Tid, PC>)
    ensures AllGranted(pcs) <= AllReserved(pcs)
  {
    SumMonotone(Grants(pcs), Reserves(pcs));
  }

  /** What the thread itself leaves in the map. */
  ghost function KeptBy(m: Memory, pc: PC): map<Handle, Entry> {
    if pc.Erasing? then m.cache - {pc.v} else m.cache
  }

  /** A step changes `cur` as it changes what is stored, reserved and leaked; and it adds to what is
      stored and granted only after finding that all reservations together fit. */
  ghost predicate Balanced(m: Memory, pc: PC, m': Memory, pc': PC) {
    && m'.cur - m.cur == Sizes(KeptBy(m', pc')) - Sizes(KeptBy(m, pc))
                         + Reserved(pc') - Reserved(pc) + m'.leaked - m.leaked
    && (Sizes(KeptBy(m', pc')) + Granted(pc') + m'.leaked
        <= Sizes(KeptBy(m, pc)) + Granted(pc) + m.leaked
        || m'.cur <= m.max)
    && (Sizes(m'.cache) <= Sizes(m.cache) || m'.cache == KeptBy(m', pc'))
    && m'.max == m.max
  }

  lemma CallBalanced(m: Memory, pc: PC, e: Event)
    requires Pinned(m) && Local(m, e.t, pc) && Enabled(m, pc, e)
    requires e.Get? || e.Unget? || e.AdviseEvict? || e.BeginPut?
    ensures Balanced(m, pc, Do(m, pc, e).0, Do(m, pc, e).1)
  {
    var m' := Do(m, pc, e).0;
    if !e.BeginPut? && e.h in m.cache { SizesSet(m.cache, e.h, m'.cache[e.h]); }
  }

  lemma EvictBalanced(m: Memory, t: Tid, pc: PC)
    requires Pinned(m) && Local(m, t, pc) && m.writer.None? && (pc.UngetEvict? || pc.PutEvict?)
    ensures Balanced(m, pc, Act(m, t, pc).0, Act(m, t, pc).1)
  {
    if pc.v in m.cache { SizesRemove(m.cache, pc.v); }
  }

  lemma EraseBalanced(m: Memory, t: Tid, pc: PC)
    requires Pinned(m) && Local(m, t, pc) && pc.Erasing?
    ensures Balanced(m, pc, Act(m, t, pc).0, Act(m, t, pc).1)
  {
    SizesRemove(m.cache, pc.v);
  }

  lemma InsertBalanced(m: Memory, t: Tid, pc: PC)
    requires Pinned(m) && Local(m, t, pc) && pc.PutInsert? && m.writer.None?
    ensures Balanced(m, pc, Act(m, t, pc).0, Act(m, t, pc).1)
  {
    if pc.h !in m.cache { SizesSet(m.cache, pc.h, Entry(pc.id, pc.sz, 1, false)); }
  }

  lemma OtherBalanced(m: Memory, pc: PC, e: Event)
    requires Local(m, e.t, pc) && Enabled(m, pc, e)
    requires e.Pop? || e.Allocate? || e.OutOfMemory? || e.Advance?
    requires e.Advance? ==> !pc.PutInsert? && !pc.Erasing? && !pc.UngetEvict? && !pc.PutEvict?
    ensures Balanced(m, pc, Do(m, pc, e).0, Do(m, pc, e).1)
  {
    assert Do(m, pc, e).0.cache == m.cache;
  }

  lemma EveryDoBalanced(m: Memory, pc: PC, e: Event)
    requires Pinned(m) && Local(m, e.t, pc) && Enabled(m, pc, e)
    ensures Balanced(m, pc, Do(m, pc, e).0, Do(m, pc, e).1)
  {
    if e.Get? || e.Unget? || e.AdviseEvict? || e.BeginPut? { CallBalanced(m, pc, e); }
    else if e.Advance? && pc.PutInsert? { InsertBalanced(m, e.t, pc); }
    else if e.Advance? && pc.Erasing? { EraseBalanced(m, e.t, pc); }
    else if e.Advance? && (pc.UngetEvict? || pc.PutEvict?) { EvictBalanced(m, e.t, pc); }
    else { OtherBalanced(m, pc, e); }
  }

  lemma CapacityAfter(s: State, e: Event, s': State)
    requires Inv(s) && Next(s, e, s')
    ensures Capacity(s')
  {
    var t := e.t;
    EveryDoBalanced(s.m, s.pcs[t], e);
    EveryDo(s.m, s.pcs[t], e);
    KeptIsKeptBy(s, e, s');
    ReservedAfter(s.pcs, t, s'.pcs[t]);
    GrantedIsReserved(s'.pcs);
  }

  lemma KeptIsKeptBy(s: State, e: Event, s': State)
    requires Inv(s) && Next(s, e, s')
    ensures Sizes(Kept(s'.m, s'.pcs)) - Sizes(Kept(s.m, s.pcs))
         == Sizes(KeptBy(s'.m, s'.pcs[e.t])) - Sizes(KeptBy(s.m, s.pcs[e.t]))
    ensures s'.m.cache == KeptBy(s'.m, s'.pcs[e.t]) ==>
      s'.m.cache == Kept(s'.m, s'.pcs) || s'.m.cache == s.m.cache
  {
    EveryDo(s.m, s.pcs[e.t], e);
    assert Local(s.m, e.t, s.pcs[e.t]);
    if s.m.writer.Some? { assert Local(s.m, s.m.writer.value, s.pcs[s.m.writer.value]); }
  }

  lemma InitInv(s: State)
    requires Init(s)
    ensures Inv(s)
  {
    SumZero(Reserves(s.pcs));
    SumZero(Grants(s.pcs));
  }

  lemma {:induction false} SumZero(m: map<Tid, nat>)
    requires forall t <- m :: m[t] == 0
    ensures Sum(m) == 0
    decreases |m|
  {
    if m != map[] {
      var t :| t in m;
      SumRemove(m, t);
      SumZero(m - {t});
    }
  }

  lemma NextInv(s: State, e: Event, s': State)
    requires Inv(s) && Next(s, e, s')
    ensures Inv(s')
  {
    LocalsAfter(s, e, s');
    NoneLostAfter(s, e, s');
    CapacityAfter(s, e, s');
  }
}
