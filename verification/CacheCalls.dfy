/** What a call on the cache (src/Cache.hpp) does from its beginning to its end when no other thread steps in
    between, from any state the other threads may be in: the step machine does what the object `Cache`
    promises. */
module CacheCalls {
  import opened Wrappers
  import opened Sums
  import opened CacheSteps
  import opened CacheRuns

  /** Thread t begins a call with step i and is back with state k, and only t steps in between. */
  ghost predicate CallAlone(run: seq<State>, es: seq<Event>, t: Tid, i: nat, k: nat) {
    && Run(run, es) && i < k < |run|
    && (forall l {:trigger es[l]} :: i <= l < k ==> es[l].t == t)
    && (forall l {:trigger Here(run, t, l)} :: i < l < k ==> Here(run, t, l) && !run[l].pcs[t].Idle?)
    && t in run[i].pcs && run[i].pcs[t].Idle? && t in run[k].pcs && run[k].pcs[t].Idle?
  }

  ghost predicate Here(run: seq<State>, t: Tid, l: nat)
    requires l < |run|
  {
    t in run[l].pcs
  }

  // ---------- get and advise_evict ----------

  /** They are one step: a hit raises the count, advice marks the entry, and nothing else changes. */
  lemma GetAlone(s: State, e: Event, s': State)
    requires Next(s, e, s') && e.Get?
    ensures s'.pcs[e.t].Idle?
    ensures s'.m.toevict == s.m.toevict && s'.m.cur == s.m.cur && s'.m.objects == s.m.objects
    ensures s'.m.cache == if e.h in s.m.cache
                          then s.m.cache[e.h := s.m.cache[e.h].(refcnt := s.m.cache[e.h].refcnt + 1)] else s.m.cache
  {
  }

  lemma AdviseAlone(s: State, e: Event, s': State)
    requires Next(s, e, s') && e.AdviseEvict?
    ensures s'.pcs[e.t].Idle? && s'.m == s.m.(cache := s'.m.cache)
    ensures s'.m.cache == if e.h in s.m.cache then s.m.cache[e.h := s.m.cache[e.h].(invalid := true)] else s.m.cache
  {
  }

  // ---------- unget ----------

  /** What the last hold's `unget` leaves: the entry is gone and deleted if it was invalid, and waits for
      eviction otherwise. */
  ghost predicate Ungot(m0: Memory, h: Handle, id: Id, m: Memory)
    requires h in m0.cache
  {
    var x := m0.cache[h];
    && m.held == m0.held - multiset{(h, id)} && m.max == m0.max && m.leaked == m0.leaked
    && if x.refcnt != 1 then
         m.cache == m0.cache[h := x.(refcnt := x.refcnt - 1)] && m.toevict == m0.toevict && m.cur == m0.cur
         && m.objects == m0.objects
       else if x.invalid then
         m.cache == m0.cache - {h} && m.toevict == m0.toevict && m.cur == m0.cur - x.sz
         && m.objects == m0.objects[x.id := Deleted]
       else
         m.cache == m0.cache[h := x.(refcnt := 0)] && m.toevict == m0.toevict + {h} && m.cur == m0.cur
         && m.objects == m0.objects
  }

  ghost predicate Lowered(m0: Memory, h: Handle, id: Id, m: Memory)
    requires h in m0.cache
  {
    && m0.cache[h].refcnt == 1 && m0.writer.None?
    && m == m0.(cache := m0.cache[h := m0.cache[h].(refcnt := 0)], held := m0.held - multiset{(h, id)})
  }

  /** Where an `unget` alone can be. */
  ghost predicate Ungetting(m0: Memory, t: Tid, h: Handle, id: Id, m: Memory, pc: PC)
    requires h in m0.cache
  {
    match pc
    case Idle => Ungot(m0, h, id, m)
    case UngetInsert(v) => v == h && Lowered(m0, h, id, m) && !m0.cache[h].invalid
    case UngetEvict(v) => v == h && Lowered(m0, h, id, m) && m0.cache[h].invalid
    case Erasing(v, after) =>
      && v == h && after.Returns? && m0.cache[h].invalid
      && Lowered(m0, h, id, m.(cur := m0.cur, writer := None)) && m.cur == m0.cur - m0.cache[h].sz
    case _ => false
  }

  lemma UngetBegins(m: Memory, e: Event)
    requires Enabled(m, Idle, e) && e.Unget? && e.h in m.cache
    ensures Ungetting(m, e.t, e.h, e.id, Do(m, Idle, e).0, Do(m, Idle, e).1)
  {
  }

  lemma UngetGoesOn(m0: Memory, t: Tid, h: Handle, id: Id, m: Memory, pc: PC, e: Event)
    requires h in m0.cache && Ungetting(m0, t, h, id, m, pc) && !pc.Idle? && Enabled(m, pc, e) && e.t == t
    ensures Ungetting(m0, t, h, id, Do(m, pc, e).0, Do(m, pc, e).1)
  {
  }

  lemma {:induction false} UngetSoFar(run: seq<State>, es: seq<Event>, t: Tid, i: nat, k: nat, l: nat)
    requires CallAlone(run, es, t, i, k) && es[i].Unget? && es[i].h in run[i].m.cache && i < l <= k
    ensures Here(run, t, l) && Ungetting(run[i].m, t, es[i].h, es[i].id, run[l].m, run[l].pcs[t])
    decreases l
  {
    assert StepAt(run, es, l - 1) && es[l - 1].t == t;
    assert Here(run, t, l);
    if l == i + 1 {
      UngetBegins(run[i].m, es[i]);
    } else {
      UngetSoFar(run, es, t, i, k, l - 1);
      assert Here(run, t, l - 1);
      UngetGoesOn(run[i].m, t, es[i].h, es[i].id, run[l - 1].m, run[l - 1].pcs[t], es[l - 1]);
    }
  }

  /** An `unget` run alone: it lowers the count; after the last hold the map loses the handle exactly if the
      entry was invalid, and otherwise the entry stays with count 0 and waits in `toevict`. */
  lemma UngetAlone(run: seq<State>, es: seq<Event>, t: Tid, i: nat, k: nat)
    requires CallAlone(run, es, t, i, k) && es[i].Unget?
    ensures es[i].h in run[i].m.cache && run[i].m.cache[es[i].h].id == es[i].id
    ensures Ungot(run[i].m, es[i].h, es[i].id, run[k].m)
  {
    RunInv(run, es, i);
    assert StepAt(run, es, i);
    assert (es[i].h, es[i].id) in run[i].m.held;
    UngetSoFar(run, es, t, i, k, k);
  }

  // ---------- put ----------

  /** The entries a `put` can evict: nobody holds them, and they wait in `toevict`. */
  ghost predicate Evictable(m: Memory, v: Handle) { v in m.cache && m.cache[v].refcnt == 0 && v in m.toevict }

  ghost function Firm(m: Memory): map<Handle, Entry> {
    map v | v in m.cache && !Evictable(m, v) :: m.cache[v]
  }

  /** What `cur` counts besides what is stored. */
  ghost function Beside(m: Memory): int { m.cur - Sizes(m.cache) }

  predicate Destroyed(m: Memory, id: Id) { id in m.objects && m.objects[id] == Deleted }

  /** Only entries that can be evicted are gone, and deleted; those left can still be, but for the one in hand. */
  ghost predicate Trimmed(m0: Memory, m: Memory, inHand: set<Handle>) {
    && (forall v <- m.cache :: v in m0.cache && m.cache[v] == m0.cache[v])
    && (forall v <- m0.cache :: v !in m.cache ==> Evictable(m0, v) && Destroyed(m, m0.cache[v].id))
    && m.toevict <= m0.toevict
    && (forall v <- m.cache :: Evictable(m0, v) ==> v in m.toevict || v in inHand)
    && m.held == m0.held && m.leaked == m0.leaked && m.max == m0.max
  }

  /** Nothing was evicted, or the last one evicted still stood in the way. */
  ghost predicate Needed(m0: Memory, m: Memory, sz: nat) {
    m.cache == m0.cache
    || exists v :: v in m0.cache && v !in m.cache && Beside(m0) + Sizes(m.cache) + m0.cache[v].sz + sz > m0.max
  }

  /** Between two evictions. */
  ghost predicate Steady(m0: Memory, m: Memory, sz: nat, inHand: set<Handle>, reserved: nat) {
    && Trimmed(m0, m, inHand) && Needed(m0, m, sz) && m.writer.None? && Beside(m) == Beside(m0) + reserved
  }

  ghost predicate Full(m0: Memory, m: Memory, sz: nat) { Beside(m0) + Sizes(m.cache) + sz > m0.max }

  /** What a `put` alone leaves. Without memory for the entry it stores nothing. */
  ghost predicate PutDone(m0: Memory, h: Handle, sz: nat, m: Memory) {
    if sz > m0.max || h in m0.cache then m == m0
    else if h !in m.cache then
      && Steady(m0, m, sz, {}, 0) && (Full(m0, m, sz) ==> m.cache == Firm(m0))
    else
      && m.cache[h].sz == sz && m.cache[h].refcnt == 1 && !m.cache[h].invalid
      && m.objects == m.objects[m.cache[h].id := Stored(h)]
      && m.held == m0.held + multiset{(h, m.cache[h].id)}
      && Steady(m0, m.(cache := m.cache - {h}, cur := m.cur - sz, held := m0.held), sz, {}, 0)
      && !Full(m0, m.(cache := m.cache - {h}), sz)
  }

  /** Where a `put` alone can be. */
  ghost predicate Putting(m0: Memory, t: Tid, h: Handle, sz: nat, m: Memory, pc: PC) {
    match pc
    case Idle => PutDone(m0, h, sz, m)
    case PutLookup(h', sz') => h' == h && sz' == sz && sz <= m0.max && m == m0
    case PutReserve(h', sz') => h' == h && sz' == sz && Free(m0, h, sz) && Steady(m0, m, sz, {}, 0)
    case PutBackOut(h', sz') => h' == h && sz' == sz && Free(m0, h, sz) && Steady(m0, m, sz, {}, sz) && Full(m0, m, sz)
    case PutPop(h', sz') => h' == h && sz' == sz && Free(m0, h, sz) && Steady(m0, m, sz, {}, 0) && Full(m0, m, sz)
    case PutEvict(h', sz', v) =>
      h' == h && sz' == sz && Free(m0, h, sz) && Steady(m0, m, sz, {v}, 0) && Full(m0, m, sz) && v in m0.toevict
    case Erasing(v, after) =>
      && after == Retries(h, sz) && Free(m0, h, sz) && v in m.cache && Evictable(m0, v)
      && Steady(m0, m.(cur := m.cur + m.cache[v].sz, writer := None), sz, {v}, 0) && Full(m0, m, sz)
    case PutAllocate(h', sz') =>
      h' == h && sz' == sz && Free(m0, h, sz) && Steady(m0, m, sz, {}, sz) && !Full(m0, m, sz)
    case PutRelease(h', sz') =>
      h' == h && sz' == sz && Free(m0, h, sz) && Steady(m0, m, sz, {}, sz) && !Full(m0, m, sz)
    case PutInsert(h', sz', id) =>
      && h' == h && sz' == sz && Free(m0, h, sz) && Steady(m0, m, sz, {}, sz) && !Full(m0, m, sz)
      && id in m.objects && m.objects[id] == Private(t)
    case _ => false
  }

  predicate Free(m0: Memory, h: Handle, sz: nat) { h !in m0.cache && sz <= m0.max }

  lemma PutBegins(m: Memory, e: Event)
    requires Enabled(m, Idle, e) && e.BeginPut?
    ensures Putting(m, e.t, e.h, e.sz, Do(m, Idle, e).0, Do(m, Idle, e).1)
  {
  }

  lemma LookupGoesOn(m0: Memory, t: Tid, h: Handle, sz: nat, m: Memory, pc: PC, e: Event)
    requires Putting(m0, t, h, sz, m, pc) && Enabled(m, pc, e) && e.t == t && pc.PutLookup?
    ensures Putting(m0, t, h, sz, Do(m, pc, e).0, Do(m, pc, e).1)
  {
  }

  lemma ReserveGoesOn(m0: Memory, t: Tid, h: Handle, sz: nat, m: Memory, pc: PC, e: Event)
    requires Putting(m0, t, h, sz, m, pc) && Enabled(m, pc, e) && e.t == t
    requires pc.PutReserve? || pc.PutBackOut? || pc.PutAllocate?
    ensures Putting(m0, t, h, sz, Do(m, pc, e).0, Do(m, pc, e).1)
  {
  }

  lemma ReleaseGoesOn(m0: Memory, t: Tid, h: Handle, sz: nat, m: Memory, pc: PC, e: Event)
    requires Putting(m0, t, h, sz, m, pc) && Enabled(m, pc, e) && e.t == t && pc.PutRelease?
    ensures Putting(m0, t, h, sz, Do(m, pc, e).0, Do(m, pc, e).1)
  {
  }

  lemma PopGoesOn(m0: Memory, t: Tid, h: Handle, sz: nat, m: Memory, pc: PC, e: Event)
    requires Putting(m0, t, h, sz, m, pc) && Enabled(m, pc, e) && e.t == t && pc.PutPop?
    ensures Putting(m0, t, h, sz, Do(m, pc, e).0, Do(m, pc, e).1)
  {
    if m.toevict == {} { AllGone(m0, m); }
  }

  lemma AllGone(m0: Memory, m: Memory)
    requires Trimmed(m0, m, {}) && m.toevict == {}
    ensures m.cache == Firm(m0)
  {
    assert forall v <- m.cache :: v in Firm(m0);
    assert forall v <- Firm(m0) :: v in m.cache;
  }

  lemma EvictGoesOn(m0: Memory, t: Tid, h: Handle, sz: nat, m: Memory, pc: PC, e: Event)
    requires Putting(m0, t, h, sz, m, pc) && Enabled(m, pc, e) && e.t == t && pc.PutEvict?
    ensures Putting(m0, t, h, sz, Do(m, pc, e).0, Do(m, pc, e).1)
  {
  }

  lemma EraseGoesOn(m0: Memory, t: Tid, h: Handle, sz: nat, m: Memory, pc: PC, e: Event)
    requires Putting(m0, t, h, sz, m, pc) && Enabled(m, pc, e) && e.t == t && pc.Erasing?
    ensures Putting(m0, t, h, sz, Do(m, pc, e).0, Do(m, pc, e).1)
  {
    SizesRemove(m.cache, pc.v);
    var m' := Do(m, pc, e).0;
    assert pc.v in m0.cache && pc.v !in m'.cache;
  }

  lemma InsertGoesOn(m0: Memory, t: Tid, h: Handle, sz: nat, m: Memory, pc: PC, e: Event)
    requires Putting(m0, t, h, sz, m, pc) && Enabled(m, pc, e) && e.t == t && pc.PutInsert?
    ensures Putting(m0, t, h, sz, Do(m, pc, e).0, Do(m, pc, e).1)
  {
    var m' := Do(m, pc, e).0;
    assert m'.cache - {h} == m.cache;
  }

  lemma PutGoesOn(m0: Memory, t: Tid, h: Handle, sz: nat, m: Memory, pc: PC, e: Event)
    requires Putting(m0, t, h, sz, m, pc) && !pc.Idle? && Enabled(m, pc, e) && e.t == t
    ensures Putting(m0, t, h, sz, Do(m, pc, e).0, Do(m, pc, e).1)
  {
    if pc.PutLookup? { LookupGoesOn(m0, t, h, sz, m, pc, e); }
    else if pc.PutReserve? || pc.PutBackOut? || pc.PutAllocate? { ReserveGoesOn(m0, t, h, sz, m, pc, e); }
    else if pc.PutRelease? { ReleaseGoesOn(m0, t, h, sz, m, pc, e); }
    else if pc.PutPop? { PopGoesOn(m0, t, h, sz, m, pc, e); }
    else if pc.PutEvict? { EvictGoesOn(m0, t, h, sz, m, pc, e); }
    else if pc.Erasing? { EraseGoesOn(m0, t, h, sz, m, pc, e); }
    else { InsertGoesOn(m0, t, h, sz, m, pc, e); }
  }

  lemma {:induction false} PutSoFar(run: seq<State>, es: seq<Event>, t: Tid, i: nat, k: nat, l: nat)
    requires CallAlone(run, es, t, i, k) && es[i].BeginPut? && i < l <= k
    ensures Here(run, t, l) && Putting(run[i].m, t, es[i].h, es[i].sz, run[l].m, run[l].pcs[t])
    decreases l
  {
    assert StepAt(run, es, l - 1) && es[l - 1].t == t;
    if l < k { assert Here(run, t, l); }
    if l == i + 1 {
      PutBegins(run[i].m, es[i]);
    } else {
      PutSoFar(run, es, t, i, k, l - 1);
      assert Here(run, t, l - 1);
      PutGoesOn(run[i].m, t, es[i].h, es[i].sz, run[l - 1].m, run[l - 1].pcs[t], es[l - 1]);
    }
  }

  /** There is room for sz beside what cannot be evicted. */
  ghost predicate HasRoom(m: Memory, sz: nat) { Beside(m) + Sizes(Firm(m)) + sz <= m.max }

  lemma FirmIsLeast(m0: Memory, m: Memory, sz: nat)
    requires Trimmed(m0, m, {})
    ensures Sizes(Firm(m0)) <= Sizes(m.cache)
  {
    assert forall v <- Firm(m0) :: v in m.cache && m.cache[v] == m0.cache[v];
    SumMonotone(SizeOf(Firm(m0)), SizeOf(m.cache));
  }

  /** No memory could be had for the entry. */
  ghost predicate RanOut(es: seq<Event>, i: nat, k: nat) {
    k <= |es| && exists l :: i < l < k && es[l].OutOfMemory?
  }

  /** A `put` run alone stores the entry, once, exactly if the handle is free and the sizes of what cannot be
      evicted, of what other puts have reserved, of what leaked, and sz are within the maximum, and memory can be
      had. It evicts only entries nobody holds, no more than needed, all of them if there is no room; and it
      leaks nothing. */
  lemma PutAlone(run: seq<State>, es: seq<Event>, t: Tid, i: nat, k: nat)
    requires CallAlone(run, es, t, i, k) && es[i].BeginPut?
    ensures var m0, m, h, sz := run[i].m, run[k].m, es[i].h, es[i].sz;
      && PutDone(m0, h, sz, m) && m.leaked == m0.leaked
      && (h in m.cache && h !in m0.cache <==> h !in m0.cache && sz <= m0.max && HasRoom(m0, sz) && !RanOut(es, i, k))
  {
    PutSoFar(run, es, t, i, k, k);
    PutOutcome(run, es, t, i, k);
  }

  lemma PutOutcome(run: seq<State>, es: seq<Event>, t: Tid, i: nat, k: nat)
    requires CallAlone(run, es, t, i, k) && es[i].BeginPut?
    requires PutDone(run[i].m, es[i].h, es[i].sz, run[k].m)
    ensures var m0, m, h, sz := run[i].m, run[k].m, es[i].h, es[i].sz;
      h in m.cache && h !in m0.cache <==> h !in m0.cache && sz <= m0.max && HasRoom(m0, sz) && !RanOut(es, i, k)
  {
    var m0, m, h, sz := run[i].m, run[k].m, es[i].h, es[i].sz;
    if h !in m0.cache && sz <= m0.max {
      if h in m.cache {
        FirmIsLeast(m0, m.(cache := m.cache - {h}, cur := m.cur - sz, held := m0.held), sz);
      } else {
        FirmIsLeast(m0, m, sz);
      }
      OutcomeSoFar(run, es, t, i, k, k);
    }
  }

  /** Once memory was refused the call can only give up; before, it gives up only for lack of room. */
  ghost predicate Deciding(m0: Memory, h: Handle, sz: nat, m: Memory, pc: PC, out: bool) {
    && (pc.PutRelease? ==> out)
    && (out ==> pc.PutRelease? || (pc.Idle? && h !in m.cache))
    && (pc.Idle? && !out && h !in m.cache ==> Full(m0, m, sz))
  }

  lemma {:induction false} OutcomeSoFar(run: seq<State>, es: seq<Event>, t: Tid, i: nat, k: nat, l: nat)
    requires CallAlone(run, es, t, i, k) && es[i].BeginPut? && i < l <= k
    requires es[i].h !in run[i].m.cache && es[i].sz <= run[i].m.max
    ensures Here(run, t, l) && Deciding(run[i].m, es[i].h, es[i].sz, run[l].m, run[l].pcs[t], RanOut(es, i, l))
    decreases l
  {
    assert StepAt(run, es, l - 1) && es[l - 1].t == t;
    if l < k { assert Here(run, t, l); }
    if l == i + 1 {
      assert run[l].pcs[t].PutLookup?;
    } else {
      OutcomeSoFar(run, es, t, i, k, l - 1);
      PutSoFar(run, es, t, i, k, l - 1);
      assert Here(run, t, l - 1);
      assert RanOut(es, i, l) <==> RanOut(es, i, l - 1) || es[l - 1].OutOfMemory?;
      DecidingGoesOn(run[i].m, t, es[i].h, es[i].sz, run[l - 1].m, run[l - 1].pcs[t], es[l - 1], RanOut(es, i, l - 1));
    }
  }

  lemma DecidingGoesOn(m0: Memory, t: Tid, h: Handle, sz: nat, m: Memory, pc: PC, e: Event, out: bool)
    requires Putting(m0, t, h, sz, m, pc) && !pc.Idle? && Enabled(m, pc, e) && e.t == t && Free(m0, h, sz)
    requires Deciding(m0, h, sz, m, pc, out)
    ensures Deciding(m0, h, sz, Do(m, pc, e).0, Do(m, pc, e).1, out || e.OutOfMemory?)
  {
  }

  /** What stands beside the stored entries when the lock is free: reservations, and what leaked. With every
      other thread idle, what cannot be evicted is what clients hold. */
  lemma RoomMeans(run: seq<State>, es: seq<Event>, i: nat, sz: nat)
    requires Run(run, es) && i < |run| && run[i].m.writer.None?
    ensures var s := run[i]; Beside(s.m) == AllReserved(s.pcs) + s.m.leaked
    ensures (forall u <- run[i].pcs :: run[i].pcs[u].Idle?) ==>
      var m := run[i].m;
      && (forall v <- m.cache :: v in Firm(m) <==> m.held[(v, m.cache[v].id)] > 0)
      && (HasRoom(m, sz) <==> Sizes(Firm(m)) + m.leaked + sz <= m.max)
  {
    RunInv(run, es, i);
    var s := run[i];
    if forall u <- s.pcs :: s.pcs[u].Idle? { SumZero(Reserves(s.pcs)); }
  }

  /** It ends: every step of a put alone makes this smaller. */
  function PutWeight(pc: PC): nat {
    match pc
    case PutLookup(_, _) => 9
    case PutReserve(_, _) => 8
    case PutBackOut(_, _) => 7
    case PutPop(_, _) => 6
    case PutEvict(_, _, _) => 10
    case Erasing(_, _) => 9
    case PutAllocate(_, _) => 3
    case PutRelease(_, _) => 2
    case PutInsert(_, _, _) => 2
    case _ => 0
  }

  lemma PutEnds(m0: Memory, t: Tid, h: Handle, sz: nat, m: Memory, pc: PC, e: Event)
    requires Putting(m0, t, h, sz, m, pc) && !pc.Idle? && Enabled(m, pc, e) && e.t == t
    ensures var (m', pc') := Do(m, pc, e); 5 * |m'.toevict| + PutWeight(pc') < 5 * |m.toevict| + PutWeight(pc)
  {
  }
}
