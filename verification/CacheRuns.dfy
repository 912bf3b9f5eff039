/** What the cache promises over whole runs of any number of threads that never flush. */
module CacheRuns {
  import opened Wrappers
  import opened CacheSteps

  ghost predicate Run(run: seq<State>, es: seq<Event>) {
    && |run| == |es| + 1 && Init(run[0])
    && forall i {:trigger StepAt(run, es, i)} :: 0 <= i < |es| ==> StepAt(run, es, i)
  }

  ghost predicate StepAt(run: seq<State>, es: seq<Event>, i: nat)
    requires |run| == |es| + 1 && i < |es|
  {
    Next(run[i], es[i], run[i + 1])
  }

  lemma {:induction false} RunInv(run: seq<State>, es: seq<Event>, i: nat)
    requires Run(run, es) && i < |run|
    ensures Inv(run[i])
  {
    if i == 0 {
      InitInv(run[0]);
    } else {
      RunInv(run, es, i - 1);
      assert StepAt(run, es, i - 1);
      NextInv(run[i - 1], es[i - 1], run[i]);
    }
  }

  // ---------- pinning ----------

  /** How many of the steps from i up to j are an `unget` of this object. */
  ghost function Ungets(es: seq<Event>, i: nat, j: nat, h: Handle, id: Id): nat
    requires i <= j <= |es|
    decreases j
  {
    if i == j then 0
    else Ungets(es, i, j - 1, h, id) + if es[j - 1].Unget? && es[j - 1].h == h && es[j - 1].id == id then 1 else 0
  }

  lemma HoldsAfter(s: State, e: Event, s': State, h: Handle, id: Id)
    requires Inv(s) && Next(s, e, s')
    ensures s'.m.held[(h, id)] + (if e.Unget? && e.h == h && e.id == id then 1 else 0) >= s.m.held[(h, id)]
  {
  }

  lemma {:induction false} HoldsLast(run: seq<State>, es: seq<Event>, i: nat, j: nat, h: Handle, id: Id)
    requires Run(run, es) && i <= j < |run|
    ensures run[j].m.held[(h, id)] + Ungets(es, i, j, h, id) >= run[i].m.held[(h, id)]
    decreases j
  {
    if i < j {
      HoldsLast(run, es, i, j - 1, h, id);
      RunInv(run, es, j - 1);
      assert StepAt(run, es, j - 1);
      HoldsAfter(run[j - 1], es[j - 1], run[j], h, id);
    }
  }

  /** The main guarantee of the cache: while fewer `unget`s have come than there were holds, the handle
      stays mapped to the very object the holders got, and that object is not deleted. */
  lemma PinnedUntilUnget(run: seq<State>, es: seq<Event>, i: nat, j: nat, h: Handle, id: Id)
    requires Run(run, es) && i <= j < |run|
    requires Ungets(es, i, j, h, id) < run[i].m.held[(h, id)]
    ensures var m := run[j].m;
      && h in m.cache && m.cache[h].id == id
      && id in m.objects && m.objects[id] == Stored(h)
      && m.cache[h].refcnt == m.held[(h, id)] > 0
  {
    HoldsLast(run, es, i, j, h, id);
    RunInv(run, es, j);
    assert (h, id) in run[j].m.held;
  }

  /** A hit, or a `put` that answers true, is a hold on the object then stored. */
  lemma HitPins(s: State, e: Event, s': State, h: Handle)
    requires Inv(s) && Next(s, e, s')
    requires (e.Get? && e.h == h && h in s.m.cache)
             || (e.Advance? && s.pcs[e.t].PutInsert? && s.pcs[e.t].h == h && h !in s.m.cache)
    ensures h in s'.m.cache && s'.m.held == s.m.held + multiset{(h, s'.m.cache[h].id)}
    ensures e.Get? ==> s'.m.cache[h].id == s.m.cache[h].id
    ensures e.Advance? ==> s'.m.cache[h].id == s.pcs[e.t].id
  {
  }

  // ---------- eviction ----------

  /** No entry is forgotten: whenever nobody holds it, it waits in `toevict` or some thread has it in
      hand; and when every thread is idle, it waits. */
  lemma ZeroCountsWait(run: seq<State>, es: seq<Event>, i: nat, h: Handle)
    requires Run(run, es) && i < |run| && h in run[i].m.cache && run[i].m.held[(h, run[i].m.cache[h].id)] == 0
    ensures h in run[i].m.toevict || exists t :: t in run[i].pcs && Tends(run[i].pcs[t], h)
    ensures (forall t <- run[i].pcs :: run[i].pcs[t].Idle?) ==> h in run[i].m.toevict
  {
    RunInv(run, es, i);
  }

  // ---------- capacity ----------

  /** What is stored never exceeds the maximum, whatever the puts in flight have reserved; and `cur`
      is what is stored (but for the entry being erased), reserved and leaked. */
  lemma CapacityKept(run: seq<State>, es: seq<Event>, i: nat)
    requires Run(run, es) && i < |run|
    ensures var s := run[i];
      && Sizes(s.m.cache) <= s.m.max == run[0].m.max
      && 0 <= s.m.cur == Sizes(Kept(s.m, s.pcs)) + AllReserved(s.pcs) + s.m.leaked
      && s.m.leaked <= s.m.max
  {
    RunInv(run, es, i);
    LeakedGrows(run, es, 0, i);
  }

  /** When no call is in progress, `cur` is the total size of what is stored exactly if no `put` ever
      lost the second lookup with an object of positive size. */
  lemma CurWhenIdle(run: seq<State>, es: seq<Event>, i: nat)
    requires Run(run, es) && i < |run| && forall t <- run[i].pcs :: run[i].pcs[t].Idle?
    ensures run[i].m.cur == Sizes(run[i].m.cache) + run[i].m.leaked
    ensures run[i].m.cur == Sizes(run[i].m.cache) <==>
      forall k :: 0 <= k < i ==> !LosesSecondLookup(run[k], es[k])
  {
    RunInv(run, es, i);
    SumZero(Reserves(run[i].pcs));
    LeakedIff(run, es, i);
  }

  ghost predicate LosesSecondLookup(s: State, e: Event) {
    e.Advance? && e.t in s.pcs && s.pcs[e.t].PutInsert? && s.pcs[e.t].h in s.m.cache && s.pcs[e.t].sz > 0
  }

  lemma LeakedAfter(s: State, e: Event, s': State)
    requires Next(s, e, s')
    ensures s.m.leaked <= s'.m.leaked && s'.m.max == s.m.max
    ensures s.m.leaked < s'.m.leaked <==> LosesSecondLookup(s, e)
  {
  }

  lemma {:induction false} LeakedIff(run: seq<State>, es: seq<Event>, i: nat)
    requires Run(run, es) && i < |run|
    ensures run[i].m.leaked == 0 <==> forall k :: 0 <= k < i ==> !LosesSecondLookup(run[k], es[k])
  {
    if i > 0 {
      LeakedIff(run, es, i - 1);
      assert StepAt(run, es, i - 1);
      LeakedAfter(run[i - 1], es[i - 1], run[i]);
    }
  }

  lemma {:induction false} LeakedGrows(run: seq<State>, es: seq<Event>, i: nat, j: nat)
    requires Run(run, es) && i <= j < |run|
    ensures run[i].m.leaked <= run[j].m.leaked && run[j].m.max == run[i].m.max
    decreases j
  {
    if i < j {
      LeakedGrows(run, es, i, j - 1);
      assert StepAt(run, es, j - 1);
      LeakedAfter(run[j - 1], es[j - 1], run[j]);
    }
  }

  /** What leaked is lost for good: an object that does not fit beside it is never granted room
      again, however empty the cache. */
  lemma LeakShrinksCache(run: seq<State>, es: seq<Event>, i: nat, j: nat)
    requires Run(run, es) && i <= j < |es| && es[j].Advance?
    requires es[j].t in run[j].pcs && run[j].pcs[es[j].t].PutReserve?
    requires run[i].m.leaked + run[j].pcs[es[j].t].sz > run[i].m.max
    ensures es[j].t in run[j + 1].pcs && run[j + 1].pcs[es[j].t].PutBackOut?
  {
    LeakedGrows(run, es, i, j);
    RunInv(run, es, j);
    assert StepAt(run, es, j);
  }

  // ---------- a run that leaks ----------

  ghost predicate RunTo(run: seq<State>, es: seq<Event>, s: State) {
    Run(run, es) && run[|run| - 1] == s
  }

  ghost predicate Reachable(s: State) {
    exists run, es :: RunTo(run, es, s)
  }

  lemma Reaches(s: State, e: Event, s': State)
    requires Reachable(s) && Next(s, e, s')
    ensures Reachable(s')
  {
    var run, es :| RunTo(run, es, s);
    var run', es' := run + [s'], es + [e];
    forall i | 0 <= i < |es'| ensures StepAt(run', es', i) {
      if i < |es| { assert StepAt(run, es, i); }
    }
    assert RunTo(run', es', s');
  }

  function Pair(zero: PC, one: PC): map<Tid, PC> { map[0 := zero, 1 := one] }

  lemma Reaches0(m: Memory, zero: PC, one: PC, e: Event, m': Memory, zero': PC)
    requires Reachable(State(m, Pair(zero, one))) && e.t == 0 && Enabled(m, zero, e)
    requires Do(m, zero, e) == (m', zero')
    ensures Reachable(State(m', Pair(zero', one)))
  {
    assert Pair(zero, one)[0 := zero'] == Pair(zero', one);
    Reaches(State(m, Pair(zero, one)), e, State(m', Pair(zero', one)));
  }

  lemma Reaches1(m: Memory, zero: PC, one: PC, e: Event, m': Memory, one': PC)
    requires Reachable(State(m, Pair(zero, one))) && e.t == 1 && Enabled(m, one, e)
    requires Do(m, one, e) == (m', one')
    ensures Reachable(State(m', Pair(zero, one')))
  {
    assert Pair(zero, one)[1 := one'] == Pair(zero, one');
    Reaches(State(m, Pair(zero, one)), e, State(m', Pair(zero, one')));
  }

  /** Two threads put under the same handle, and both pass the first lookup. */
  lemma BothLooked(h: Handle, sz: nat, max: nat)
    requires sz + sz <= max
    ensures Reachable(State(Memory(map[], {}, 0, max, None, multiset{}, map[], 0),
                            Pair(PutReserve(h, sz), PutReserve(h, sz))))
  {
    var m := Memory(map[], {}, 0, max, None, multiset{}, map[], 0);
    var s := State(m, Pair(Idle, Idle));
    assert RunTo([s], [], s);
    Reaches0(m, Idle, Idle, BeginPut(0, h, sz), m, PutLookup(h, sz));
    Reaches1(m, PutLookup(h, sz), Idle, BeginPut(1, h, sz), m, PutLookup(h, sz));
    Reaches0(m, PutLookup(h, sz), PutLookup(h, sz), Advance(0), m, PutReserve(h, sz));
    Reaches1(m, PutReserve(h, sz), PutLookup(h, sz), Advance(1), m, PutReserve(h, sz));
  }

  /** For every size and every maximum with room for two, two puts under one handle can leave the size
      of the second behind in `cur`, with no call in progress. */
  lemma TwoPutsLeak(h: Handle, sz: nat, max: nat)
    requires 0 < sz && sz + sz <= max
    ensures exists m :: Reachable(State(m, Pair(Idle, Idle)))
              && m.cache.Keys == {h} && m.cache[h].sz == sz && m.cur == sz + sz && m.leaked == sz
  {
    BothLooked(h, sz, max);
    var p, q := PutReserve(h, sz), PutAllocate(h, sz);
    var m0 := Memory(map[], {}, 0, max, None, multiset{}, map[], 0);
    var m1, m2 := m0.(cur := sz), m0.(cur := sz + sz);
    Reaches0(m0, p, p, Advance(0), m1, q);
    Reaches1(m1, q, p, Advance(1), m2, q);
    var m3 := m2.(objects := map[0 := Private(0)]);
    Reaches0(m2, q, q, Allocate(0, 0), m3, PutInsert(h, sz, 0));
    var m4 := m3.(objects := m3.objects[1 := Private(1)]);
    Reaches1(m3, PutInsert(h, sz, 0), q, Allocate(1, 1), m4, PutInsert(h, sz, 1));
    var m5 := m4.(cache := map[h := Entry(0, sz, 1, false)], held := m4.held + multiset{(h, 0)},
                  objects := m4.objects[0 := Stored(h)]);
    Reaches0(m4, PutInsert(h, sz, 0), PutInsert(h, sz, 1), Advance(0), m5, Idle);
    var m6 := m5.(objects := m5.objects[1 := Forgotten], leaked := sz);
    Reaches1(m5, Idle, PutInsert(h, sz, 1), Advance(1), m6, Idle);
    assert m6.cache.Keys == {h};
  }
}
