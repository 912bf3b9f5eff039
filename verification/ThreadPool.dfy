/** Starting and tearing down the pool of worker threads (src/ThreadPool.hpp, src/Thread.hpp): the owner, which
    calls `start` and then the destructor, interleaved with threads that finish and run the exit callback.
    The mutex, the condition variable and thread creation are the system's. */
module ThreadPool {
  import opened Wrappers
  import opened Sums

  type Tid = nat

  /** A thread object; its thread id is set when it is started. `key` tells objects apart. */
  datatype Entry = Entry(key: nat, th: Option<Tid>)

  datatype OwnerPC =
    | LockStart                // start: before m.lock()
    | Starting(i: nat)         // start: at the i-th thread object
    | LockEnd                  // destructor: before m.lock()
    | Checking                 // destructor: at the test of the list
    | Waiting                  // asleep in done.wait(), the mutex released
    | Relocking                // woken, taking the mutex again
    | UnlockEnd                // destructor: before m.unlock()
    | Returned

  datatype ThreadPC = Running | Locking | Scanning | Signalling | Unlocking

  /** A thread that has not terminated; `key` is its object, for bookkeeping. */
  datatype Thr = Thr(pc: ThreadPC, key: nat)

  datatype Holder = Free | Owner | Held(t: Tid)

  datatype State = State(list: seq<Entry>, m: Holder, owner: OwnerPC, live: map<Tid, Thr>, lost: bool)

  datatype Event =
    | Step | Spawn(t: Tid) | SpuriousWake
    | Finish(t: Tid) | Lock(t: Tid) | Scan(t: Tid) | Signal(t: Tid) | Unlock(t: Tid)

  /** The entries without the last one that is t's. */
  function Erased(list: seq<Entry>, t: Tid): seq<Entry> {
    if list == [] then []
    else if list[|list| - 1].th == Some(t) then list[..|list| - 1]
    else Erased(list[..|list| - 1], t) + [list[|list| - 1]]
  }

  predicate Finds(list: seq<Entry>, t: Tid) { exists e <- list :: e.th == Some(t) }

  function SetPC(s: State, t: Tid, pc: ThreadPC): State
    requires t in s.live
  {
    s.(live := s.live[t := s.live[t].(pc := pc)])
  }

  predicate OwnerEnabled(s: State) {
    match s.owner
    case LockStart => s.m == Free
    case Starting(i) => i >= |s.list|
    case LockEnd => s.m == Free
    case Checking => true
    case Relocking => s.m == Free
    case UnlockEnd => true
    case _ => false
  }

  predicate Enabled(s: State, e: Event) {
    match e
    case Step => OwnerEnabled(s)
    case Spawn(t) => s.owner.Starting? && s.owner.i < |s.list| && t !in s.live
    case SpuriousWake => s.owner == Waiting
    case Finish(t) => t in s.live && s.live[t].pc == Running
    case Lock(t) => t in s.live && s.live[t].pc == Locking && s.m == Free
    case Scan(t) => t in s.live && s.live[t].pc == Scanning
    case Signal(t) => t in s.live && s.live[t].pc == Signalling
    case Unlock(t) => t in s.live && s.live[t].pc == Unlocking
  }

  function OwnerStep(s: State): State {
    match s.owner
    case LockStart => s.(m := Owner, owner := Starting(0))
    case Starting(_) => s.(m := Free, owner := LockEnd)
    case LockEnd => s.(m := Owner, owner := Checking)
    case Checking => if s.list == [] then s.(owner := UnlockEnd) else s.(m := Free, owner := Waiting)
    case Relocking => s.(m := Owner, owner := Checking)
    case UnlockEnd => s.(m := Free, owner := Returned)
    case _ => s
  }

  /** The scan of the list, under the mutex. */
  function DoScan(s: State, t: Tid): State
    requires t in s.live
  {
    if Finds(s.list, t) then
      var list := Erased(s.list, t);
      SetPC(s, t, if list == [] then Signalling else Unlocking).(list := list)
    else SetPC(s, t, Unlocking).(lost := true)
  }

  function Next(s: State, e: Event): State
    requires Enabled(s, e)
  {
    match e
    case Step => OwnerStep(s)
    case Spawn(t) =>
      var i := s.owner.i;
      s.(list := s.list[i := s.list[i].(th := Some(t))], live := s.live[t := Thr(Running, s.list[i].key)],
         owner := Starting(i + 1))
    case SpuriousWake => s.(owner := Relocking)
    case Finish(t) => SetPC(s, t, Locking)
    case Lock(t) => SetPC(s, t, Scanning).(m := Held(t))
    case Scan(t) => DoScan(s, t)
    case Signal(t) => SetPC(s, t, Unlocking).(owner := if s.owner == Waiting then Relocking else s.owner)
    case Unlock(t) => s.(m := Free, live := s.live - {t})
  }

  // ---------- the invariant ----------

  predicate HoldsMutex(pc: ThreadPC) { pc == Scanning || pc == Signalling || pc == Unlocking }

  predicate InList(pc: ThreadPC) { pc == Running || pc == Locking || pc == Scanning }

  ghost predicate ThreadOk(s: State, t: Tid) {
    t in s.live ==>
      && (HoldsMutex(s.live[t].pc) <==> s.m == Held(t))
      && (InList(s.live[t].pc) ==> Entry(s.live[t].key, Some(t)) in s.list)
      && (s.live[t].pc == Signalling ==> s.list == [])
  }

  ghost predicate EntryOk(s: State, e: Entry) {
    e in s.list && e.th.Some? ==>
      e.th.value in s.live && s.live[e.th.value].key == e.key && InList(s.live[e.th.value].pc)
  }

  predicate Ordered(list: seq<Entry>) { forall i, j :: 0 <= i < j < |list| ==> list[i].key < list[j].key }

  ghost predicate OwnerOk(s: State) {
    && (s.m == Owner <==> s.owner.Starting? || s.owner == Checking || s.owner == UnlockEnd)
    && (s.m.Held? ==> s.m.t in s.live)
    && (s.owner == LockStart ==> s.live == map[])
    && (match s.owner
        case LockStart => forall j :: 0 <= j < |s.list| ==> s.list[j].th == None
        case Starting(i) => i <= |s.list| && forall j :: 0 <= j < |s.list| ==> (s.list[j].th.Some? <==> j < i)
        case _ => forall j :: 0 <= j < |s.list| ==> s.list[j].th.Some?)
    && (s.owner == UnlockEnd || s.owner == Returned ==> s.list == [] && s.live == map[])
    && (s.owner == Waiting && s.list == [] ==> s.m.Held? && s.live[s.m.t].pc == Signalling)
  }

  ghost predicate Inv(s: State) {
    && !s.lost && Ordered(s.list) && OwnerOk(s)
    && (forall t {:trigger ThreadOk(s, t)} :: ThreadOk(s, t))
    && (forall e {:trigger EntryOk(s, e)} :: EntryOk(s, e))
  }

  ghost predicate Init(s: State) {
    && s.m == Free && s.owner == LockStart && s.live == map[] && !s.lost
    && forall i :: 0 <= i < |s.list| ==> s.list[i] == Entry(i, None)
  }

  lemma InitInv(s: State)
    requires Init(s)
    ensures Inv(s)
  {
  }

  /** With one entry for t, exactly that one goes. */
  lemma FrontBefore(list: seq<Entry>)
    requires Ordered(list) && list != []
    ensures forall e <- list[..|list| - 1] :: e.key < list[|list| - 1].key
  {
    var n := |list| - 1;
    forall e | e in list[..n] ensures e.key < list[n].key {
      var i :| 0 <= i < n && list[..n][i] == e;
      assert list[i].key < list[n].key;
    }
  }

  lemma LastErased(list: seq<Entry>, t: Tid, k: nat)
    requires Ordered(list) && list != [] && list[|list| - 1] == Entry(k, Some(t))
    requires forall e <- list :: e.th == Some(t) ==> e.key == k
    ensures Erased(list, t) == list[..|list| - 1]
    ensures forall e :: e in list[..|list| - 1] <==> e in list && e.th != Some(t)
  {
    var front, last := list[..|list| - 1], list[|list| - 1];
    FrontBefore(list);
    assert list == front + [last];
  }

  lemma LastKept(list: seq<Entry>, t: Tid, rest: seq<Entry>)
    requires Ordered(list) && list != [] && list[|list| - 1].th != Some(t) && Ordered(rest)
    requires forall e :: e in rest <==> e in list[..|list| - 1] && e.th != Some(t)
    ensures Ordered(rest + [list[|list| - 1]])
    ensures forall e :: e in rest + [list[|list| - 1]] <==> e in list && e.th != Some(t)
  {
    FrontBefore(list);
    OrderedAppend(rest, list[|list| - 1]);
    assert list == list[..|list| - 1] + [list[|list| - 1]];
  }

  lemma {:induction false} ErasedIs(list: seq<Entry>, t: Tid, k: nat)
    requires Ordered(list) && Entry(k, Some(t)) in list
    requires forall e <- list :: e.th == Some(t) ==> e.key == k
    ensures Ordered(Erased(list, t)) && |Erased(list, t)| == |list| - 1
    ensures forall e :: e in Erased(list, t) <==> e in list && e.th != Some(t)
  {
    var front, last := list[..|list| - 1], list[|list| - 1];
    assert list == front + [last];
    if last.th == Some(t) {
      LastErased(list, t, k);
    } else {
      ErasedIs(front, t, k);
      LastKept(list, t, Erased(front, t));
    }
  }

  lemma OrderedAppend(list: seq<Entry>, e: Entry)
    requires Ordered(list) && forall x <- list :: x.key < e.key
    ensures Ordered(list + [e])
  {
  }

  lemma NobodyLeft(s: State)
    requires Inv(s) && s.m == Owner && s.list == []
    ensures s.live == map[]
  {
    forall t ensures t !in s.live { assert ThreadOk(s, t); }
  }

  lemma OwnerStepInv(s: State)
    requires Inv(s) && OwnerEnabled(s)
    ensures Inv(OwnerStep(s))
  {
    var s' := OwnerStep(s);
    if s.owner == Checking && s.list == [] { NobodyLeft(s); }
    forall t ensures ThreadOk(s', t) { assert ThreadOk(s, t); }
    forall e ensures EntryOk(s', e) { assert EntryOk(s, e); }
  }

  lemma SpawnInv(s: State, t: Tid)
    requires Inv(s) && Enabled(s, Spawn(t))
    ensures Inv(Next(s, Spawn(t)))
  {
    var s', i := Next(s, Spawn(t)), s.owner.i;
    assert s.list[i].th == None;
    forall u ensures ThreadOk(s', u) {
      assert ThreadOk(s, u);
      if u in s.live && InList(s.live[u].pc) {
        var e := Entry(s.live[u].key, Some(u));
        var j :| 0 <= j < |s.list| && s.list[j] == e;
        assert s'.list[j] == e;
      } else if u == t {
        assert s'.list[i] in s'.list;
      }
    }
    forall e ensures EntryOk(s', e) {
      if e in s'.list && e != s'.list[i] {
        var j :| 0 <= j < |s'.list| && s'.list[j] == e;
        assert s.list[j] == e && EntryOk(s, e);
      }
    }
  }

  /** What the scan does to the list. */
  lemma ScannedList(s: State, t: Tid)
    requires Inv(s) && Enabled(s, Scan(t))
    ensures var list := DoScan(s, t).list;
      && Finds(s.list, t) && Ordered(list) && list == Erased(s.list, t)
      && (forall e :: e in list <==> e in s.list && e.th != Some(t))
      && (forall j :: 0 <= j < |list| ==> list[j].th.Some?)
  {
    var list, k := Erased(s.list, t), s.live[t].key;
    assert ThreadOk(s, t);
    assert Finds(s.list, t);
    forall e | e in s.list && e.th == Some(t) ensures e.key == k { assert EntryOk(s, e); }
    ErasedIs(s.list, t, k);
    forall j | 0 <= j < |list| ensures list[j].th.Some? {
      assert list[j] in s.list;
      var i :| 0 <= i < |s.list| && s.list[i] == list[j];
    }
  }

  lemma ScanInv(s: State, t: Tid)
    requires Inv(s) && Enabled(s, Scan(t))
    ensures Inv(DoScan(s, t))
  {
    var s' := DoScan(s, t);
    ScannedList(s, t);
    assert ThreadOk(s, t);
    forall u ensures ThreadOk(s', u) { assert ThreadOk(s, u); }
    forall e ensures EntryOk(s', e) { assert EntryOk(s, e); }
  }

  lemma ThreadInv(s: State, e: Event)
    requires Inv(s) && Enabled(s, e) && (e.Finish? || e.Lock? || e.Signal? || e.Unlock? || e.SpuriousWake?)
    ensures Inv(Next(s, e))
  {
    var s' := Next(s, e);
    if !e.SpuriousWake? { assert ThreadOk(s, e.t); }
    forall u ensures ThreadOk(s', u) { assert ThreadOk(s, u); }
    forall x ensures EntryOk(s', x) { assert EntryOk(s, x); }
  }

  lemma NextInv(s: State, e: Event)
    requires Inv(s) && Enabled(s, e)
    ensures Inv(Next(s, e))
  {
    if e.Step? { OwnerStepInv(s); }
    else if e.Spawn? { SpawnInv(s, e.t); }
    else if e.Scan? { ScanInv(s, e.t); }
    else { ThreadInv(s, e); }
  }

  // ---------- whole runs ----------

  ghost predicate StepAt(run: seq<State>, es: seq<Event>, i: nat)
    requires |run| == |es| + 1 && i < |es|
  {
    Enabled(run[i], es[i]) && run[i + 1] == Next(run[i], es[i])
  }

  ghost predicate Run(run: seq<State>, es: seq<Event>) {
    && |run| == |es| + 1 && Init(run[0])
    && forall i {:trigger StepAt(run, es, i)} :: 0 <= i < |es| ==> StepAt(run, es, i)
  }

  lemma {:induction false} RunInv(run: seq<State>, es: seq<Event>, n: nat)
    requires Run(run, es) && n < |run|
    ensures Inv(run[n])
  {
    if n == 0 {
      InitInv(run[0]);
    } else {
      RunInv(run, es, n - 1);
      assert StepAt(run, es, n - 1);
      NextInv(run[n - 1], es[n - 1]);
    }
  }

  /** Every exiting thread finds itself in the list, once, and takes only itself out. */
  lemma ExitingThreadFindsItself(run: seq<State>, es: seq<Event>, n: nat, t: Tid)
    requires Run(run, es) && n < |es| && es[n] == Scan(t)
    ensures Finds(run[n].list, t) && |run[n + 1].list| == |run[n].list| - 1
    ensures forall e :: e in run[n + 1].list <==> e in run[n].list && e.th != Some(t)
  {
    RunInv(run, es, n);
    assert StepAt(run, es, n);
    var s := run[n];
    assert ThreadOk(s, t);
    forall e | e in s.list && e.th == Some(t) ensures e.key == s.live[t].key { assert EntryOk(s, e); }
    ErasedIs(s.list, t, s.live[t].key);
  }

  /** The destructor returns only when every thread has left the list and the exit callback. */
  lemma ReturnsLast(run: seq<State>, es: seq<Event>, n: nat)
    requires Run(run, es) && n < |run| && run[n].owner == Returned
    ensures run[n].list == [] && run[n].live == map[] && run[n].m == Free
  {
    RunInv(run, es, n);
  }

  /** The owner is never left asleep with an empty list: a thread is then about to signal. */
  lemma NoLostWakeup(run: seq<State>, es: seq<Event>, n: nat)
    requires Run(run, es) && n < |run| && run[n].owner == Waiting && run[n].list == []
    ensures exists t :: Enabled(run[n], Signal(t)) && Next(run[n], Signal(t)).owner == Relocking
  {
    RunInv(run, es, n);
    assert Enabled(run[n], Signal(run[n].m.t));
  }

  // ---------- every thread of the pool has run and left ----------

  function Spawns(es: seq<Event>, n: nat): nat
    requires n <= |es|
  {
    if n == 0 then 0 else Spawns(es, n - 1) + if es[n - 1].Spawn? then 1 else 0
  }

  function Scans(es: seq<Event>, n: nat): nat
    requires n <= |es|
  {
    if n == 0 then 0 else Scans(es, n - 1) + if es[n - 1].Scan? then 1 else 0
  }

  function Exits(es: seq<Event>, n: nat): nat
    requires n <= |es|
  {
    if n == 0 then 0 else Exits(es, n - 1) + if es[n - 1].Unlock? then 1 else 0
  }

  function StartedBy(pc: OwnerPC, size: nat): nat {
    match pc
    case LockStart => 0
    case Starting(i) => i
    case _ => size
  }

  ghost predicate Counted(run: seq<State>, es: seq<Event>, n: nat)
    requires n <= |es| && |run| == |es| + 1
  {
    var s, size := run[n], |run[0].list|;
    && Spawns(es, n) == StartedBy(s.owner, size)
    && |s.list| + Scans(es, n) == size
    && |s.live| + Exits(es, n) == Spawns(es, n)
    && (s.owner == LockStart || s.owner.Starting? ==> |s.list| == size)
  }

  lemma CountedNext(run: seq<State>, es: seq<Event>, n: nat)
    requires Run(run, es) && n < |es| && Counted(run, es, n)
    ensures Counted(run, es, n + 1)
  {
    RunInv(run, es, n);
    assert StepAt(run, es, n);
    var s, e := run[n], es[n];
    if e.Scan? {
      assert ThreadOk(s, e.t);
      ScannedList(s, e.t);
      ExitingThreadFindsItself(run, es, n, e.t);
    }
  }

  lemma {:induction false} RunCounted(run: seq<State>, es: seq<Event>, n: nat)
    requires Run(run, es) && n <= |es|
    ensures Counted(run, es, n)
  {
    if n > 0 {
      RunCounted(run, es, n - 1);
      CountedNext(run, es, n - 1);
    }
  }

  /** When the destructor returns, as many threads were started as the pool has thread objects, and as many have
      taken themselves out of the list and left the exit callback. */
  lemma AllRanAndLeft(run: seq<State>, es: seq<Event>, n: nat)
    requires Run(run, es) && n <= |es| && run[n].owner == Returned
    ensures Spawns(es, n) == Scans(es, n) == Exits(es, n) == |run[0].list|
  {
    RunCounted(run, es, n);
    ReturnsLast(run, es, n);
  }

  // ---------- the end is reached ----------

  predicate Ending(s: State) { s.owner != LockStart && !s.owner.Starting? }

  function ThreadWeight(t: Thr): nat {
    match t.pc
    case Running => 50
    case Locking => 40
    case Scanning => 30
    case Signalling => 20
    case Unlocking => 10
  }

  function Weights(live: map<Tid, Thr>): map<Tid, nat> { map t | t in live :: ThreadWeight(live[t]) }

  function OwnerWeight(pc: OwnerPC): nat {
    match pc
    case LockEnd => 5
    case Relocking => 5
    case Checking => 4
    case UnlockEnd => 1
    case _ => 0
  }

  ghost function Measure(s: State): nat { OwnerWeight(s.owner) + Sum(Weights(s.live)) }

  lemma WeightsSet(live: map<Tid, Thr>, t: Tid, u: Thr)
    requires t in live
    ensures Sum(Weights(live[t := u])) == Sum(Weights(live)) + ThreadWeight(u) - ThreadWeight(live[t])
  {
    assert Weights(live[t := u]) == Weights(live)[t := ThreadWeight(u)];
    SumSet(Weights(live), t, ThreadWeight(u));
  }

  lemma WeightsRemove(live: map<Tid, Thr>, t: Tid)
    requires t in live
    ensures Sum(Weights(live - {t})) == Sum(Weights(live)) - ThreadWeight(live[t])
  {
    assert Weights(live - {t}) == Weights(live) - {t};
    SumRemove(Weights(live), t);
  }

  /** Once all threads are started, every step but a spurious wakeup makes the measure smaller. */
  lemma EndingDecreases(s: State, e: Event)
    requires Inv(s) && Ending(s) && Enabled(s, e) && e != SpuriousWake
    ensures Ending(Next(s, e)) && Measure(Next(s, e)) < Measure(s)
  {
    if e.Unlock? {
      WeightsRemove(s.live, e.t);
    } else if e.Finish? || e.Lock? || e.Signal? || e.Scan? {
      assert ThreadOk(s, e.t);
      WeightsSet(s.live, e.t, Next(s, e).live[e.t]);
    }
  }

  /** So, as long as no wakeup is spurious, at most so many steps follow. */
  lemma {:induction false} TeardownEnds(run: seq<State>, es: seq<Event>, n: nat)
    requires Run(run, es) && n < |run| && Ending(run[n])
    requires forall i :: n <= i < |es| ==> es[i] != SpuriousWake
    ensures |es| - n <= Measure(run[n])
    decreases |es| - n
  {
    if n < |es| {
      RunInv(run, es, n);
      assert StepAt(run, es, n);
      EndingDecreases(run[n], es[n]);
      TeardownEnds(run, es, n + 1);
    }
  }

  lemma {:induction false} Bound(ts: set<Tid>) returns (b: Tid)
    ensures forall t <- ts :: t < b
  {
    b := 0;
    if ts != {} {
      var t :| t in ts;
      var c := Bound(ts - {t});
      assert forall u <- ts :: u == t || u in ts - {t};
      b := if t < c then c else t + 1;
    }
  }

  /** There is always a thread id free for the next thread. */
  lemma StartGoesOn(s: State)
    requires s.owner.Starting?
    ensures exists e :: Enabled(s, e) && e != SpuriousWake
  {
    if s.owner.i < |s.list| {
      var t := Bound(s.live.Keys);
      assert Enabled(s, Spawn(t));
    } else {
      assert Enabled(s, Step);
    }
  }

  /** While the owner sleeps a thread can go on. */
  lemma ThreadGoesOn(s: State)
    requires Inv(s) && s.owner == Waiting
    ensures exists e :: Enabled(s, e) && e != SpuriousWake
  {
    var t := if s.m.Held? then s.m.t else s.list[0].th.value;
    assert s.list != [] ==> s.list[0] in s.list && EntryOk(s, s.list[0]);
    HolderGoesOn(s, t);
  }

  /** So can the holder of the mutex, and any thread while the mutex is free. */
  lemma HolderGoesOn(s: State, t: Tid)
    requires Inv(s) && t in s.live && (s.m == Held(t) || s.m == Free)
    ensures exists e :: Enabled(s, e) && e != SpuriousWake
  {
    assert ThreadOk(s, t);
    var e := match s.live[t].pc
      case Running => Finish(t)
      case Locking => Lock(t)
      case Scanning => Scan(t)
      case Signalling => Signal(t)
      case Unlocking => Unlock(t);
    assert Enabled(s, e);
  }

  /** And as long as the destructor has not returned some step is possible: no interleaving blocks for ever. */
  lemma NeverStuck(run: seq<State>, es: seq<Event>, n: nat)
    requires Run(run, es) && n < |run| && run[n].owner != Returned
    ensures exists e :: Enabled(run[n], e) && e != SpuriousWake
  {
    RunInv(run, es, n);
    var s := run[n];
    if s.owner.Starting? {
      StartGoesOn(s);
    } else if s.owner == Waiting {
      ThreadGoesOn(s);
    } else if s.m.Held? {
      HolderGoesOn(s, s.m.t);
    } else {
      assert Enabled(s, Step);
    }
  }

  // ---------- the loop of the exit callback ----------

  function LastOf(list: seq<Entry>, t: Tid, n: nat): Option<nat>
    requires n <= |list|
  {
    if n == 0 then None else if list[n - 1].th == Some(t) then Some(n - 1) else LastOf(list, t, n - 1)
  }

  lemma {:induction false} ErasedAt(list: seq<Entry>, t: Tid, n: nat)
    requires n <= |list|
    ensures match LastOf(list, t, n)
      case None => Erased(list[..n], t) == list[..n]
      case Some(i) => i < n && list[i].th == Some(t) && Erased(list[..n], t) == list[..i] + list[i + 1..n]
  {
    if n > 0 {
      assert list[..n][..n - 1] == list[..n - 1];
      if list[n - 1].th != Some(t) { ErasedAt(list, t, n - 1); }
    }
  }

  /** The callback's loop goes through the whole list and remembers the last match, which it then erases. */
  method EraseSelf(threads: seq<Entry>, me: Tid) returns (left: seq<Entry>, found: bool, signal: bool)
    ensures left == Erased(threads, me) && found == Finds(threads, me) && signal == (found && left == [])
  {
    var toerase: Option<nat> := None;
    for it := 0 to |threads|
      invariant toerase == LastOf(threads, me, it)
      invariant toerase.Some? <==> exists j :: 0 <= j < it && threads[j].th == Some(me)
    {
      if threads[it].th == Some(me) {
        toerase := Some(it);
      }
    }
    ErasedAt(threads, me, |threads|);
    assert threads[..|threads|] == threads;
    left := threads;
    if toerase.Some? {
      left := threads[..toerase.value] + threads[toerase.value + 1..];
      assert threads[toerase.value] in threads;
    }
    found := toerase.Some?;
    signal := found && left == [];
  }
}
