/** What the events of a run of `Dispatch` mean for a connection: what each way to end a call leads to, what
    alone can end a connection's life, and that nobody is stuck. */
module DispatchEvents {
  import opened Dispatch
  import opened DispatchRuns

  /** Worker t is at its call of w. */
  predicate Holds(s: State, t: Tid, w: Id) { t in s.workers && s.workers[t] == Holding(w) }

  // ---------- how a call ends ----------

  /** A call that reschedules its connection leaves it watched for what it asked for, and is out of the
      worker's hands; one that is done leaves it to the worker to delete; one that goes dormant leaves it, open
      and in the work map, to nobody. */
  lemma CallEnds(run: seq<State>, es: seq<Event>, k: nat, t: Tid, o: Outcome, w: Id)
    requires Run(run, es) && k < |es| && es[k] == Call(t, o) && Holds(run[k], t, w)
    ensures w in run[k].objs && w in run[k + 1].objs
    ensures var s, s', fd := run[k], run[k + 1], run[k].objs[w].fd;
      && s'.objs[w].fd == fd && fd in s'.k.open && fd in s'.wmap && s'.wmap[fd] == w
      && t in s'.workers && w in s'.place
      && match o
         case Rescheduled(m) =>
           s'.workers[t] == Idle && fd in s'.k.armed && s'.k.armed[fd] == m && s'.objs[w].m == m
         case Done => s'.workers[t] == Unlisting(w) && fd !in s'.k.armed
         case GoesDormant => s'.workers[t] == Idle && fd !in s'.k.armed && s'.place[w] == Dormant
  {
    RunInv(run, es, k);
    RunInv(run, es, k + 1);
    assert StepAt(run, es, k);
    assert WorkerOk(run[k], t) && ObjOk(run[k], w) && PlaceOk(run[k], w);
    assert ObjOk(run[k + 1], w) && FdOk(run[k + 1], run[k].objs[w].fd);
  }

  // ---------- the life of a connection, step by step ----------

  predicate OfWorker(e: Event, t: Tid) { WorkerStep(e) && e.t == t }

  /** The parts of the invariant that a step and object w need. */
  ghost predicate Around(s: State, e: Event, w: Id) {
    && Enabled(s, e) && !Next(s, e).crashed && ObjOk(s, w) && PlaceOk(s, w) && SchedOk(s)
    && JobOk(s, 0) && EventOk(s, 0) && ObjOk(s, s.nextId)
    && (WorkerStep(e) ==> WorkerOk(s, e.t)) && w in s.objs && IsConn(s.objs[w].fd)
  }

  lemma AroundAt(run: seq<State>, es: seq<Event>, k: nat, w: Id)
    requires Run(run, es) && k < |es| && w in run[k].objs && IsConn(run[k].objs[w].fd)
    ensures Inv(run[k]) && StepAt(run, es, k) && Around(run[k], es[k], w) && w in run[k].place
  {
    RunInv(run, es, k);
    RunInv(run, es, k + 1);
    assert StepAt(run, es, k);
    var s, e := run[k], es[k];
    assert ObjOk(s, w) && PlaceOk(s, w) && JobOk(s, 0) && EventOk(s, 0) && ObjOk(s, s.nextId);
    if WorkerStep(e) { assert WorkerOk(s, e.t); }
  }

  ghost predicate Same(s: State, s': State, w: Id)
    requires w in s.objs && w in s.place
  {
    w in s'.objs && w in s'.place && s'.objs[w] == s.objs[w] && s'.place[w] == s.place[w]
  }

  /** The object an event works on. (A batch may report many.) */
  function Touched(s: State, e: Event): set<Id> {
    match e
    case NextEvent =>
      if s.dowork && s.batch != [] && IsConn(s.batch[0].fd) && s.batch[0].fd in s.owner
      then {s.owner[s.batch[0].fd]} else {}
    case Add => if s.sched.Adding? then {s.sched.w} else {}
    case Enqueue => if s.sched.Queueing? then {s.sched.w} else {}
    case Unregister => if s.sched.Unregistering? then {s.sched.w} else {}
    case Close => if s.sched.Closing? then {s.sched.w} else {}
    case Take(t) => if s.jobq != [] && s.jobq[0].Do? then {s.jobq[0].w} else {}
    case Call(t, _) => if t in s.workers && s.workers[t].Holding? then {s.workers[t].w} else {}
    case Unlist(t) => if t in s.workers && s.workers[t].Unlisting? then {s.workers[t].w} else {}
    case Shut(t) => if t in s.workers && s.workers[t].Shutting? then {s.workers[t].w} else {}
    case _ => {}
  }

  lemma SchedulerFrame(s: State, e: Event, w: Id)
    requires Enabled(s, e) && !WorkerStep(e) && !e.Wait? && w in s.objs && w in s.place && w < s.nextId
    requires w !in Touched(s, e)
    ensures Same(s, Next(s, e), w)
  {
  }

  lemma WorkerFrame(s: State, e: Event, w: Id)
    requires Enabled(s, e) && WorkerStep(e) && w in s.objs && w in s.place
    requires w !in Touched(s, e)
    ensures Same(s, Next(s, e), w)
  {
  }

  /** Whom an event works on is where that event finds it. */
  lemma TouchedPlace(s: State, e: Event, w: Id)
    requires Around(s, e, w) && w in Touched(s, e)
    ensures match s.place[w]
      case Batch(n) => e == NextEvent && n == s.handled
      case AtScheduler => e == Add || e == Enqueue || e == Unregister || e == Close
      case Queue(_) => e.Take?
      case AtWorker(t) => WorkerStep(e) && e.t == t && !e.Take? && !e.PutBack?
      case _ => false
  {
  }

  /** Whatever happens elsewhere, an object is left alone. */
  lemma Untouched(s: State, e: Event, w: Id)
    requires Around(s, e, w) && !e.Wait? && w !in Touched(s, e)
    ensures Same(s, Next(s, e), w)
  {
    if WorkerStep(e) { WorkerFrame(s, e, w); } else { SchedulerFrame(s, e, w); }
  }

  // ---------- what ends a life ----------

  /** Its end has been decided: its worker is deleting it, or the scheduler is or is about to, or an error or
      hangup of it is pending. */
  ghost predicate Doomed(s: State, w: Id) {
    w in s.place &&
    match s.place[w]
    case AtWorker(t) => t in s.workers && (s.workers[t] == Unlisting(w) || s.workers[t] == Shutting(w))
    case AtScheduler =>
      s.sched == Unregistering(w) || s.sched == Closing(w) || (s.sched.Finding? && s.sched.why == ToDelete)
    case Batch(n) => s.handled <= n < s.handled + |s.batch| && s.batch[n - s.handled].bad
    case _ => false
  }

  /** The two ways to decide it: a call of it that is done, or a report of an error or a hangup. */
  ghost predicate Ends(s: State, e: Event, w: Id) {
    || (e.Call? && e.o.Done? && Holds(s, e.t, w))
    || (e.Wait? && w in s.objs && exists r <- e.batch :: r.fd == s.objs[w].fd && r.bad)
  }

  /** Alive, and its end not decided, unless e decided it. */
  ghost predicate GoesOn(s: State, e: Event, w: Id)
    requires Enabled(s, e)
  {
    var s' := Next(s, e);
    w in s'.objs && w in s.objs && s'.objs[w].fd == s.objs[w].fd && (Doomed(s', w) ==> Ends(s, e, w))
  }

  lemma DormantGoesOn(s: State, e: Event, w: Id)
    requires Around(s, e, w) && (s.place[w] == Dormant || s.place[w] == Armed) && !e.Wait?
    ensures GoesOn(s, e, w) && Same(s, Next(s, e), w)
  {
    if w in Touched(s, e) { TouchedPlace(s, e, w); }
    Untouched(s, e, w);
  }

  lemma WaitGoesOn(s: State, b: seq<Ready>, w: Id)
    requires Around(s, Wait(b), w) && !Doomed(s, w)
    ensures GoesOn(s, Wait(b), w)
    ensures s.place[w] == Dormant ==> Same(s, Next(s, Wait(b)), w)
  {
    if s.place[w] == Armed && IndexIn(b, s.objs[w].fd) < |b| {
      assert b[IndexIn(b, s.objs[w].fd)] in b;
    }
  }

  lemma PendingGoesOn(s: State, e: Event, w: Id)
    requires Around(s, e, w) && s.place[w].Batch? && !Doomed(s, w) && !e.Wait?
    ensures GoesOn(s, e, w)
  {
    if w in Touched(s, e) {
      TouchedPlace(s, e, w);
    } else {
      Untouched(s, e, w);
      if WorkerStep(e) { OnlyTheWorker(s, e); } else { EntryStays(s, e, s.place[w].n); }
    }
  }

  lemma EntryStays(s: State, e: Event, n: nat)
    requires Enabled(s, e) && !WorkerStep(e) && !e.Wait? && s.handled <= n < s.handled + |s.batch|
    ensures var s' := Next(s, e);
      s'.handled <= n ==> n < s'.handled + |s'.batch| && s'.batch[n - s'.handled] == s.batch[n - s.handled]
  {
    if !e.NextEvent? { OnlyTheScheduler(s, e); }
  }

  lemma QueuedGoesOn(s: State, e: Event, w: Id)
    requires Around(s, e, w) && s.place[w].Queue? && !e.Wait?
    ensures GoesOn(s, e, w)
  {
    if w in Touched(s, e) { TouchedPlace(s, e, w); } else { Untouched(s, e, w); }
  }

  lemma HeldGoesOn(s: State, e: Event, w: Id)
    requires Around(s, e, w) && s.place[w].AtWorker? && !Doomed(s, w) && !e.Wait?
    ensures GoesOn(s, e, w)
  {
    var t := s.place[w].t;
    if w in Touched(s, e) {
      TouchedPlace(s, e, w);
    } else {
      Untouched(s, e, w);
      if WorkerStep(e) { OnlyTheWorker(s, e); } else { OnlyTheScheduler(s, e); }
    }
  }

  lemma HandledGoesOn(s: State, e: Event, w: Id)
    requires Around(s, e, w) && s.place[w] == AtScheduler && !Doomed(s, w) && !e.Wait?
    ensures GoesOn(s, e, w)
  {
    if w in Touched(s, e) {
      TouchedPlace(s, e, w);
    } else {
      Untouched(s, e, w);
      if WorkerStep(e) { OnlyTheWorker(s, e); }
    }
  }

  lemma LifeGoesOn(s: State, e: Event, w: Id)
    requires Around(s, e, w) && !Doomed(s, w)
    ensures GoesOn(s, e, w)
  {
    if e.Wait? { WaitGoesOn(s, e.batch, w); }
    else {
      match s.place[w] {
        case Dormant => DormantGoesOn(s, e, w);
        case Armed => DormantGoesOn(s, e, w);
        case Batch(_) => PendingGoesOn(s, e, w);
        case Queue(_) => QueuedGoesOn(s, e, w);
        case AtWorker(_) => HeldGoesOn(s, e, w);
        case AtScheduler => HandledGoesOn(s, e, w);
        case Fixed =>
      }
    }
  }

  /** A connection's life ends only because its worker called it and the call was done, or because the kernel
      reported an error or a hangup of its descriptor: if it lives at i with its end not decided, and is gone at j,
      one of the two happened in between. */
  lemma {:induction false} GoneOnlyBy(run: seq<State>, es: seq<Event>, i: nat, j: nat, w: Id)
    requires Run(run, es) && i <= j < |run| && w in run[i].objs && IsConn(run[i].objs[w].fd) && !Doomed(run[i], w)
    ensures w !in run[j].objs || Doomed(run[j], w) ==> exists k :: i <= k < j && Ends(run[k], es[k], w)
    decreases j - i
  {
    if i < j {
      AroundAt(run, es, i, w);
      LifeGoesOn(run[i], es[i], w);
      if !Ends(run[i], es[i], w) { GoneOnlyBy(run, es, i + 1, j, w); }
    }
  }

  // ---------- done means deleted ----------

  lemma HandsStill(s: State, e: Event, t: Tid)
    requires Enabled(s, e) && !Next(s, e).crashed && t in s.workers && !OfWorker(e, t)
    ensures t in Next(s, e).workers && Next(s, e).workers[t] == s.workers[t]
  {
    if WorkerStep(e) { OnlyTheWorker(s, e); } else { OnlyTheScheduler(s, e); }
  }

  /** What a worker has in its hands stays there, as it is, until the worker's own next step. */
  lemma HeldStays(s: State, e: Event, t: Tid, w: Id)
    requires Around(s, e, w) && s.place[w] == AtWorker(t) && !OfWorker(e, t)
    ensures Same(s, Next(s, e), w)
  {
    if !e.Wait? {
      if w in Touched(s, e) { TouchedPlace(s, e, w); }
      Untouched(s, e, w);
    }
  }

  lemma {:induction false} HeldFor(run: seq<State>, es: seq<Event>, t: Tid, w: Id, i: nat, j: nat)
    requires Run(run, es) && i <= j < |run| && w in run[i].objs && w in run[i].place && t in run[i].workers
    requires IsConn(run[i].objs[w].fd) && run[i].place[w] == AtWorker(t)
    requires forall l :: i <= l < j ==> !OfWorker(es[l], t)
    ensures Same(run[i], run[j], w) && t in run[j].workers && run[j].workers[t] == run[i].workers[t]
    decreases j
  {
    if i < j {
      HeldFor(run, es, t, w, i, j - 1);
      AroundAt(run, es, j - 1, w);
      HeldStays(run[j - 1], es[j - 1], t, w);
      HandsStill(run[j - 1], es[j - 1], t);
    }
  }

  lemma UnlistLife(s: State, t: Tid, w: Id)
    requires Around(s, Unlist(t), w) && s.workers[t] == Unlisting(w)
    ensures Same(s, Next(s, Unlist(t)), w) && Next(s, Unlist(t)).workers[t] == Shutting(w)
    ensures s.place[w] == AtWorker(t)
  {
  }

  /** Worker t makes its next step after i with k. */
  ghost predicate NextOf(es: seq<Event>, t: Tid, i: nat, k: nat) {
    i < k < |es| && OfWorker(es[k], t) && forall l :: i < l < k ==> !OfWorker(es[l], t)
  }

  lemma UnlistsNext(run: seq<State>, es: seq<Event>, t: Tid, w: Id, k: nat, k1: nat)
    requires Run(run, es) && k < |es| && es[k] == Call(t, Done) && Holds(run[k], t, w) && NextOf(es, t, k, k1)
    ensures es[k1] == Unlist(t) && w in run[k].objs && w in run[k1 + 1].objs
    ensures run[k1 + 1].objs[w].fd == run[k].objs[w].fd
    ensures t in run[k1 + 1].workers && run[k1 + 1].workers[t] == Shutting(w)
  {
    CallEnds(run, es, k, t, Done, w);
    HeldIsConn(run, es, k + 1, t, w);
    HeldFor(run, es, t, w, k + 1, k1);
    AroundAt(run, es, k1, w);
    OnlyUnlist(run[k1], es[k1], t, w);
  }

  lemma OnlyUnlist(s: State, e: Event, t: Tid, w: Id)
    requires Around(s, e, w) && OfWorker(e, t) && t in s.workers && s.workers[t] == Unlisting(w)
    ensures e == Unlist(t) && Same(s, Next(s, e), w) && t in Next(s, e).workers && Next(s, e).workers[t] == Shutting(w)
  {
    UnlistLife(s, t, w);
  }

  lemma OnlyShut(s: State, e: Event, t: Tid, w: Id)
    requires Around(s, e, w) && OfWorker(e, t) && t in s.workers && s.workers[t] == Shutting(w)
    ensures e == Shut(t) && w !in Next(s, e).objs && s.objs[w].fd !in Next(s, e).k.open
  {
  }

  lemma ShutsNext(run: seq<State>, es: seq<Event>, t: Tid, w: Id, k1: nat, k2: nat)
    requires Run(run, es) && k1 < |es| && t in run[k1 + 1].workers && run[k1 + 1].workers[t] == Shutting(w)
    requires NextOf(es, t, k1, k2)
    ensures es[k2] == Shut(t) && w in run[k1 + 1].objs && w !in run[k2 + 1].objs
    ensures run[k1 + 1].objs[w].fd !in run[k2 + 1].k.open
  {
    HeldIsConn(run, es, k1 + 1, t, w);
    HeldFor(run, es, t, w, k1 + 1, k2);
    AroundAt(run, es, k2, w);
    OnlyShut(run[k2], es[k2], t, w);
  }

  /** After a call that is done, the worker's next two steps delete the connection: it is then gone, and its
      descriptor is closed and unknown to epoll and the work map. */
  lemma DoneIsDeleted(run: seq<State>, es: seq<Event>, t: Tid, w: Id, k: nat, k1: nat, k2: nat)
    requires Run(run, es) && k < |es| && es[k] == Call(t, Done) && Holds(run[k], t, w)
    requires NextOf(es, t, k, k1) && NextOf(es, t, k1, k2)
    ensures es[k1] == Unlist(t) && es[k2] == Shut(t)
    ensures w in run[k].objs && w !in run[k2 + 1].objs
    ensures var fd, s := run[k].objs[w].fd, run[k2 + 1];
      fd !in s.k.open && fd !in s.k.known && fd !in s.k.armed && fd !in s.wmap
  {
    UnlistsNext(run, es, t, w, k, k1);
    ShutsNext(run, es, t, w, k1, k2);
    RunInv(run, es, k2 + 1);
    assert FdOk(run[k2 + 1], run[k].objs[w].fd);
  }

  lemma HeldIsConn(run: seq<State>, es: seq<Event>, k: nat, t: Tid, w: Id)
    requires Run(run, es) && k < |run| && t in run[k].workers && Carries(run[k].workers[t], w)
    ensures w in run[k].objs && IsConn(run[k].objs[w].fd) && w in run[k].place && run[k].place[w] == AtWorker(t)
  {
    RunInv(run, es, k);
    assert WorkerOk(run[k], t) && ObjOk(run[k], w) && PlaceOk(run[k], w);
  }

  // ---------- dormant means left alone ----------

  lemma DormantStays(s: State, e: Event, w: Id)
    requires Around(s, e, w) && s.place[w] == Dormant
    ensures Same(s, Next(s, e), w)
  {
    if e.Wait? { WaitGoesOn(s, e.batch, w); } else { DormantGoesOn(s, e, w); }
  }

  lemma {:induction false} DormantFor(run: seq<State>, es: seq<Event>, w: Id, i: nat, j: nat)
    requires Run(run, es) && i <= j < |run| && w in run[i].objs && IsConn(run[i].objs[w].fd)
    requires w in run[i].place && run[i].place[w] == Dormant
    ensures Same(run[i], run[j], w)
    decreases j
  {
    if i < j {
      DormantFor(run, es, w, i, j - 1);
      AroundAt(run, es, j - 1, w);
      DormantStays(run[j - 1], es[j - 1], w);
    }
  }

  /** After a call that goes dormant the connection stays: alive, open, in the work map, and watched by nobody. */
  lemma DormantIsKept(run: seq<State>, es: seq<Event>, t: Tid, w: Id, k: nat, j: nat)
    requires Run(run, es) && k < |es| && es[k] == Call(t, GoesDormant) && Holds(run[k], t, w) && k < j < |run|
    ensures w in run[k].objs && w in run[j].objs && run[j].objs[w] == run[k].objs[w]
    ensures var fd, s := run[k].objs[w].fd, run[j];
      fd in s.k.open && fd in s.wmap && s.wmap[fd] == w && fd !in s.k.armed
  {
    HeldIsConn(run, es, k, t, w);
    CallEnds(run, es, k, t, GoesDormant, w);
    AroundAt(run, es, k, w);
    DormantFor(run, es, w, k + 1, j);
    RunInv(run, es, j);
    assert ObjOk(run[j], w) && PlaceOk(run[j], w) && FdOk(run[j], run[k].objs[w].fd);
  }

  /** Only a call of its own that went dormant makes a connection dormant. */
  lemma {:induction false} DormantOnlyBy(run: seq<State>, es: seq<Event>, n: nat, w: Id)
    requires Run(run, es) && n < |run| && w in run[n].place && run[n].place[w] == Dormant
    ensures exists k :: 0 <= k < n && es[k].Call? && es[k].o.GoesDormant? && Holds(run[k], es[k].t, w)
  {
    if n > 0 {
      RunInv(run, es, n - 1);
      assert StepAt(run, es, n - 1);
      RunInv(run, es, n);
      if WorkerStep(es[n - 1]) { OnlyTheWorker(run[n - 1], es[n - 1]); }
      else { OnlyTheScheduler(run[n - 1], es[n - 1]); }
      if w in run[n - 1].place && run[n - 1].place[w] == Dormant { DormantOnlyBy(run, es, n - 1, w); }
    }
  }

  // ---------- an accepted connection is watched, a dispatched one queued, a bad one deleted ----------

  /** The scheduler's own next step. */
  ghost predicate NextOfScheduler(es: seq<Event>, i: nat, k: nat) {
    i < k < |es| && !WorkerStep(es[k]) && forall l :: i < l < k ==> WorkerStep(es[l])
  }

  lemma {:induction false} SchedulerFor(run: seq<State>, es: seq<Event>, i: nat, j: nat)
    requires Run(run, es) && i <= j < |run| && forall l :: i <= l < j ==> WorkerStep(es[l])
    ensures run[j].sched == run[i].sched && run[j].dowork == run[i].dowork
    decreases j
  {
    if i < j {
      SchedulerFor(run, es, i, j - 1);
      RunInv(run, es, j);
      assert StepAt(run, es, j - 1);
      OnlyTheWorker(run[j - 1], es[j - 1]);
    }
  }

  lemma SchedulerKeeps(s: State, e: Event, w: Id)
    requires Around(s, e, w) && s.place[w] == AtScheduler && WorkerStep(e)
    ensures Same(s, Next(s, e), w)
  {
    if w in Touched(s, e) { TouchedPlace(s, e, w); }
    Untouched(s, e, w);
  }

  lemma {:induction false} KeptFor(run: seq<State>, es: seq<Event>, w: Id, i: nat, j: nat)
    requires Run(run, es) && i <= j < |run| && w in run[i].objs && w in run[i].place
    requires IsConn(run[i].objs[w].fd) && run[i].place[w] == AtScheduler
    requires forall l :: i <= l < j ==> WorkerStep(es[l])
    ensures Same(run[i], run[j], w)
    decreases j
  {
    if i < j {
      KeptFor(run, es, w, i, j - 1);
      AroundAt(run, es, j - 1, w);
      SchedulerKeeps(run[j - 1], es[j - 1], w);
    }
  }

  /** What the scheduler has in its hands is a live connection. */
  lemma HandledIsConn(run: seq<State>, es: seq<Event>, k: nat, w: Id)
    requires Run(run, es) && k < |run| && (run[k].sched == Adding(w) || run[k].sched == Queueing(w)
                                           || run[k].sched == Unregistering(w) || run[k].sched == Closing(w))
    ensures w in run[k].objs && IsConn(run[k].objs[w].fd) && w in run[k].place && run[k].place[w] == AtScheduler
  {
    RunInv(run, es, k);
    assert ObjOk(run[k], w) && PlaceOk(run[k], w);
  }

  lemma AddsNext(run: seq<State>, es: seq<Event>, k: nat, w: Id, k1: nat)
    requires Run(run, es) && k < |es| && run[k + 1].sched == Adding(w) && NextOfScheduler(es, k, k1)
    ensures es[k1] == Add && w in run[k + 1].objs && w in run[k1 + 1].objs
    ensures run[k1 + 1].objs[w] == run[k + 1].objs[w]
    ensures var work, s := run[k + 1].objs[w], run[k1 + 1];
      work.fd in s.k.armed && s.k.armed[work.fd] == work.m && work.fd in s.wmap && s.wmap[work.fd] == w
  {
    HandledIsConn(run, es, k + 1, w);
    SchedulerFor(run, es, k + 1, k1);
    KeptFor(run, es, w, k + 1, k1);
    AroundAt(run, es, k1, w);
    RunInv(run, es, k1 + 1);
    assert ObjOk(run[k1 + 1], w) && FdOk(run[k1 + 1], run[k1 + 1].objs[w].fd);
  }

  lemma FindsNext(run: seq<State>, es: seq<Event>, k: nat, fd: Fd, k1: nat)
    requires Run(run, es) && k < |es| && es[k] == Accept(fd) && NextOfScheduler(es, k, k1)
    ensures es[k1] == Find && run[k1].sched == Finding(fd, Read, ToAdd)
  {
    assert StepAt(run, es, k) && StepAt(run, es, k1);
    SchedulerFor(run, es, k + 1, k1);
  }

  /** An accepted descriptor is, two steps of the scheduler later, watched for reading by a new object. */
  lemma AcceptedIsWatched(run: seq<State>, es: seq<Event>, k: nat, fd: Fd, k1: nat, k2: nat)
    requires Run(run, es) && k < |es| && es[k] == Accept(fd)
    requires NextOfScheduler(es, k, k1) && NextOfScheduler(es, k1, k2)
    ensures var s := run[k2 + 1];
      && fd in s.k.armed && s.k.armed[fd] == Read && fd in s.wmap
      && s.wmap[fd] in s.objs && s.objs[s.wmap[fd]] == Work(fd, Read) && s.wmap[fd] !in run[k1].objs
  {
    FindsNext(run, es, k, fd, k1);
    AcceptedGetsNewObject(run, es, k1);
    AddsNext(run, es, k1, run[k1].nextId, k2);
  }

  /** A connection found for an event is queued, behind all jobs, with the scheduler's next step. */
  lemma FoundIsQueued(run: seq<State>, es: seq<Event>, k: nat, w: Id, k1: nat)
    requires Run(run, es) && k < |es| && run[k + 1].sched == Queueing(w) && NextOfScheduler(es, k, k1)
    ensures es[k1] == Enqueue && run[k1 + 1].jobq == run[k1].jobq + [Do(w)]
  {
    SchedulerFor(run, es, k + 1, k1);
    assert StepAt(run, es, k1);
  }

  lemma UnregistersNext(run: seq<State>, es: seq<Event>, k: nat, w: Id, k1: nat)
    requires Run(run, es) && k < |es| && run[k + 1].sched == Unregistering(w) && NextOfScheduler(es, k, k1)
    ensures es[k1] == Unregister && run[k1 + 1].sched == Closing(w) && w in run[k + 1].objs && w in run[k1 + 1].objs
    ensures run[k1 + 1].objs[w] == run[k + 1].objs[w]
  {
    HandledIsConn(run, es, k + 1, w);
    SchedulerFor(run, es, k + 1, k1);
    KeptFor(run, es, w, k + 1, k1);
    AroundAt(run, es, k1, w);
  }

  lemma ClosesNext(run: seq<State>, es: seq<Event>, k: nat, w: Id, k1: nat)
    requires Run(run, es) && k < |es| && run[k + 1].sched == Closing(w) && NextOfScheduler(es, k, k1)
    ensures es[k1] == Close && w in run[k + 1].objs && w !in run[k1 + 1].objs
    ensures run[k + 1].objs[w].fd !in run[k1 + 1].k.open
  {
    HandledIsConn(run, es, k + 1, w);
    SchedulerFor(run, es, k + 1, k1);
    KeptFor(run, es, w, k + 1, k1);
    AroundAt(run, es, k1, w);
  }

  /** A connection found for an error or a hangup is, two steps of the scheduler later, gone, and its descriptor
      closed and unknown to epoll and the work map. */
  lemma BadIsDeleted(run: seq<State>, es: seq<Event>, k: nat, w: Id, k1: nat, k2: nat)
    requires Run(run, es) && k < |es| && run[k + 1].sched == Unregistering(w)
    requires NextOfScheduler(es, k, k1) && NextOfScheduler(es, k1, k2)
    ensures es[k1] == Unregister && es[k2] == Close && w in run[k + 1].objs && w !in run[k2 + 1].objs
    ensures var fd, s := run[k + 1].objs[w].fd, run[k2 + 1];
      fd !in s.k.open && fd !in s.k.known && fd !in s.k.armed && fd !in s.wmap
  {
    UnregistersNext(run, es, k, w, k1);
    ClosesNext(run, es, k1, w, k2);
    RunInv(run, es, k2 + 1);
    assert FdOk(run[k2 + 1], run[k + 1].objs[w].fd);
  }

  /** A worker takes the oldest job, or the pill, and nothing else. */
  lemma TakenInOrder(run: seq<State>, es: seq<Event>, k: nat, t: Tid)
    requires Run(run, es) && k < |es| && es[k] == Take(t)
    ensures run[k].jobq != [] && run[k + 1].jobq == run[k].jobq[1..] && t in run[k + 1].workers
    ensures run[k + 1].workers[t] == match run[k].jobq[0] case Pill => HoldsPill case Do(w) => Holding(w)
  {
    assert StepAt(run, es, k);
  }

  // ---------- nobody is stuck ----------

  /** The scheduler can always go on, except at epoll_wait and when it has retired; so can a worker, except with
      nothing to do and when it has retired. (The system may always refuse an accept.) */
  lemma NobodyStuck(run: seq<State>, es: seq<Event>, k: nat)
    requires Run(run, es) && k < |run|
    ensures run[k].sched != Polling && run[k].sched != Gone ==> exists e :: !WorkerStep(e) && Enabled(run[k], e)
    ensures forall t <- run[k].workers ::
      run[k].workers[t] != Retired && (run[k].workers[t] != Idle || run[k].jobq != []) ==>
        exists e :: OfWorker(e, t) && Enabled(run[k], e)
  {
    RunInv(run, es, k);
    var s := run[k];
    var e := match s.sched
      case Handling => NextEvent
      case Accepting => AcceptNone
      case Signalled => Signal(false)
      case Halting => EnqPill
      case Finding(_, _, _) => Find
      case Adding(_) => Add
      case Queueing(_) => Enqueue
      case Unregistering(_) => Unregister
      case _ => Close;
    if s.sched != Polling && s.sched != Gone { assert !WorkerStep(e) && Enabled(s, e); }
    forall t | t in s.workers && s.workers[t] != Retired && (s.workers[t] != Idle || s.jobq != [])
      ensures exists e :: OfWorker(e, t) && Enabled(s, e)
    {
      var e := match s.workers[t]
        case Idle => Take(t)
        case Holding(_) => Call(t, Done)
        case Unlisting(_) => Unlist(t)
        case Shutting(_) => Shut(t)
        case _ => PutBack(t);
      assert OfWorker(e, t) && Enabled(s, e);
    }
  }
}
