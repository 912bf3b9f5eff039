/** What holds over whole runs of `Dispatch`: one place per connection, the work map and the kernel agree,
    and an orderly shutdown. */
module DispatchRuns {
  import opened Sums
  import opened Dispatch

  ghost predicate StepAt(run: seq<State>, es: seq<Event>, i: nat)
    requires |run| == |es| + 1 && i < |es|
  {
    Enabled(run[i], es[i]) && run[i + 1] == Next(run[i], es[i])
  }

  ghost predicate Run(run: seq<State>, es: seq<Event>) {
    && |run| == |es| + 1 && Init(run[0])
    && forall i {:trigger StepAt(run, es, i)} :: 0 <= i < |es| ==> StepAt(run, es, i)
  }

  lemma {:induction false} RunInv(run: seq<State>, es: seq<Event>, i: nat)
    requires Run(run, es) && i < |run|
    ensures Inv(run[i])
  {
    if i == 0 {
      InitInv(run[0]);
    } else {
      RunInv(run, es, i - 1);
      assert StepAt(run, es, i - 1);
      NextInv(run[i - 1], es[i - 1]);
    }
  }

  // ---------- one place per connection ----------

  /** The six places a connection's work object can be in. In the queue, the batch and with a worker it is
      there once. */
  ghost predicate InEpoll(s: State, w: Id)
    requires w in s.objs
  {
    s.objs[w].fd in s.k.armed
  }

  ghost predicate InBatch(s: State, w: Id)
    requires w in s.objs
  {
    exists i :: 0 <= i < |s.batch| && s.batch[i].fd == s.objs[w].fd
  }

  ghost predicate InQueue(s: State, w: Id) { Do(w) in s.jobq }

  ghost predicate WithWorker(s: State, w: Id) { exists t :: t in s.workers && Carries(s.workers[t], w) }

  ghost predicate WithScheduler(s: State, w: Id) { Handles(s, w) }

  /** It is in exactly one of the places, or nowhere but in the work map: dormant. */
  ghost predicate OnePlace(s: State, w: Id)
    requires w in s.objs && w in s.place
  {
    && (InEpoll(s, w) <==> s.place[w] == Armed)
    && (InBatch(s, w) <==> s.place[w].Batch?)
    && (InQueue(s, w) <==> s.place[w].Queue?)
    && (WithWorker(s, w) <==> s.place[w].AtWorker?)
    && (WithScheduler(s, w) <==> s.place[w] == AtScheduler)
  }

  /** Nor twice in the same one. */
  ghost predicate Once(s: State, w: Id)
    requires w in s.objs
  {
    && (forall i, j :: 0 <= i < |s.batch| && 0 <= j < |s.batch| && s.batch[i].fd == s.batch[j].fd == s.objs[w].fd ==>
          i == j)
    && (forall i, j :: 0 <= i < |s.jobq| && 0 <= j < |s.jobq| && s.jobq[i] == s.jobq[j] == Do(w) ==> i == j)
    && (forall t, u :: t in s.workers && u in s.workers && Carries(s.workers[t], w) && Carries(s.workers[u], w) ==>
          t == u)
  }

  lemma OnePlacePerConnection(run: seq<State>, es: seq<Event>, n: nat, w: Id)
    requires Run(run, es) && n < |run|
    requires w in run[n].objs && IsConn(run[n].objs[w].fd)
    ensures w in run[n].place && OnePlace(run[n], w) && Once(run[n], w)
  {
    RunInv(run, es, n);
    var s := run[n];
    assert ObjOk(s, w) && PlaceOk(s, w);
    var fd := s.objs[w].fd;
    forall i: nat | i < |s.batch| && s.batch[i].fd == fd ensures s.place[w] == Batch(s.handled + i) {
      assert EventOk(s, i);
    }
    forall i: nat | i < |s.jobq| && s.jobq[i] == Do(w) ensures s.place[w] == Queue(s.taken + i) { assert JobOk(s, i); }
    forall t | t in s.workers && Carries(s.workers[t], w) ensures s.place[w] == AtWorker(t) { assert WorkerOk(s, t); }
  }

  // ---------- the work map and the kernel ----------

  /** Every key of the work map is an open descriptor and maps to the live object owning it; no other
      object has that descriptor; epoll watches only open descriptors. */
  lemma WorkMapAgrees(run: seq<State>, es: seq<Event>, n: nat)
    requires Run(run, es) && n < |run|
    ensures var s := run[n];
      && !s.crashed
      && (forall f <- s.wmap :: f in s.k.open && s.wmap[f] in s.objs && s.objs[s.wmap[f]].fd == f)
      && (forall v <- s.objs, w <- s.objs :: s.objs[v].fd == s.objs[w].fd ==> v == w)
      && s.k.armed.Keys <= s.k.known <= s.k.open
  {
    RunInv(run, es, n);
    var s := run[n];
    forall f | f in s.wmap || f in s.k.known || f in s.k.armed
      ensures f in s.k.open && (f in s.k.armed ==> f in s.k.known)
      ensures f in s.wmap ==> s.wmap[f] in s.objs && s.objs[s.wmap[f]].fd == f
    {
      assert FdOk(s, f);
    }
    forall v, w | v in s.objs && w in s.objs && s.objs[v].fd == s.objs[w].fd ensures v == w {
      assert ObjOk(s, v) && ObjOk(s, w);
    }
  }

  /** The descriptor accepted last always gets a new object, even if its number was used before; adding it
      to epoll then succeeds. */
  lemma AcceptedGetsNewObject(run: seq<State>, es: seq<Event>, n: nat)
    requires Run(run, es) && n < |es| && es[n] == Find && run[n].sched.Finding? && run[n].sched.why == ToAdd
    ensures var s, s' := run[n], run[n + 1];
      && s'.sched == Adding(s.nextId) && s.nextId !in s.objs && s'.objs == s.objs[s.nextId := Work(s.sched.fd, Read)]
      && s.sched.fd !in s.k.known && s.sched.fd !in s.wmap
  {
    RunInv(run, es, n);
    assert StepAt(run, es, n);
    assert FdOk(run[n], run[n].sched.fd) && ObjOk(run[n], run[n].nextId);
  }

  /** The scheduler is to find the object of an event. */
  predicate LooksUp(s: State) { s.sched.Finding? && s.sched.why != ToAdd }

  /** Object w, unchanged, waits in the batch until it is its turn, and then is what the scheduler looks
      for. Its position n counts from the beginning. */
  ghost predicate Tracked(s: State, w: Id, work: Work, n: nat) {
    && (s.handled <= n ==> w in s.objs && s.objs[w] == work && w in s.place && s.place[w] == Batch(n))
    && (s.handled == n + 1 && LooksUp(s) ==> w in s.objs && s.objs[w] == work && s.sched.fd == work.fd)
  }

  lemma TakeTracked(s: State, t: Tid, w: Id, work: Work, n: nat)
    requires Enabled(s, Take(t)) && Tracked(s, w, work, n) && JobOk(s, 0) && PlaceOk(s, w)
    requires SchedOk(s) && ObjOk(s, w)
    ensures Tracked(DoTake(s, t), w, work, n)
  {
  }

  lemma CallTracked(s: State, t: Tid, o: Outcome, w: Id, work: Work, n: nat)
    requires Enabled(s, Call(t, o)) && Tracked(s, w, work, n)
    requires PlaceOk(s, w) && WorkerOk(s, t) && SchedOk(s) && ObjOk(s, w)
    ensures Tracked(Next(s, Call(t, o)), w, work, n)
  {
  }

  lemma UnlistTracked(s: State, t: Tid, w: Id, work: Work, n: nat)
    requires Enabled(s, Unlist(t)) && Tracked(s, w, work, n)
    requires PlaceOk(s, w) && WorkerOk(s, t) && SchedOk(s) && ObjOk(s, w)
    ensures Tracked(Next(s, Unlist(t)), w, work, n)
  {
  }

  lemma ShutTracked(s: State, t: Tid, w: Id, work: Work, n: nat)
    requires Enabled(s, Shut(t)) && Tracked(s, w, work, n)
    requires PlaceOk(s, w) && WorkerOk(s, t) && SchedOk(s) && ObjOk(s, w)
    ensures Tracked(Next(s, Shut(t)), w, work, n)
  {
  }

  lemma PutBackTracked(s: State, t: Tid, w: Id, work: Work, n: nat)
    requires Enabled(s, PutBack(t)) && Tracked(s, w, work, n)
    requires PlaceOk(s, w) && WorkerOk(s, t) && SchedOk(s) && ObjOk(s, w)
    ensures Tracked(Next(s, PutBack(t)), w, work, n)
  {
  }

  lemma NextEventTracked(s: State, w: Id, work: Work, n: nat)
    requires Enabled(s, NextEvent) && Tracked(s, w, work, n) && ObjOk(s, w) && PlaceOk(s, w) && EventOk(s, 0)
    ensures Tracked(DoNextEvent(s), w, work, n)
  {
  }

  lemma WaitTracked(s: State, b: seq<Ready>, w: Id, work: Work, n: nat)
    requires Enabled(s, Wait(b)) && Tracked(s, w, work, n) && ObjOk(s, w) && PlaceOk(s, w) && SchedOk(s)
    ensures Tracked(DoWait(s, b), w, work, n)
  {
  }

  lemma DeletingTracked(s: State, e: Event, w: Id, work: Work, n: nat)
    requires Enabled(s, e) && Tracked(s, w, work, n) && ObjOk(s, w) && PlaceOk(s, w) && SchedOk(s)
    requires e.Unregister? || e.Close?
    ensures Tracked(Next(s, e), w, work, n)
  {
  }

  lemma SchedulerTracked(s: State, e: Event, w: Id, work: Work, n: nat)
    requires Enabled(s, e) && Tracked(s, w, work, n) && ObjOk(s, w) && PlaceOk(s, w) && SchedOk(s) && ObjOk(s, s.nextId)
    requires !e.Take? && !e.Unlist? && !e.Shut? && !e.PutBack? && !e.Call? && !e.NextEvent? && !e.Wait?
    requires !e.Unregister? && !e.Close?
    ensures Tracked(Next(s, e), w, work, n)
  {
  }

  lemma WorkerTracked(s: State, e: Event, w: Id, work: Work, n: nat)
    requires Enabled(s, e) && Tracked(s, w, work, n) && ObjOk(s, w) && PlaceOk(s, w) && SchedOk(s)
    requires e.Unlist? || e.Shut? || e.PutBack? || e.Call?
    requires WorkerOk(s, e.t)
    ensures Tracked(Next(s, e), w, work, n)
  {
    if e.Call? { CallTracked(s, e.t, e.o, w, work, n); }
    else if e.Unlist? { UnlistTracked(s, e.t, w, work, n); }
    else if e.Shut? { ShutTracked(s, e.t, w, work, n); }
    else { PutBackTracked(s, e.t, w, work, n); }
  }

  lemma StepTracked(s: State, e: Event, w: Id, work: Work, n: nat)
    requires Inv(s) && Enabled(s, e) && Tracked(s, w, work, n)
    ensures Tracked(Next(s, e), w, work, n)
  {
    assert ObjOk(s, w) && PlaceOk(s, w) && ObjOk(s, s.nextId) && JobOk(s, 0) && EventOk(s, 0);
    if e.Take? {
      TakeTracked(s, e.t, w, work, n);
    } else if e.Unlist? || e.Shut? || e.PutBack? || e.Call? {
      assert WorkerOk(s, e.t);
      WorkerTracked(s, e, w, work, n);
    } else if e.NextEvent? {
      NextEventTracked(s, w, work, n);
    } else if e.Wait? {
      WaitTracked(s, e.batch, w, work, n);
    } else if e.Unregister? || e.Close? {
      DeletingTracked(s, e, w, work, n);
    } else {
      SchedulerTracked(s, e, w, work, n);
    }
  }

  lemma {:induction false} StaysTracked(run: seq<State>, es: seq<Event>, i: nat, j: nat, w: Id, work: Work, n: nat)
    requires Run(run, es) && i <= j < |run| && Tracked(run[i], w, work, n)
    ensures Tracked(run[j], w, work, n)
    decreases j
  {
    if i < j {
      StaysTracked(run, es, i, j - 1, w, work, n);
      RunInv(run, es, j - 1);
      assert StepAt(run, es, j - 1);
      StepTracked(run[j - 1], es[j - 1], w, work, n);
    }
  }

  /** The object found for an event is the one that was armed when the kernel reported it, unchanged, no
      matter what workers did meanwhile; and its mode is the kind of the event. */
  lemma DispatchedIsArmed(run: seq<State>, es: seq<Event>, i: nat, k: nat, j: nat)
    requires Run(run, es) && i < j < |es| && es[i].Wait? && k < |es[i].batch| && IsConn(es[i].batch[k].fd)
    requires es[j] == Find && LooksUp(run[j]) && run[j].handled == run[i].handled + k + 1
    ensures var fd := es[i].batch[k].fd;
      && fd in run[i].owner && run[i].owner[fd] in run[i].objs
      && var w := run[i].owner[fd];
      && fd in run[i].k.armed && run[i].objs[w] == Work(fd, run[i].k.armed[fd])
      && run[j + 1].objs == run[j].objs && w in run[j].objs && run[j].objs[w] == run[i].objs[w]
      && run[j + 1].sched == (if run[j].sched.why == ToQueue then Queueing(w) else Unregistering(w))
      && (run[j].sched.why == ToQueue ==> run[j].sched.m == run[i].k.armed[fd])
  {
    var fd := es[i].batch[k].fd;
    RunInv(run, es, i);
    assert StepAt(run, es, i) && FdOk(run[i], fd);
    var w := run[i].owner[fd];
    assert ObjOk(run[i], w) && PlaceOk(run[i], w);
    IndexOnce(run[i].k, es[i].batch, k);
    StaysTracked(run, es, i + 1, j, w, run[i].objs[w], run[i].handled + k);
    RunInv(run, es, j);
    assert StepAt(run, es, j) && ObjOk(run[j], w) && FdOk(run[j], fd);
  }

  /** The scheduler is never puzzled: an event of a connection is an error, and then its object is to be
      deleted, or is what its object waits for, and then it is to be queued; never both readable and
      writable. */
  lemma NeverPuzzled(run: seq<State>, es: seq<Event>, n: nat)
    requires Run(run, es) && n < |run| && run[n].batch != []
    ensures var s, r := run[n], run[n].batch[0];
      && HandlerOf(r) != Handling && (IsConn(r.fd) ==> !(r.readable && r.writable))
      && (IsConn(r.fd) ==> r.fd in s.owner && s.owner[r.fd] in s.objs)
      && (IsConn(r.fd) ==>
            HandlerOf(r) == if r.bad then Finding(r.fd, Read, ToDelete)
                            else Finding(r.fd, s.objs[s.owner[r.fd]].m, ToQueue))
  {
    RunInv(run, es, n);
    var s := run[n];
    assert EventOk(s, 0);
    if IsConn(s.batch[0].fd) { assert ObjOk(s, s.owner[s.batch[0].fd]) && PlaceOk(s, s.owner[s.batch[0].fd]); }
  }

  // ---------- shutdown ----------

  /** From the moment `halt` has queued the pill. */
  predicate Halted(s: State) { !s.dowork && s.sched != Halting }

  ghost predicate HoldsIt(s: State, t: Tid) {
    t in s.workers && s.workers[t] == HoldsPill && forall u <- s.workers :: s.workers[u] == HoldsPill ==> u == t
  }

  /** There is one pill: last in the queue, or with one worker and then the queue is empty. Before, there is
      none, and no worker has retired. */
  lemma OnePill(run: seq<State>, es: seq<Event>, n: nat)
    requires Run(run, es) && n < |run|
    ensures var s := run[n];
      if !Halted(s) then
        Pill !in s.jobq && forall t <- s.workers :: s.workers[t] != HoldsPill && s.workers[t] != Retired
      else if s.jobq != [] && s.jobq[|s.jobq| - 1] == Pill then
        Pill !in s.jobq[..|s.jobq| - 1] && forall t <- s.workers :: s.workers[t] != HoldsPill
      else
        s.jobq == [] && exists t :: HoldsIt(s, t)
  {
    RunInv(run, es, n);
    var s := run[n];
    forall t | t in s.workers ensures s.workers[t] == HoldsPill ==> s.pill == PillHeld(t) { assert WorkerOk(s, t); }
    forall t | t in s.workers ensures s.workers[t] == Retired ==> s.pill != NoPill { assert WorkerOk(s, t); }
    if s.pill.PillHeld? { assert HoldsIt(s, s.pill.t); }
    forall i: nat | i < |s.jobq| ensures s.jobq[i] == Pill ==> i == |s.jobq| - 1 && s.pill == PillQueued {
      assert JobOk(s, i);
    }
  }

  predicate WorkerStep(e: Event) { e.Take? || e.Call? || e.Unlist? || e.Shut? || e.PutBack? }

  /** A halt signal was handled. */
  ghost predicate HaltSignalled(es: seq<Event>, n: nat) {
    n <= |es| && exists k :: 0 <= k < n && es[k] == Signal(true)
  }

  /** A worker's call of w that goes dormant. */
  predicate CalledDormant(s: State, e: Event, w: Id) {
    e.Call? && e.o.GoesDormant? && e.t in s.workers && s.workers[e.t] == Holding(w)
  }

  ghost predicate NoneNewlyDormant(s: State, e: Event, s': State) {
    forall w <- s'.place :: s'.place[w] == Dormant ==> (w in s.place && s.place[w] == Dormant) || CalledDormant(s, e, w)
  }

  /** What a worker's step leaves alone: the scheduler and the other workers. */
  ghost predicate WorkerOnly(s: State, e: Event, s': State)
    requires WorkerStep(e)
  {
    && s'.sched == s.sched && s'.batch == s.batch && s'.handled == s.handled && s'.dowork == s.dowork
    && e.t in s'.workers && s'.workers == s.workers[e.t := s'.workers[e.t]] && NoneNewlyDormant(s, e, s')
  }

  /** What the scheduler's step leaves alone: the workers, and but for its own loop the batch. */
  ghost predicate SchedulerOnly(s: State, e: Event, s': State) {
    && s'.workers == s.workers && s'.dowork == (s.dowork && e != Signal(true)) && NoneNewlyDormant(s, e, s')
    && (e.Wait? || e.NextEvent? || (s'.batch == s.batch && s'.handled == s.handled))
  }

  lemma TakeOnly(s: State, e: Event)
    requires Enabled(s, e) && e.Take?
    ensures WorkerOnly(s, e, DoTake(s, e.t))
  {
  }

  lemma CallOnly(s: State, t: Tid, w: Id, o: Outcome)
    requires t in s.workers && s.workers[t] == Holding(w) && !DoCall(s, t, w, o).crashed
    ensures WorkerOnly(s, Call(t, o), DoCall(s, t, w, o))
  {
  }

  lemma DeleteOnly(s: State, e: Event)
    requires Enabled(s, e) && (e.Unlist? || e.Shut? || e.PutBack?)
    ensures WorkerOnly(s, e, Next(s, e))
  {
  }

  lemma OnlyTheWorker(s: State, e: Event)
    requires Enabled(s, e) && WorkerStep(e) && !Next(s, e).crashed
    ensures WorkerOnly(s, e, Next(s, e))
  {
    if e.Take? { TakeOnly(s, e); }
    else if e.Call? { CallOnly(s, e.t, s.workers[e.t].w, e.o); }
    else { DeleteOnly(s, e); }
  }

  lemma LoopOnly(s: State, e: Event)
    requires Enabled(s, e) && (e.Wait? || e.NextEvent? || e.AcceptNone? || e.Accept?)
    ensures SchedulerOnly(s, e, Next(s, e))
  {
  }

  lemma FindOnly(s: State, e: Event)
    requires Enabled(s, e) && (e.Find? || e.Add? || e.Enqueue?)
    ensures SchedulerOnly(s, e, Next(s, e))
  {
  }

  lemma SignalOnly(s: State, e: Event)
    requires Enabled(s, e) && (e.Signal? || e.EnqPill?)
    ensures SchedulerOnly(s, e, Next(s, e))
  {
  }

  lemma UnregisterOnly(s: State)
    requires Enabled(s, Unregister)
    ensures SchedulerOnly(s, Unregister, Next(s, Unregister))
  {
  }

  lemma CloseOnly(s: State)
    requires Enabled(s, Close)
    ensures SchedulerOnly(s, Close, Next(s, Close))
  {
  }

  lemma OnlyTheScheduler(s: State, e: Event)
    requires Enabled(s, e) && !WorkerStep(e)
    ensures SchedulerOnly(s, e, Next(s, e))
  {
    if e.Wait? || e.NextEvent? || e.AcceptNone? || e.Accept? { LoopOnly(s, e); }
    else if e.Find? || e.Add? || e.Enqueue? { FindOnly(s, e); }
    else if e.Signal? || e.EnqPill? { SignalOnly(s, e); }
    else if e.Unregister? { UnregisterOnly(s); }
    else { CloseOnly(s); }
  }

  lemma DoworkAfter(run: seq<State>, es: seq<Event>, n: nat)
    requires Run(run, es) && n < |es|
    ensures run[n + 1].dowork == (run[n].dowork && es[n] != Signal(true))
  {
    assert StepAt(run, es, n);
    RunInv(run, es, n + 1);
    if WorkerStep(es[n]) { OnlyTheWorker(run[n], es[n]); } else { OnlyTheScheduler(run[n], es[n]); }
  }

  /** The server is stopping exactly from a halt signal on. */
  lemma {:induction false} StoppingIff(run: seq<State>, es: seq<Event>, n: nat)
    requires Run(run, es) && n < |run|
    ensures run[n].dowork <==> !HaltSignalled(es, n)
  {
    if n > 0 {
      StoppingIff(run, es, n - 1);
      DoworkAfter(run, es, n - 1);
      assert HaltSignalled(es, n) <==> HaltSignalled(es, n - 1) || es[n - 1] == Signal(true);
    }
  }

  lemma HaltingStep(s: State, e: Event)
    requires Enabled(s, e) && s.sched == Halting && PillOk(s)
    ensures !Next(s, e).dowork
    ensures WorkerStep(e) ==> Next(s, e).sched == Halting
    ensures !WorkerStep(e) ==> e == EnqPill && Halted(Next(s, e))
    ensures !WorkerStep(e) ==> Next(s, e) == s.(jobq := s.jobq + [Pill], pill := PillQueued, sched := Handling)
  {
  }

  /** What a halt signal leads to: the scheduler's next step queues the pill behind all jobs, and does nothing
      else. */
  lemma HaltQueuesPill(run: seq<State>, es: seq<Event>, k: nat, j: nat)
    requires Run(run, es) && k < j < |es| && es[k] == Signal(true) && !WorkerStep(es[j])
    requires forall l :: k < l < j ==> WorkerStep(es[l])
    ensures es[j] == EnqPill && run[j + 1].jobq == run[j].jobq + [Pill] && Halted(run[j + 1])
  {
    HaltingFor(run, es, k, j);
    RunInv(run, es, j);
    assert StepAt(run, es, j);
    HaltingStep(run[j], es[j]);
  }

  lemma {:induction false} HaltingFor(run: seq<State>, es: seq<Event>, k: nat, j: nat)
    requires Run(run, es) && k < j < |run| && es[k] == Signal(true)
    requires forall l :: k < l < j ==> WorkerStep(es[l])
    ensures run[j].sched == Halting
    decreases j
  {
    assert StepAt(run, es, j - 1);
    if k + 1 < j {
      HaltingFor(run, es, k, j - 1);
      RunInv(run, es, j - 1);
      HaltingStep(run[j - 1], es[j - 1]);
    }
  }

  lemma HaltedStep(s: State, e: Event)
    requires Enabled(s, e) && Halted(s) && PillOk(s)
    ensures Halted(Next(s, e)) && (WorkerStep(e) || (e == NextEvent && Next(s, e) == s.(sched := Gone)))
  {
  }

  /** No job is queued behind the pill, and the scheduler does nothing more but retire. */
  lemma NothingAfterHalt(run: seq<State>, es: seq<Event>, n: nat)
    requires Run(run, es) && n < |es| && Halted(run[n])
    ensures Halted(run[n + 1])
    ensures WorkerStep(es[n]) || (es[n] == NextEvent && run[n + 1] == run[n].(sched := Gone))
  {
    RunInv(run, es, n);
    assert StepAt(run, es, n);
    HaltedStep(run[n], es[n]);
  }

  /** A worker sees the pill only when every job queued was taken. */
  lemma PillLast(run: seq<State>, es: seq<Event>, n: nat, t: Tid)
    requires Run(run, es) && n < |run| && t in run[n].workers
    requires run[n].workers[t] == HoldsPill
    ensures run[n].jobq == [] && Halted(run[n])
  {
    RunInv(run, es, n);
    assert WorkerOk(run[n], t);
  }

  /** What is left to do after `halt`. */
  function Weight(pc: WorkerPC): nat {
    match pc
    case Idle => 2
    case Holding(_) => 5
    case Unlisting(_) => 4
    case Shutting(_) => 3
    case HoldsPill => 1
    case Retired => 0
  }

  function Weights(workers: map<Tid, WorkerPC>): map<Tid, nat> { map t | t in workers :: Weight(workers[t]) }

  function JobsLeft(q: seq<Job>): nat {
    if q == [] then 0 else (if q[0].Do? then 1 else 0) + JobsLeft(q[1..])
  }

  lemma {:induction false} JobsLeftAppend(q: seq<Job>, j: Job)
    ensures JobsLeft(q + [j]) == JobsLeft(q) + if j.Do? then 1 else 0
  {
    if q == [] {
      assert q + [j] == [j] && [j][1..] == [];
    } else {
      assert (q + [j])[1..] == q[1..] + [j];
      JobsLeftAppend(q[1..], j);
    }
  }

  ghost function Measure(s: State): nat {
    4 * JobsLeft(s.jobq) + Sum(Weights(s.workers)) + Until(s.sched)
  }

  function Until(pc: SchedPC): nat {
    match pc
    case Gone => 0
    case Halting => 2
    case _ => 1
  }

  lemma WeightsSet(workers: map<Tid, WorkerPC>, t: Tid, pc: WorkerPC)
    requires t in workers
    ensures Sum(Weights(workers[t := pc])) == Sum(Weights(workers)) + Weight(pc) - Weight(workers[t])
  {
    assert Weights(workers[t := pc]) == Weights(workers)[t := Weight(pc)];
    SumSet(Weights(workers), t, Weight(pc));
  }

  lemma TakeLighter(s: State, t: Tid) returns (pc: WorkerPC)
    requires Enabled(s, Take(t))
    ensures DoTake(s, t).workers == s.workers[t := pc] && DoTake(s, t).sched == s.sched
    ensures 4 * JobsLeft(DoTake(s, t).jobq) + Weight(pc) < 4 * JobsLeft(s.jobq) + Weight(s.workers[t])
  {
    pc := DoTake(s, t).workers[t];
  }

  lemma CallLighter(s: State, t: Tid, w: Id, o: Outcome) returns (pc: WorkerPC)
    requires t in s.workers && s.workers[t] == Holding(w) && !DoCall(s, t, w, o).crashed
    ensures var s' := DoCall(s, t, w, o);
      s'.workers == s.workers[t := pc] && Weight(pc) < Weight(s.workers[t]) && s'.jobq == s.jobq && s'.sched == s.sched
  {
    pc := if o.Done? then Unlisting(w) else Idle;
  }

  lemma DeleteLighter(s: State, e: Event) returns (pc: WorkerPC)
    requires e.Unlist? || e.Shut? || e.PutBack?
    requires Enabled(s, e) && !Next(s, e).crashed
    ensures Next(s, e).workers == s.workers[e.t := pc] && Weight(pc) < Weight(s.workers[e.t])
    ensures Next(s, e).jobq == (if e.PutBack? then s.jobq + [Pill] else s.jobq) && Next(s, e).sched == s.sched
  {
    pc := if e.Unlist? then Shutting(s.workers[e.t].w) else if e.Shut? then Idle else Retired;
  }

  lemma LighterWorker(s: State, e: Event)
    requires WorkerStep(e) && Enabled(s, e) && !Next(s, e).crashed
    ensures Measure(Next(s, e)) < Measure(s)
  {
    if e.Take? {
      var pc := TakeLighter(s, e.t);
      WeightsSet(s.workers, e.t, pc);
    } else if e.Call? {
      var pc := CallLighter(s, e.t, s.workers[e.t].w, e.o);
      WeightsSet(s.workers, e.t, pc);
    } else {
      var pc := DeleteLighter(s, e);
      WeightsSet(s.workers, e.t, pc);
      JobsLeftAppend(s.jobq, Pill);
    }
  }

  lemma LighterScheduler(s: State, e: Event)
    requires Enabled(s, e) && !WorkerStep(e) && !s.dowork && PillOk(s)
    ensures Measure(Next(s, e)) < Measure(s)
  {
    if s.sched == Halting {
      HaltingStep(s, e);
      JobsLeftAppend(s.jobq, Pill);
    } else {
      HaltedStep(s, e);
    }
  }

  /** Jobs left and live workers: every step after a halt signal makes the measure smaller. */
  lemma ShutdownDecreases(run: seq<State>, es: seq<Event>, n: nat)
    requires Run(run, es) && n < |es| && HaltSignalled(es, n)
    ensures Measure(run[n + 1]) < Measure(run[n])
  {
    RunInv(run, es, n);
    StoppingIff(run, es, n);
    assert StepAt(run, es, n);
    var s, e := run[n], es[n];
    if WorkerStep(e) {
      if s.workers[e.t].Holding? || s.workers[e.t].Unlisting? || s.workers[e.t].Shutting? {
        assert WorkerOk(s, e.t) && ObjOk(s, s.workers[e.t].w);
      }
      RunInv(run, es, n + 1);
      LighterWorker(s, e);
    } else {
      LighterScheduler(s, e);
    }
  }

  /** So at most so many steps follow a halt signal. */
  lemma {:induction false} ShutdownEnds(run: seq<State>, es: seq<Event>, n: nat)
    requires Run(run, es) && n < |run| && HaltSignalled(es, n)
    ensures |es| - n <= Measure(run[n])
    decreases |es| - n
  {
    if n < |es| {
      ShutdownDecreases(run, es, n);
      ShutdownEnds(run, es, n + 1);
    }
  }

  lemma AllRetired(s: State)
    requires !s.crashed && PillOk(s) && Halted(s) && forall e :: !Enabled(s, e)
    ensures forall t <- s.workers :: s.workers[t] == Retired
    ensures s.pill == PillQueued
  {
    var u := if s.pill.PillHeld? then s.pill.t else 0;
    assert !Enabled(s, PutBack(u));
    forall t | t in s.workers ensures s.workers[t] == Retired {
      assert !Enabled(s, PutBack(t)) && !Enabled(s, Call(t, Done)) && !Enabled(s, Unlist(t)) && !Enabled(s, Shut(t));
      assert !Enabled(s, Take(t));
    }
  }

  /** Armed, pending, or dormant. */
  ghost predicate Waits(s: State, w: Id)
    requires w in s.objs
  {
    InEpoll(s, w) || InBatch(s, w) || (w in s.place && s.place[w] == Dormant)
  }

  /** And the run can go on until the scheduler and every worker has retired. The pill is then alone in the
      queue, and each connection waits in epoll or in the rest of the batch, or is dormant. */
  lemma StuckMeansRetired(run: seq<State>, es: seq<Event>, n: nat)
    requires Run(run, es) && n < |run| && HaltSignalled(es, n)
    requires run[n].workers != map[] && forall e :: !Enabled(run[n], e)
    ensures var s := run[n];
      && s.sched == Gone && (forall t <- s.workers :: s.workers[t] == Retired)
      && s.jobq == [Pill]
      && forall w <- s.objs :: IsConn(s.objs[w].fd) ==> Waits(s, w)
  {
    RunInv(run, es, n);
    var s := run[n];
    StoppingIff(run, es, n);
    assert !Enabled(s, NextEvent) && !Enabled(s, EnqPill);
    AllRetired(s);
    var t :| t in s.workers;
    assert WorkerOk(s, t) && JobOk(s, 0);
    forall w | w in s.objs && IsConn(s.objs[w].fd) ensures Waits(s, w) {
      OnePlacePerConnection(run, es, n, w);
      assert PlaceOk(s, w) && !InQueue(s, w) && !WithWorker(s, w) && !WithScheduler(s, w);
    }
  }
}
