/** The protocol over file descriptors between the kernel, the scheduler, the job queue, the workers and the
    work map (src/Scheduler.cpp, src/Worker.cpp, src/FindWork_prealloc.hpp, src/Work.cpp), with signals
    taken from a descriptor. Scheduler and workers interleave; the queue takes one step per operation. */
module Dispatch {
  type Fd = nat
  type Id = nat
  type Tid = nat

  /** The listening socket and the signal descriptor, which are watched all the time. */
  const LISTEN: Fd := 3
  const SIGNALS: Fd := 4

  datatype Mode = Read | Write
  datatype Work = Work(fd: Fd, m: Mode)
  datatype Job = Pill | Do(w: Id)

  /** One entry of what `epoll_wait` returns: error or hangup, readable, writable. */
  datatype Ready = Ready(fd: Fd, bad: bool, readable: bool, writable: bool)

  /** Open descriptors; those epoll knows; those it is armed to report, and for what. */
  datatype Kernel = Kernel(open: set<Fd>, known: set<Fd>, armed: map<Fd, Mode>)

  datatype Purpose = ToAdd | ToQueue | ToDelete

  datatype SchedPC =
    | Polling                                          // at epoll_wait
    | Handling                                         // at the loop over the batch
    | Accepting                                        // at accept
    | Signalled                                        // at the signal handlers
    | Halting                                          // in halt, dowork is false
    | Finding(fd: Fd, m: Mode, why: Purpose)           // at the work map
    | Adding(w: Id)                                    // at EPOLL_CTL_ADD
    | Queueing(w: Id)                                  // at enq
    | Unregistering(w: Id)                             // in the work object's destructor
    | Closing(w: Id)                                   // in its base class's destructor
    | Gone                                             // retired

  datatype WorkerPC =
    | Idle                                             // at wait_deq
    | Holding(w: Id)                                   // at the call of the work object
    | Unlisting(w: Id)                                 // in its destructor
    | Shutting(w: Id)                                  // in its base class's destructor
    | HoldsPill                                        // putting the pill back
    | Retired

  /** Bookkeeping that no step reads: where a work object is. Batch and Queue count from the beginning. */
  datatype Place = Fixed | Armed | Batch(n: nat) | Queue(n: nat) | AtWorker(t: Tid) | AtScheduler | Dormant
  datatype PillPlace = NoPill | PillQueued | PillHeld(t: Tid)

  datatype State = State(
    k: Kernel, wmap: map<Fd, Id>, objs: map<Id, Work>, nextId: nat,
    batch: seq<Ready>, sched: SchedPC, dowork: bool, jobq: seq<Job>, workers: map<Tid, WorkerPC>,
    crashed: bool,
    owner: map<Fd, Id>, place: map<Id, Place>, handled: nat, taken: nat, pill: PillPlace)

  /** How a call of a work object ends (src/Work.hpp:13-16). A SocketErr counts as Done. */
  datatype Outcome = Rescheduled(m: Mode) | Done | GoesDormant

  datatype Event =
    | Wait(batch: seq<Ready>) | NextEvent | AcceptNone | Accept(fd: Fd) | Signal(halt: bool) | EnqPill
    | Find | Add | Enqueue | Unregister | Close
    | Take(t: Tid) | Call(t: Tid, o: Outcome) | Unlist(t: Tid) | Shut(t: Tid) | PutBack(t: Tid)

  predicate IsConn(fd: Fd) { fd != LISTEN && fd != SIGNALS }

  /** What the kernel promises of a batch: each descriptor once; only armed ones, with something it was armed
      for or an error. */
  ghost predicate Reports(k: Kernel, b: seq<Ready>) {
    && (forall i, j :: 0 <= i < j < |b| ==> b[i].fd != b[j].fd)
    && (forall i :: 0 <= i < |b| ==> b[i].fd in k.armed && Reported(k.armed[b[i].fd], b[i]))
  }

  predicate Reported(m: Mode, r: Ready) {
    && (r.bad || r.readable || r.writable)
    && (r.readable ==> m == Read) && (r.writable ==> m == Write)
  }

  /** Where fd is in the batch, or |b|. */
  function IndexIn(b: seq<Ready>, fd: Fd): (i: nat)
    ensures i <= |b| && (i < |b| ==> b[i].fd == fd) && (forall j :: 0 <= j < i ==> b[j].fd != fd)
  {
    if b == [] || b[0].fd == fd then 0 else 1 + IndexIn(b[1..], fd)
  }

  // ---------- steps ----------

  function Crash(s: State): State { s.(crashed := true) }

  /** epoll_wait: a reported connection is disarmed, for it is watched for one event only. */
  function DoWait(s: State, b: seq<Ready>): State {
    s.(k := s.k.(armed := map f | f in s.k.armed && !(IsConn(f) && IndexIn(b, f) < |b|) :: s.k.armed[f]),
       batch := b, sched := Handling,
       place := map w | w in s.place ::
         if s.place[w] == Armed && w in s.objs && IndexIn(b, s.objs[w].fd) < |b|
         then Batch(s.handled + IndexIn(b, s.objs[w].fd)) else s.place[w])
  }

  function DoNextEvent(s: State): State {
    if !s.dowork then s.(sched := Gone)
    else if s.batch == [] then s.(sched := Polling)
    else
      var r := s.batch[0];
      s.(batch := s.batch[1..], handled := s.handled + 1, sched := HandlerOf(r),
         place := if IsConn(r.fd) && r.fd in s.owner then s.place[s.owner[r.fd] := AtScheduler] else s.place)
  }

  /** Where an event leads. */
  function HandlerOf(r: Ready): SchedPC {
    if r.fd == LISTEN then Accepting
    else if r.fd == SIGNALS then Signalled
    else if r.bad then Finding(r.fd, Read, ToDelete)
    else if r.readable then Finding(r.fd, Read, ToQueue)
    else if r.writable then Finding(r.fd, Write, ToQueue)
    else Handling // "???"
  }

  /** Find or make. */
  function DoFind(s: State, fd: Fd, m: Mode, why: Purpose): State {
    if fd in s.wmap then Found(s, s.wmap[fd], why)
    else
      var w := s.nextId;
      Found(s.(wmap := s.wmap[fd := w], objs := s.objs[w := Work(fd, m)], nextId := w + 1,
               owner := s.owner[fd := w], place := s.place[w := AtScheduler]), w, why)
  }

  function Found(s: State, w: Id, why: Purpose): State {
    s.(sched := match why case ToAdd => Adding(w) case ToQueue => Queueing(w) case ToDelete => Unregistering(w))
  }

  /** `schedule`: adding fails for a descriptor that is closed or known already. */
  function DoAdd(s: State, w: Id): State {
    if w !in s.objs || s.objs[w].fd !in s.k.open || s.objs[w].fd in s.k.known then Crash(s)
    else
      var fd := s.objs[w].fd;
      s.(k := s.k.(known := s.k.known + {fd}, armed := s.k.armed[fd := s.objs[w].m]),
         sched := Handling, place := s.place[w := Armed])
  }

  function DoEnqueue(s: State, w: Id): State {
    s.(jobq := s.jobq + [Do(w)], sched := Handling, place := s.place[w := Queue(s.taken + |s.jobq|)])
  }

  /** The first part of deleting a work object: out of the work map. */
  function Unregistered(s: State, w: Id): State {
    if w !in s.objs then Crash(s) else s.(wmap := s.wmap - {s.objs[w].fd})
  }

  /** The second part: closing the descriptor, which epoll then forgets. */
  function Closed(s: State, w: Id): State {
    if w !in s.objs then Crash(s)
    else
      var fd := s.objs[w].fd;
      s.(k := Kernel(s.k.open - {fd}, s.k.known - {fd}, s.k.armed - {fd}),
         objs := s.objs - {w}, owner := s.owner - {fd}, place := s.place - {w})
  }

  function DoTake(s: State, t: Tid): State
    requires s.jobq != []
  {
    var s' := s.(jobq := s.jobq[1..], taken := s.taken + 1);
    match s.jobq[0]
    case Pill => s'.(workers := s.workers[t := HoldsPill], pill := PillHeld(t))
    case Do(w) => s'.(workers := s.workers[t := Holding(w)], place := s.place[w := AtWorker(t)])
  }

  /** The call and the worker's look at `deleteme`. Rescheduling fails for a descriptor epoll does not
      know. */
  function DoCall(s: State, t: Tid, w: Id, o: Outcome): State {
    if w !in s.objs then Crash(s)
    else
      var fd := s.objs[w].fd;
      match o
      case Rescheduled(m) =>
        if fd !in s.k.known then Crash(s)
        else s.(objs := s.objs[w := Work(fd, m)], k := s.k.(armed := s.k.armed[fd := m]),
                workers := s.workers[t := Idle], place := s.place[w := Armed])
      case Done => s.(workers := s.workers[t := Unlisting(w)])
      case GoesDormant => s.(workers := s.workers[t := Idle], place := s.place[w := Dormant])
  }

  ghost predicate Enabled(s: State, e: Event) {
    !s.crashed &&
    match e
    case Wait(b) => s.sched == Polling && Reports(s.k, b)
    case NextEvent => s.sched == Handling
    case AcceptNone => s.sched == Accepting
    case Accept(fd) => s.sched == Accepting && fd !in s.k.open
    case Signal(_) => s.sched == Signalled
    case EnqPill => s.sched == Halting
    case Find => s.sched.Finding?
    case Add => s.sched.Adding?
    case Enqueue => s.sched.Queueing?
    case Unregister => s.sched.Unregistering?
    case Close => s.sched.Closing?
    case Take(t) => t in s.workers && s.workers[t].Idle? && s.jobq != []
    case Call(t, _) => t in s.workers && s.workers[t].Holding?
    case Unlist(t) => t in s.workers && s.workers[t].Unlisting?
    case Shut(t) => t in s.workers && s.workers[t].Shutting?
    case PutBack(t) => t in s.workers && s.workers[t].HoldsPill?
  }

  function Next(s: State, e: Event): State
    requires Enabled(s, e)
  {
    match e
    case Wait(b) => DoWait(s, b)
    case NextEvent => DoNextEvent(s)
    case AcceptNone => s.(sched := Handling)
    case Accept(fd) => s.(k := s.k.(open := s.k.open + {fd}), sched := Finding(fd, Read, ToAdd))
    case Signal(halt) => if halt then s.(dowork := false, sched := Halting) else s.(sched := Handling)
    case EnqPill => s.(jobq := s.jobq + [Pill], pill := PillQueued, sched := Handling)
    case Find => DoFind(s, s.sched.fd, s.sched.m, s.sched.why)
    case Add => DoAdd(s, s.sched.w)
    case Enqueue => DoEnqueue(s, s.sched.w)
    case Unregister => Unregistered(s, s.sched.w).(sched := Closing(s.sched.w))
    case Close => Closed(s, s.sched.w).(sched := Handling)
    case Take(t) => DoTake(s, t)
    case Call(t, o) => DoCall(s, t, s.workers[t].w, o)
    case Unlist(t) => var w := s.workers[t].w; Unregistered(s, w).(workers := s.workers[t := Shutting(w)])
    case Shut(t) => Closed(s, s.workers[t].w).(workers := s.workers[t := Idle])
    case PutBack(t) => s.(jobq := s.jobq + [Pill], pill := PillQueued, workers := s.workers[t := Retired])
  }

  // ---------- the invariant ----------

  /** The object has left the work map and is about to close its descriptor. */
  predicate BeingClosed(s: State, w: Id) {
    || s.sched == Closing(w)
    || (w in s.place && s.place[w].AtWorker? && s.place[w].t in s.workers && s.workers[s.place[w].t] == Shutting(w))
  }

  /** The worker has the object in its hands. */
  predicate Carries(pc: WorkerPC, w: Id) { pc == Holding(w) || pc == Unlisting(w) || pc == Shutting(w) }

  /** What the scheduler has in its hands. */
  predicate Handles(s: State, w: Id) {
    match s.sched
    case Finding(fd, _, why) => why != ToAdd && fd in s.owner && s.owner[fd] == w
    case Adding(v) => v == w
    case Queueing(v) => v == w
    case Unregistering(v) => v == w
    case Closing(v) => v == w
    case _ => false
  }

  /** A live object owns its open descriptor, is in the work map under it, and is known to epoll. */
  ghost predicate ObjOk(s: State, w: Id) {
    w in s.objs || w in s.place ==>
      && w in s.objs && w in s.place && w < s.nextId
      && var fd := s.objs[w].fd;
      && fd in s.owner && s.owner[fd] == w && fd in s.k.open
      && (fd in s.k.known <==> s.sched != Adding(w))
      && (fd in s.wmap <==> !BeingClosed(s, w))
  }

  /** It is in its place, and armed only there. */
  ghost predicate PlaceOk(s: State, w: Id) {
    w in s.objs && w in s.place ==>
      var fd := s.objs[w].fd;
      && (fd in s.k.armed ==> s.k.armed[fd] == s.objs[w].m && (s.place[w] == Armed || s.place[w] == Fixed))
      && (s.place[w] == Fixed <==> !IsConn(fd))
      && (s.place[w] == AtScheduler <==> Handles(s, w))
      && InPlace(s, w, fd)
  }

  ghost predicate InPlace(s: State, w: Id, fd: Fd)
    requires w in s.objs && w in s.place
  {
    match s.place[w]
    case Armed => fd in s.k.armed
    case Batch(n) =>
      && s.handled <= n < s.handled + |s.batch|
      && s.batch[n - s.handled].fd == fd && Reported(s.objs[w].m, s.batch[n - s.handled])
    case Queue(n) => s.taken <= n < s.taken + |s.jobq| && s.jobq[n - s.taken] == Do(w)
    case AtWorker(t) => t in s.workers && Carries(s.workers[t], w)
    case _ => true
  }

  /** A descriptor in use is open and has an owner, unless it was just accepted. */
  ghost predicate FdOk(s: State, f: Fd) {
    f in s.k.open || f in s.k.known || f in s.k.armed || f in s.owner || f in s.wmap ==>
      && f in s.k.open
      && (f in s.owner ==> s.owner[f] in s.objs && s.objs[s.owner[f]].fd == f)
      && (f !in s.owner ==> s.sched == Finding(f, Read, ToAdd) && f !in s.k.known && f !in s.wmap)
      && (f in s.wmap ==> f in s.owner && s.wmap[f] == s.owner[f])
      && (f in s.k.armed ==> f in s.k.known)
  }

  ghost predicate EventOk(s: State, i: nat) {
    i < |s.batch| && IsConn(s.batch[i].fd) ==>
      var f := s.batch[i].fd;
      f in s.owner && s.owner[f] in s.place && s.place[s.owner[f]] == Batch(s.handled + i)
  }

  /** A job is in its place; the pill is last. */
  ghost predicate JobOk(s: State, i: nat) {
    i < |s.jobq| ==>
      match s.jobq[i]
      case Do(w) => w in s.place && s.place[w] == Queue(s.taken + i)
      case Pill => i == |s.jobq| - 1 && s.pill == PillQueued
  }

  ghost predicate WorkerOk(s: State, t: Tid) {
    t in s.workers ==>
      match s.workers[t]
      case Idle => true
      case HoldsPill => s.pill == PillHeld(t)
      case Retired => s.pill != NoPill && |s.jobq| <= 1
      case Holding(w) => w in s.place && s.place[w] == AtWorker(t)
      case Unlisting(w) => w in s.place && s.place[w] == AtWorker(t)
      case Shutting(w) => w in s.place && s.place[w] == AtWorker(t)
  }

  ghost predicate SchedOk(s: State) {
    match s.sched
    case Finding(f, m, why) => IsConn(f) && (
        if why == ToAdd then m == Read && f in s.k.open && f !in s.owner
        else f in s.owner && s.owner[f] in s.place && s.place[s.owner[f]] == AtScheduler &&
             (why == ToQueue ==> s.owner[f] in s.objs && s.objs[s.owner[f]].m == m))
    case Adding(w) => w in s.place && s.place[w] == AtScheduler
    case Queueing(w) => w in s.place && s.place[w] == AtScheduler
    case Unregistering(w) => w in s.place && s.place[w] == AtScheduler
    case Closing(w) => w in s.place && s.place[w] == AtScheduler
    case Polling => s.batch == []
    case _ => true
  }

  /** There is one pill from `halt` on. */
  ghost predicate PillOk(s: State) {
    && (s.pill == NoPill <==> s.dowork || s.sched == Halting)
    && (s.dowork ==> s.sched != Halting && s.sched != Gone)
    && (!s.dowork ==> s.sched == Halting || s.sched == Handling || s.sched == Gone)
    && (s.pill == PillQueued ==> s.jobq != [] && s.jobq[|s.jobq| - 1] == Pill)
    && (s.pill.PillHeld? ==> s.jobq == [] && s.pill.t in s.workers && s.workers[s.pill.t] == HoldsPill)
    && LISTEN in s.owner && SIGNALS in s.owner
  }

  ghost predicate Objs(s: State) { forall w {:trigger ObjOk(s, w)} :: ObjOk(s, w) }
  ghost predicate Places(s: State) { forall w {:trigger PlaceOk(s, w)} :: PlaceOk(s, w) }
  ghost predicate Fds(s: State) { forall f {:trigger FdOk(s, f)} :: FdOk(s, f) }
  ghost predicate Events(s: State) { forall i {:trigger EventOk(s, i)} :: EventOk(s, i) }
  ghost predicate Jobs(s: State) { forall i {:trigger JobOk(s, i)} :: JobOk(s, i) }
  ghost predicate Workers(s: State) { forall t {:trigger WorkerOk(s, t)} :: WorkerOk(s, t) }

  ghost predicate Inv(s: State) {
    !s.crashed && Objs(s) && Places(s) && Fds(s) && Events(s) && Jobs(s) && Workers(s) && SchedOk(s) && PillOk(s)
  }

  ghost predicate Init(s: State) {
    && s.k == Kernel({LISTEN, SIGNALS}, {LISTEN, SIGNALS}, map[LISTEN := Read, SIGNALS := Read])
    && s.wmap == s.owner == map[LISTEN := 0, SIGNALS := 1]
    && s.objs == map[0 := Work(LISTEN, Read), 1 := Work(SIGNALS, Read)] && s.nextId == 2
    && s.place == map[0 := Fixed, 1 := Fixed]
    && s.batch == [] && s.sched == Polling && s.dowork && s.jobq == [] && !s.crashed && s.pill == NoPill
    && (forall t <- s.workers :: s.workers[t] == Idle)
  }

  lemma InitInv(s: State)
    requires Init(s)
    ensures Inv(s)
  {
  }

  lemma WaitEvents(s: State, b: seq<Ready>)
    requires Inv(s) && Enabled(s, Wait(b))
    ensures Events(DoWait(s, b))
  {
    var s' := DoWait(s, b);
    forall i: nat ensures EventOk(s', i) {
      if i < |b| {
        IndexOnce(s.k, b, i);
        var f := b[i].fd;
        assert FdOk(s, f);
        assert f in s.owner ==> ObjOk(s, s.owner[f]) && PlaceOk(s, s.owner[f]);
      }
    }
  }

  lemma WaitInv(s: State, b: seq<Ready>)
    requires Inv(s) && Enabled(s, Wait(b))
    ensures Inv(DoWait(s, b))
  {
    var s' := DoWait(s, b);
    forall w ensures ObjOk(s', w) { assert ObjOk(s, w); }
    forall w ensures PlaceOk(s', w) { assert ObjOk(s, w) && PlaceOk(s, w); }
    forall f ensures FdOk(s', f) { assert FdOk(s, f); }
    WaitEvents(s, b);
    forall i: nat ensures JobOk(s', i) {
      assert JobOk(s, i);
      if i < |s.jobq| && s.jobq[i].Do? { assert ObjOk(s, s.jobq[i].w); }
    }
    forall t ensures WorkerOk(s', t) { assert WorkerOk(s, t); }
  }

  lemma IndexOnce(k: Kernel, b: seq<Ready>, i: nat)
    requires Reports(k, b) && i < |b|
    ensures IndexIn(b, b[i].fd) == i
  {
    assert forall j :: 0 <= j < i ==> b[j].fd != b[i].fd;
  }

  /** The event at hand is about an armed object that is in its place. */
  ghost predicate FirstEventOk(s: State) {
    s.batch != [] ==> EventOk(s, 0) && var fd := s.batch[0].fd;
      FdOk(s, fd) && (fd in s.owner ==> ObjOk(s, s.owner[fd]) && PlaceOk(s, s.owner[fd]))
  }

  lemma NextEventObj(s: State, w: Id)
    requires s.sched == Handling && ObjOk(s, w) && PlaceOk(s, w) && FirstEventOk(s)
    ensures ObjOk(DoNextEvent(s), w)
  {
  }

  lemma NextEventPlace(s: State, w: Id)
    requires s.sched == Handling && ObjOk(s, w) && PlaceOk(s, w) && FirstEventOk(s)
    ensures PlaceOk(DoNextEvent(s), w)
  {
  }

  lemma NextEventObjs(s: State)
    requires Inv(s) && Enabled(s, NextEvent)
    ensures Objs(DoNextEvent(s)) && Places(DoNextEvent(s)) && FirstEventOk(s)
  {
    if s.batch != [] {
      var fd := s.batch[0].fd;
      assert EventOk(s, 0) && FdOk(s, fd);
      if fd in s.owner { assert ObjOk(s, s.owner[fd]) && PlaceOk(s, s.owner[fd]); }
    }
    forall w ensures ObjOk(DoNextEvent(s), w) && PlaceOk(DoNextEvent(s), w) {
      assert ObjOk(s, w) && PlaceOk(s, w);
      NextEventObj(s, w);
      NextEventPlace(s, w);
    }
  }

  lemma NextEventFds(s: State)
    requires Inv(s) && Enabled(s, NextEvent)
    ensures Fds(Next(s, NextEvent))
  {
    var s' := Next(s, NextEvent);
    if s.dowork && s.batch != [] {
      var fd := s.batch[0].fd;
      assert EventOk(s, 0) && FdOk(s, fd);
      if fd in s.owner { assert ObjOk(s, s.owner[fd]) && PlaceOk(s, s.owner[fd]); }
    }
    forall f ensures FdOk(s', f) { assert FdOk(s, f); }
  }

  lemma NextEventRest(s: State)
    requires Inv(s) && Enabled(s, NextEvent)
    ensures Events(Next(s, NextEvent)) && Jobs(Next(s, NextEvent)) && Workers(Next(s, NextEvent))
  {
    var s' := Next(s, NextEvent);
    if s.dowork && s.batch != [] {
      var fd := s.batch[0].fd;
      assert EventOk(s, 0) && FdOk(s, fd);
      if fd in s.owner { assert ObjOk(s, s.owner[fd]) && PlaceOk(s, s.owner[fd]); }
    }
    forall i: nat ensures EventOk(s', i) { assert EventOk(s, i) && EventOk(s, i + 1); }
    forall i: nat ensures JobOk(s', i) { assert JobOk(s, i); }
    forall t ensures WorkerOk(s', t) { assert WorkerOk(s, t); }
  }

  lemma NextEventInv(s: State)
    requires Inv(s) && Enabled(s, NextEvent)
    ensures Inv(Next(s, NextEvent))
  {
    var s' := Next(s, NextEvent);
    NextEventObjs(s);
    NextEventFds(s);
    NextEventRest(s);
    if s.dowork && s.batch != [] {
      var fd := s.batch[0].fd;
      assert EventOk(s, 0) && FdOk(s, fd);
      if fd in s.owner { assert ObjOk(s, s.owner[fd]) && PlaceOk(s, s.owner[fd]); }
    }
  }

  lemma AcceptInv(s: State, fd: Fd)
    requires Inv(s) && Enabled(s, Accept(fd))
    ensures Inv(Next(s, Accept(fd)))
  {
    var s' := Next(s, Accept(fd));
    assert FdOk(s, fd) && FdOk(s, LISTEN) && FdOk(s, SIGNALS);
    forall w ensures ObjOk(s', w) { assert ObjOk(s, w); }
    forall w ensures PlaceOk(s', w) { assert ObjOk(s, w) && PlaceOk(s, w); }
    forall f ensures FdOk(s', f) { assert FdOk(s, f); }
    forall i: nat ensures EventOk(s', i) { assert EventOk(s, i); }
    forall i: nat ensures JobOk(s', i) { assert JobOk(s, i); }
    forall t ensures WorkerOk(s', t) { assert WorkerOk(s, t); }
  }

  lemma AcceptNoneInv(s: State)
    requires Inv(s) && Enabled(s, AcceptNone)
    ensures Inv(Next(s, AcceptNone))
  {
    var s' := Next(s, AcceptNone);
    forall w ensures ObjOk(s', w) { assert ObjOk(s, w); }
    forall w ensures PlaceOk(s', w) { assert ObjOk(s, w) && PlaceOk(s, w); }
    forall f ensures FdOk(s', f) { assert FdOk(s, f); }
    forall i: nat ensures EventOk(s', i) { assert EventOk(s, i); }
    forall i: nat ensures JobOk(s', i) { assert JobOk(s, i); }
    forall t ensures WorkerOk(s', t) { assert WorkerOk(s, t); }
  }

  lemma SignalInv(s: State, halt: bool)
    requires Inv(s) && Enabled(s, Signal(halt))
    ensures Inv(Next(s, Signal(halt)))
  {
    var s' := Next(s, Signal(halt));
    forall w ensures ObjOk(s', w) { assert ObjOk(s, w); }
    forall w ensures PlaceOk(s', w) { assert ObjOk(s, w) && PlaceOk(s, w); }
    forall f ensures FdOk(s', f) { assert FdOk(s, f); }
    forall i: nat ensures EventOk(s', i) { assert EventOk(s, i); }
    forall i: nat ensures JobOk(s', i) { assert JobOk(s, i); }
    forall t ensures WorkerOk(s', t) { assert WorkerOk(s, t); }
  }

  lemma EnqPillInv(s: State)
    requires Inv(s) && Enabled(s, EnqPill)
    ensures Inv(Next(s, EnqPill))
  {
    var s' := Next(s, EnqPill);
    forall w ensures ObjOk(s', w) { assert ObjOk(s, w); }
    forall w ensures PlaceOk(s', w) { assert ObjOk(s, w) && PlaceOk(s, w); }
    forall f ensures FdOk(s', f) { assert FdOk(s, f); }
    forall i: nat ensures EventOk(s', i) { assert EventOk(s, i); }
    forall i: nat ensures JobOk(s', i) { assert JobOk(s, i); }
    forall t ensures WorkerOk(s', t) { assert WorkerOk(s, t); }
  }

  lemma FindObjs(s: State)
    requires Inv(s) && Enabled(s, Find)
    ensures Objs(Next(s, Find))
  {
    var s' := Next(s, Find);
    var fd := s.sched.fd;
    assert FdOk(s, fd) && ObjOk(s, s.nextId);
    if fd in s.owner { assert ObjOk(s, s.owner[fd]) && PlaceOk(s, s.owner[fd]); }
    forall w ensures ObjOk(s', w) { assert ObjOk(s, w); }
  }

  lemma FindFds(s: State)
    requires Inv(s) && Enabled(s, Find)
    ensures Fds(Next(s, Find))
  {
    var s' := Next(s, Find);
    var fd := s.sched.fd;
    assert FdOk(s, fd) && ObjOk(s, s.nextId);
    if fd in s.owner { assert ObjOk(s, s.owner[fd]) && PlaceOk(s, s.owner[fd]); }
    forall f ensures FdOk(s', f) { assert FdOk(s, f); }
  }

  /** The object the scheduler is to find, if there is one. */
  ghost predicate SoughtOk(s: State)
    requires s.sched.Finding?
  {
    && FdOk(s, s.sched.fd)
    && (s.sched.fd in s.owner ==> ObjOk(s, s.owner[s.sched.fd]) && PlaceOk(s, s.owner[s.sched.fd]))
  }

  lemma FindPlace(s: State, w: Id)
    requires Enabled(s, Find) && SoughtOk(s) && SchedOk(s) && ObjOk(s, s.nextId) && ObjOk(s, w) && PlaceOk(s, w)
    ensures PlaceOk(Next(s, Find), w)
  {
  }

  lemma FindPlaced(s: State)
    requires Inv(s) && Enabled(s, Find)
    ensures Places(Next(s, Find))
  {
    var fd := s.sched.fd;
    assert FdOk(s, fd) && ObjOk(s, s.nextId);
    if fd in s.owner { assert ObjOk(s, s.owner[fd]) && PlaceOk(s, s.owner[fd]); }
    forall w ensures PlaceOk(Next(s, Find), w) {
      assert ObjOk(s, w) && PlaceOk(s, w);
      FindPlace(s, w);
    }
  }

  lemma FindRest(s: State)
    requires Inv(s) && Enabled(s, Find)
    ensures Events(Next(s, Find)) && Jobs(Next(s, Find)) && Workers(Next(s, Find))
  {
    var s' := Next(s, Find);
    var fd := s.sched.fd;
    assert FdOk(s, fd) && ObjOk(s, s.nextId);
    if fd in s.owner { assert ObjOk(s, s.owner[fd]) && PlaceOk(s, s.owner[fd]); }
    forall i: nat ensures EventOk(s', i) { assert EventOk(s, i); }
    forall i: nat ensures JobOk(s', i) { assert JobOk(s, i); }
    forall t ensures WorkerOk(s', t) { assert WorkerOk(s, t); }
  }

  lemma FindInv(s: State)
    requires Inv(s) && Enabled(s, Find)
    ensures Inv(Next(s, Find))
  {
    var s' := Next(s, Find);
    FindObjs(s);
    FindPlaced(s);
    FindFds(s);
    FindRest(s);
    var fd := s.sched.fd;
    assert FdOk(s, fd) && ObjOk(s, s.nextId);
    if fd in s.owner { assert ObjOk(s, s.owner[fd]) && PlaceOk(s, s.owner[fd]); }
  }

  lemma AddInv(s: State)
    requires Inv(s) && Enabled(s, Add)
    ensures Inv(Next(s, Add))
  {
    var s', v := Next(s, Add), s.sched.w;
    assert ObjOk(s, v) && PlaceOk(s, v) && FdOk(s, s.objs[v].fd);
    forall w ensures ObjOk(s', w) { assert ObjOk(s, w); }
    forall w ensures PlaceOk(s', w) { assert ObjOk(s, w) && PlaceOk(s, w); }
    forall f ensures FdOk(s', f) { assert FdOk(s, f); }
    forall i: nat ensures EventOk(s', i) { assert EventOk(s, i); }
    forall i: nat ensures JobOk(s', i) { assert JobOk(s, i); }
    forall t ensures WorkerOk(s', t) { assert WorkerOk(s, t); }
  }

  lemma EnqueueInv(s: State)
    requires Inv(s) && Enabled(s, Enqueue)
    ensures Inv(Next(s, Enqueue))
  {
    var s', v := Next(s, Enqueue), s.sched.w;
    assert ObjOk(s, v) && PlaceOk(s, v) && FdOk(s, s.objs[v].fd);
    forall w ensures ObjOk(s', w) { assert ObjOk(s, w); }
    forall w ensures PlaceOk(s', w) { assert ObjOk(s, w) && PlaceOk(s, w); }
    forall f ensures FdOk(s', f) { assert FdOk(s, f); }
    forall i: nat ensures EventOk(s', i) { assert EventOk(s, i); }
    forall i: nat ensures JobOk(s', i) { assert JobOk(s, i); }
    forall t ensures WorkerOk(s', t) { assert WorkerOk(s, t); }
  }

  lemma UnregisterInv(s: State)
    requires Inv(s) && Enabled(s, Unregister)
    ensures Inv(Next(s, Unregister))
  {
    var s', v := Next(s, Unregister), s.sched.w;
    assert ObjOk(s, v) && PlaceOk(s, v) && FdOk(s, s.objs[v].fd);
    forall w ensures ObjOk(s', w) { assert ObjOk(s, w); }
    forall w ensures PlaceOk(s', w) { assert ObjOk(s, w) && PlaceOk(s, w); }
    forall f ensures FdOk(s', f) { assert FdOk(s, f); }
    forall i: nat ensures EventOk(s', i) { assert EventOk(s, i); }
    forall i: nat ensures JobOk(s', i) { assert JobOk(s, i); }
    forall t ensures WorkerOk(s', t) { assert WorkerOk(s, t); }
  }

  lemma ClosePlaced(s: State)
    requires Inv(s) && Enabled(s, Close)
    ensures Objs(Next(s, Close)) && Places(Next(s, Close))
  {
    var s', v := Next(s, Close), s.sched.w;
    assert ObjOk(s, v) && PlaceOk(s, v);
    forall w ensures ObjOk(s', w) { assert ObjOk(s, w); }
    forall w ensures PlaceOk(s', w) { assert ObjOk(s, w) && PlaceOk(s, w); }
  }

  lemma CloseInv(s: State)
    requires Inv(s) && Enabled(s, Close)
    ensures Inv(Next(s, Close))
  {
    var s', v := Next(s, Close), s.sched.w;
    ClosePlaced(s);
    assert ObjOk(s, v) && PlaceOk(s, v) && FdOk(s, s.objs[v].fd);
    forall f ensures FdOk(s', f) { assert FdOk(s, f); }
    forall i: nat ensures EventOk(s', i) { assert EventOk(s, i); }
    forall i: nat ensures JobOk(s', i) { assert JobOk(s, i); }
    forall t ensures WorkerOk(s', t) { assert WorkerOk(s, t); }
  }

  lemma TakeObjs(s: State, t: Tid)
    requires Inv(s) && Enabled(s, Take(t))
    ensures Objs(Next(s, Take(t)))
  {
    var s' := Next(s, Take(t));
    assert JobOk(s, 0) && WorkerOk(s, t);
    if s.jobq[0].Do? { assert ObjOk(s, s.jobq[0].w) && PlaceOk(s, s.jobq[0].w); }
    forall w ensures ObjOk(s', w) { assert ObjOk(s, w); }
  }

  lemma TakeFds(s: State, t: Tid)
    requires Inv(s) && Enabled(s, Take(t))
    ensures Fds(Next(s, Take(t)))
  {
    var s' := Next(s, Take(t));
    assert JobOk(s, 0) && WorkerOk(s, t);
    if s.jobq[0].Do? { assert ObjOk(s, s.jobq[0].w) && PlaceOk(s, s.jobq[0].w); }
    forall f ensures FdOk(s', f) { assert FdOk(s, f); }
  }

  lemma TakePlace(s: State, t: Tid, w: Id)
    requires Enabled(s, Take(t)) && ObjOk(s, w) && PlaceOk(s, w) && JobOk(s, 0)
    ensures PlaceOk(Next(s, Take(t)), w)
  {
  }

  lemma TakePlaced(s: State, t: Tid)
    requires Inv(s) && Enabled(s, Take(t))
    ensures Places(Next(s, Take(t)))
  {
    assert JobOk(s, 0);
    forall w ensures PlaceOk(Next(s, Take(t)), w) {
      assert ObjOk(s, w) && PlaceOk(s, w);
      TakePlace(s, t, w);
    }
  }

  lemma TakeRest(s: State, t: Tid)
    requires Inv(s) && Enabled(s, Take(t))
    ensures Events(Next(s, Take(t))) && Jobs(Next(s, Take(t))) && Workers(Next(s, Take(t)))
  {
    var s' := Next(s, Take(t));
    assert JobOk(s, 0) && WorkerOk(s, t);
    if s.jobq[0].Do? { assert ObjOk(s, s.jobq[0].w) && PlaceOk(s, s.jobq[0].w); }
    forall i: nat ensures EventOk(s', i) { assert EventOk(s, i); }
    forall i: nat ensures JobOk(s', i) { assert JobOk(s, i + 1); }
    forall u ensures WorkerOk(s', u) { assert WorkerOk(s, u); }
  }

  lemma TakeInv(s: State, t: Tid)
    requires Inv(s) && Enabled(s, Take(t))
    ensures Inv(Next(s, Take(t)))
  {
    var s' := Next(s, Take(t));
    TakeObjs(s, t);
    TakePlaced(s, t);
    TakeFds(s, t);
    TakeRest(s, t);
    assert JobOk(s, 0) && WorkerOk(s, t);
    if s.jobq[0].Do? { assert ObjOk(s, s.jobq[0].w) && PlaceOk(s, s.jobq[0].w); }
  }

  lemma CallObjs(s: State, t: Tid, o: Outcome)
    requires Inv(s) && Enabled(s, Call(t, o))
    ensures Objs(Next(s, Call(t, o)))
  {
    var s' := Next(s, Call(t, o));
    var v := s.workers[t].w;
    assert WorkerOk(s, t) && ObjOk(s, v) && PlaceOk(s, v) && FdOk(s, s.objs[v].fd);
    forall w ensures ObjOk(s', w) { assert ObjOk(s, w); }
  }

  lemma CallFds(s: State, t: Tid, o: Outcome)
    requires Inv(s) && Enabled(s, Call(t, o))
    ensures Fds(Next(s, Call(t, o)))
  {
    var s' := Next(s, Call(t, o));
    var v := s.workers[t].w;
    assert WorkerOk(s, t) && ObjOk(s, v) && PlaceOk(s, v) && FdOk(s, s.objs[v].fd);
    forall f ensures FdOk(s', f) { assert FdOk(s, f); }
  }

  lemma CallPlace(s: State, t: Tid, o: Outcome, w: Id)
    requires Enabled(s, Call(t, o)) && ObjOk(s, w) && PlaceOk(s, w)
    requires WorkerOk(s, t) && ObjOk(s, s.workers[t].w) && PlaceOk(s, s.workers[t].w)
    ensures PlaceOk(Next(s, Call(t, o)), w)
  {
  }

  lemma CallPlaced(s: State, t: Tid, o: Outcome)
    requires Inv(s) && Enabled(s, Call(t, o))
    ensures Places(Next(s, Call(t, o)))
  {
    assert WorkerOk(s, t) && ObjOk(s, s.workers[t].w) && PlaceOk(s, s.workers[t].w);
    forall w ensures PlaceOk(Next(s, Call(t, o)), w) {
      assert ObjOk(s, w) && PlaceOk(s, w);
      CallPlace(s, t, o, w);
    }
  }

  lemma CallRest(s: State, t: Tid, o: Outcome)
    requires Inv(s) && Enabled(s, Call(t, o))
    ensures Events(Next(s, Call(t, o))) && Jobs(Next(s, Call(t, o))) && Workers(Next(s, Call(t, o)))
  {
    var s' := Next(s, Call(t, o));
    var v := s.workers[t].w;
    assert WorkerOk(s, t) && ObjOk(s, v) && PlaceOk(s, v) && FdOk(s, s.objs[v].fd);
    forall i: nat ensures EventOk(s', i) { assert EventOk(s, i); }
    forall i: nat ensures JobOk(s', i) { assert JobOk(s, i); }
    forall u ensures WorkerOk(s', u) { assert WorkerOk(s, u); }
  }

  lemma CallInv(s: State, t: Tid, o: Outcome)
    requires Inv(s) && Enabled(s, Call(t, o))
    ensures Inv(Next(s, Call(t, o)))
  {
    var s' := Next(s, Call(t, o));
    CallObjs(s, t, o);
    CallPlaced(s, t, o);
    CallFds(s, t, o);
    CallRest(s, t, o);
    var v := s.workers[t].w;
    assert WorkerOk(s, t) && ObjOk(s, v) && PlaceOk(s, v) && FdOk(s, s.objs[v].fd);
  }

  lemma UnlistObjs(s: State, t: Tid)
    requires Inv(s) && Enabled(s, Unlist(t))
    ensures Objs(Next(s, Unlist(t)))
  {
    var s' := Next(s, Unlist(t));
    var v := s.workers[t].w;
    assert WorkerOk(s, t) && ObjOk(s, v) && PlaceOk(s, v) && FdOk(s, s.objs[v].fd);
    forall w ensures ObjOk(s', w) { assert ObjOk(s, w); }
  }

  lemma UnlistFds(s: State, t: Tid)
    requires Inv(s) && Enabled(s, Unlist(t))
    ensures Fds(Next(s, Unlist(t)))
  {
    var s' := Next(s, Unlist(t));
    var v := s.workers[t].w;
    assert WorkerOk(s, t) && ObjOk(s, v) && PlaceOk(s, v) && FdOk(s, s.objs[v].fd);
    forall f ensures FdOk(s', f) { assert FdOk(s, f); }
  }

  lemma UnlistPlaced(s: State, t: Tid)
    requires Inv(s) && Enabled(s, Unlist(t))
    ensures Places(Next(s, Unlist(t)))
  {
    var s' := Next(s, Unlist(t));
    var v := s.workers[t].w;
    assert WorkerOk(s, t) && ObjOk(s, v) && PlaceOk(s, v) && FdOk(s, s.objs[v].fd);
    forall w ensures PlaceOk(s', w) { assert ObjOk(s, w) && PlaceOk(s, w); }
  }

  lemma UnlistRest(s: State, t: Tid)
    requires Inv(s) && Enabled(s, Unlist(t))
    ensures Events(Next(s, Unlist(t))) && Jobs(Next(s, Unlist(t))) && Workers(Next(s, Unlist(t)))
  {
    var s' := Next(s, Unlist(t));
    var v := s.workers[t].w;
    assert WorkerOk(s, t) && ObjOk(s, v) && PlaceOk(s, v) && FdOk(s, s.objs[v].fd);
    forall i: nat ensures EventOk(s', i) { assert EventOk(s, i); }
    forall i: nat ensures JobOk(s', i) { assert JobOk(s, i); }
    forall u ensures WorkerOk(s', u) { assert WorkerOk(s, u); }
  }

  lemma UnlistInv(s: State, t: Tid)
    requires Inv(s) && Enabled(s, Unlist(t))
    ensures Inv(Next(s, Unlist(t)))
  {
    var s' := Next(s, Unlist(t));
    UnlistObjs(s, t);
    UnlistPlaced(s, t);
    UnlistFds(s, t);
    UnlistRest(s, t);
    var v := s.workers[t].w;
    assert WorkerOk(s, t) && ObjOk(s, v) && PlaceOk(s, v) && FdOk(s, s.objs[v].fd);
  }

  lemma ShutObjs(s: State, t: Tid)
    requires Inv(s) && Enabled(s, Shut(t))
    ensures Objs(Next(s, Shut(t)))
  {
    var s' := Next(s, Shut(t));
    var v := s.workers[t].w;
    assert WorkerOk(s, t) && ObjOk(s, v) && PlaceOk(s, v) && FdOk(s, s.objs[v].fd);
    forall w ensures ObjOk(s', w) { assert ObjOk(s, w); }
  }

  lemma ShutFds(s: State, t: Tid)
    requires Inv(s) && Enabled(s, Shut(t))
    ensures Fds(Next(s, Shut(t)))
  {
    var s' := Next(s, Shut(t));
    var v := s.workers[t].w;
    assert WorkerOk(s, t) && ObjOk(s, v) && PlaceOk(s, v) && FdOk(s, s.objs[v].fd);
    forall f ensures FdOk(s', f) { assert FdOk(s, f); }
  }

  lemma ShutPlaced(s: State, t: Tid)
    requires Inv(s) && Enabled(s, Shut(t))
    ensures Places(Next(s, Shut(t)))
  {
    var s' := Next(s, Shut(t));
    var v := s.workers[t].w;
    assert WorkerOk(s, t) && ObjOk(s, v) && PlaceOk(s, v) && FdOk(s, s.objs[v].fd);
    forall w ensures PlaceOk(s', w) { assert ObjOk(s, w) && PlaceOk(s, w); }
  }

  lemma ShutRest(s: State, t: Tid)
    requires Inv(s) && Enabled(s, Shut(t))
    ensures Events(Next(s, Shut(t))) && Jobs(Next(s, Shut(t))) && Workers(Next(s, Shut(t)))
  {
    var s' := Next(s, Shut(t));
    var v := s.workers[t].w;
    assert WorkerOk(s, t) && ObjOk(s, v) && PlaceOk(s, v) && FdOk(s, s.objs[v].fd);
    forall i: nat ensures EventOk(s', i) { assert EventOk(s, i); }
    forall i: nat ensures JobOk(s', i) { assert JobOk(s, i); }
    forall u ensures WorkerOk(s', u) { assert WorkerOk(s, u); }
  }

  lemma ShutInv(s: State, t: Tid)
    requires Inv(s) && Enabled(s, Shut(t))
    ensures Inv(Next(s, Shut(t)))
  {
    var s' := Next(s, Shut(t));
    ShutObjs(s, t);
    ShutPlaced(s, t);
    ShutFds(s, t);
    ShutRest(s, t);
    var v := s.workers[t].w;
    assert WorkerOk(s, t) && ObjOk(s, v) && PlaceOk(s, v) && FdOk(s, s.objs[v].fd);
  }

  lemma PutBackInv(s: State, t: Tid)
    requires Inv(s) && Enabled(s, PutBack(t))
    ensures Inv(Next(s, PutBack(t)))
  {
    var s' := Next(s, PutBack(t));
    assert WorkerOk(s, t);
    forall w ensures ObjOk(s', w) { assert ObjOk(s, w); }
    forall w ensures PlaceOk(s', w) { assert ObjOk(s, w) && PlaceOk(s, w); }
    forall f ensures FdOk(s', f) { assert FdOk(s, f); }
    forall i: nat ensures EventOk(s', i) { assert EventOk(s, i); }
    forall i: nat ensures JobOk(s', i) { assert JobOk(s, i); }
    forall u ensures WorkerOk(s', u) { assert WorkerOk(s, u); }
  }

  /** Every step keeps the invariant; in particular no call of epoll_ctl fails and no dead object is used. */
  lemma NextInv(s: State, e: Event)
    requires Inv(s) && Enabled(s, e)
    ensures Inv(Next(s, e))
  {
    match e {
      case Wait(b) => WaitInv(s, b);
      case NextEvent => NextEventInv(s);
      case AcceptNone => AcceptNoneInv(s);
      case Accept(fd) => AcceptInv(s, fd);
      case Signal(halt) => SignalInv(s, halt);
      case EnqPill => EnqPillInv(s);
      case Find => FindInv(s);
      case Add => AddInv(s);
      case Enqueue => EnqueueInv(s);
      case Unregister => UnregisterInv(s);
      case Close => CloseInv(s);
      case Take(t) => TakeInv(s, t);
      case Call(t, o) => CallInv(s, t, o);
      case Unlist(t) => UnlistInv(s, t);
      case Shut(t) => ShutInv(s, t);
      case PutBack(t) => PutBackInv(s, t);
    }
  }
}
