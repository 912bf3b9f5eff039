/** A worker's loop (src/Worker.cpp) on the job queue, run alone. `Dispatch` has many workers at once. */
module Worker {
  import opened Wrappers
  import opened LockFreeQueue

  /** A job, or None for the pill. */
  type Job = Option<nat>

  /** Takes and executes the jobs before the first pill, in order; then puts the pill back behind whatever
      is left and retires. If there is no pill it executes every job and then sleeps. */
  method Work(jobq: Queue<Job>) returns (executed: seq<nat>, retired: bool)
    requires jobq.Valid() && jobq.sz == |jobq.contents|
    modifies jobq.Repr
    ensures jobq.Valid() && jobq.sz == |jobq.contents|
    ensures retired <==> None in old(jobq.contents)
    ensures |executed| <= |old(jobq.contents)|
    ensures forall i :: 0 <= i < |executed| ==> old(jobq.contents)[i] == Some(executed[i])
    ensures !retired ==> |executed| == |old(jobq.contents)| && jobq.contents == []
    ensures retired ==> |executed| < |old(jobq.contents)| && old(jobq.contents)[|executed|] == None
    ensures retired ==> jobq.contents == old(jobq.contents)[|executed| + 1..] + [None]
  {
    executed := [];
    while true
      invariant jobq.Valid() && jobq.Repr == old(jobq.Repr) && jobq.sz == |jobq.contents|
      invariant |executed| <= |old(jobq.contents)|
      invariant forall i :: 0 <= i < |executed| ==> old(jobq.contents)[i] == Some(executed[i])
      invariant jobq.contents == old(jobq.contents)[|executed|..]
      decreases |jobq.contents|
    {
      var w, _ := jobq.NowaitDeq();
      if w.None? {
        // Here wait_deq goes to sleep.
        return executed, false;
      }
      if w.value.None? {
        assert old(jobq.contents)[|executed|] == None;
        jobq.Enq(None);
        return executed, true;
      }
      executed := executed + [w.value.value];
    }
  }
}
