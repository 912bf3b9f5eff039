/** The lock-free queue as the object it is: one call running while every other thread stands still
    somewhere in a call of its own. `tail` may then lag behind by one node, and the semaphore may
    differ from the length. `QueueSteps` lets the other threads move. */
module LockFreeQueue {
  import opened Wrappers

  class Node<T(0)> {
    var t: T
    var next: Node?<T>
    /** The node's position in the linking order. */
    ghost const place: nat

    /** The dummy node. */
    constructor Dummy()
      ensures next == null && place == 0
    {
      next := null;
      place := 0;
    }

    constructor (t: T, ghost place: nat)
      ensures this.t == t && next == null && this.place == place
    {
      this.t := t;
      next := null;
      this.place := place;
    }
  }

  class Queue<T(0)> {
    var head: Node<T>
    var tail: Node<T>
    var sz: nat
    ghost var contents: seq<T>
    /** Every node ever linked, and `head`'s position among them. */
    ghost var spine: seq<Node<T>>
    ghost var at: nat
    ghost var Repr: set<object>

    /** `head` heads a chain of distinct nodes that hold the contents; `tail` is the last node or the
        one before it. */
    ghost predicate Valid()
      reads this, Repr
      ensures Valid() ==> this in Repr
    {
      && this in Repr && at < |spine| && head == spine[at]
      && |contents| == |spine| - 1 - at
      && (tail == spine[|spine| - 1] || (at + 1 < |spine| && tail == spine[|spine| - 2]))
      && forall i {:trigger Linked(i)} :: at <= i < |spine| ==> Linked(i)
    }

    ghost predicate Linked(i: nat)
      requires at <= i < |spine| && |contents| == |spine| - 1 - at
      reads this, Repr
    {
      var n := spine[i];
      && n in Repr && n as object != this && n.place == i
      && n.next == (if i + 1 < |spine| then spine[i + 1] else null)
      && (at < i ==> n.t == contents[i - at - 1])
    }

    ghost predicate Lagging()
      reads this
    {
      |spine| > 0 && tail != spine[|spine| - 1]
    }

    constructor ()
      ensures Valid() && fresh(Repr) && contents == [] && sz == 0
    {
      var n := new Node<T>.Dummy();
      head := n;
      tail := n;
      sz := 0;
      spine, at, contents := [n], 0, [];
      Repr := {this, n};
    }

    /** Run alone, `enq` ends after at most one retry, the new value is last, and the semaphore is
        raised once. */
    method Enq(t: T)
      requires Valid()
      modifies Repr
      ensures Valid() && fresh(Repr - old(Repr)) && !Lagging()
      ensures contents == old(contents) + [t] && sz == old(sz) + 1
    {
      var n := new Node(t, |spine|);
      while true
        invariant Valid() && fresh(n) && n !in Repr && Repr == old(Repr)
        invariant n.t == t && n.next == null && n.place == |spine|
        invariant contents == old(contents) && sz == old(sz)
        decreases Lagging()
      {
        var last := tail;
        var next := last.next;
        assert Linked(|spine| - 1) && (Lagging() ==> Linked(|spine| - 2));
        if tail == last {
          if next == null {
            label link:
            last.next := n;
            spine, contents, Repr := spine + [n], contents + [t], Repr + {n};
            if tail == last { tail := n; }
            sz := sz + 1;
            forall i | at <= i < |spine| ensures Linked(i) {
              if i < |spine| - 1 { assert old@link(Linked(i)); }
            }
            return;
          } else {
            label swing:
            if tail == last { tail := next; }
            forall i | at <= i < |spine| ensures Linked(i) { assert old@swing(Linked(i)); }
          }
        }
      }
    }

    /** Run alone, `nowait_deq` comes after at most one retry to its end, or to `down` with the value in hand,
        and sleeps there if the semaphore is still 0. It answers no exactly when the queue is empty, and
        otherwise takes the oldest value. */
    method NowaitDeq() returns (r: Option<T>, asleep: bool)
      requires Valid()
      modifies Repr
      ensures Valid() && Repr == old(Repr)
      ensures r.None? <==> old(contents) == []
      ensures r.None? ==> contents == [] && sz == old(sz)
      ensures r.Some? ==> old(contents) == [r.value] + contents
      ensures asleep <==> old(contents) != [] && old(sz) == 0
      ensures r.Some? ==> sz == if asleep then 0 else old(sz) - 1
    {
      while true
        invariant Valid() && Repr == old(Repr) && contents == old(contents) && sz == old(sz)
        decreases Lagging()
      {
        var first := head;
        var last := tail;
        var next := head.next;
        assert Linked(at) && Linked(|spine| - 1) && (Lagging() ==> Linked(|spine| - 2));
        if first == head {
          if first == last {
            if next == null {
              return None, false;
            }
            if tail == last { tail := next; }
          } else {
            assert Linked(at + 1);
            var t := next.t;
            if head == first {
              label take:
              head := next;
              at, contents := at + 1, contents[1..];
              asleep := sz == 0;
              if !asleep { sz := sz - 1; }
              forall i | at <= i < |spine| ensures Linked(i) { assert old@take(Linked(i)); }
              return Some(t), asleep;
            }
          }
        }
      }
    }
  }
}
