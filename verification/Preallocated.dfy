/** Preallocated (src/Preallocated.hpp): a free list in front of the operating system's allocator,
    used by one thread. Blocks are addresses. */
module Preallocated {
  import opened Wrappers
  import opened LockFreeQueue

  type Block = nat

  function Max(a: nat, b: nat): nat { if a < b then b else a }

  /** Each block taken from the system is in use or stored, and not both or twice; their number is
      exactly the larger of the number preallocated and the most ever in use at once. */
  ghost predicate Conserved(live: set<Block>, stored: seq<Block>, owned: set<Block>,
                            numobjs: nat, peak: nat) {
    && multiset(owned) == multiset(live) + multiset(stored)
    && |owned| == Max(numobjs, peak) && |live| <= peak
  }

  /** In plain words: the stored blocks are distinct, none of them is in use, and together with those
      in use they number max(numobjs, peak). */
  lemma ConservedMeans(live: set<Block>, stored: seq<Block>, owned: set<Block>, numobjs: nat, peak: nat)
    requires Conserved(live, stored, owned, numobjs, peak)
    ensures forall i, j :: 0 <= i < j < |stored| ==> stored[i] != stored[j]
    ensures forall i :: 0 <= i < |stored| ==> stored[i] !in live
    ensures owned == live + set b | b in stored
    ensures |live| + |stored| == |owned| == Max(numobjs, peak)
  {
    forall i | 0 <= i < |stored|
      ensures stored[i] in owned && stored[i] !in live
      ensures forall j :: i < j < |stored| ==> stored[i] != stored[j]
    {
      var rest := stored[..i] + stored[i + 1..];
      assert stored == stored[..i] + ([stored[i]] + stored[i + 1..]);
      assert multiset(stored) == multiset(rest) + multiset{stored[i]};
      assert multiset(owned)[stored[i]] == 1;
      forall j | i < j < |stored| ensures stored[i] != stored[j] {
        assert rest[j - 1] == stored[j];
        assert stored[j] in multiset(rest);
      }
    }
    assert |multiset(owned)| == |multiset(live)| + |multiset(stored)|;
    forall b ensures b in owned <==> b in live || b in stored {
      assert b in multiset(owned) <==> b in multiset(live) || b in multiset(stored);
    }
  }

  lemma TakenFromSystem(live: set<Block>, owned: set<Block>, b: Block, numobjs: nat, peak: nat)
    requires Conserved(live, [], owned, numobjs, peak) && b !in owned
    ensures b !in live
    ensures Conserved(live + {b}, [], owned + {b}, numobjs, Max(peak, |live + {b}|))
  {
    assert b !in multiset(owned);
    assert multiset(owned + {b}) == multiset(owned) + multiset{b};
    assert multiset(live + {b}) == multiset(live) + multiset{b};
    assert |multiset(owned)| == |multiset(live)|;
  }

  lemma Reused(live: set<Block>, stored: seq<Block>, owned: set<Block>, numobjs: nat, peak: nat)
    requires Conserved(live, stored, owned, numobjs, peak) && stored != []
    ensures stored[0] !in live
    ensures Conserved(live + {stored[0]}, stored[1..], owned, numobjs, Max(peak, |live + {stored[0]}|))
  {
    var b, rest := stored[0], stored[1..];
    assert stored == [b] + rest;
    assert multiset(owned)[b] == 1 + multiset(live)[b] + multiset(rest)[b];
    assert multiset(live + {b}) == multiset(live) + multiset{b};
    assert multiset(owned) == multiset(live + {b}) + multiset(rest);
    assert |multiset(owned)| == |multiset(live + {b})| + |multiset(rest)|;
  }

  lemma GivenBack(live: set<Block>, stored: seq<Block>, owned: set<Block>, numobjs: nat, peak: nat, b: Block)
    requires Conserved(live, stored, owned, numobjs, peak) && b in live
    ensures Conserved(live - {b}, stored + [b], owned, numobjs, peak)
  {
    assert multiset(live) == multiset(live - {b}) + multiset{b};
  }

  lemma Preallocates(live: set<Block>, stored: seq<Block>, owned: set<Block>, floor: nat, peak: nat, b: Block)
    requires Conserved(live, stored, owned, floor, peak) && b !in owned
    ensures Conserved(live, stored + [b], owned + {b}, |owned| + 1, peak)
  {
    assert multiset(owned + {b}) == multiset(owned) + multiset{b};
  }

  ghost function Blocks(s: seq<Block>): set<Block> { set b | b in s }

  /** Blocks the system may give one after the other: each is then not taken. */
  ghost predicate Spare(given: seq<Block>, owned: set<Block>) {
    given == [] || (given[0] !in owned && Spare(given[1..], owned + {given[0]}))
  }

  /** That is, they are all different, and none of them was taken before. */
  lemma {:induction false} SpareIff(given: seq<Block>, owned: set<Block>)
    ensures Spare(given, owned) <==>
      && (forall i :: 0 <= i < |given| ==> given[i] !in owned)
      && (forall i, j :: 0 <= i < j < |given| ==> given[i] != given[j])
  {
    if given != [] {
      SpareIff(given[1..], owned + {given[0]});
      assert forall i :: 0 < i < |given| ==> given[i] == given[1..][i - 1];
    }
  }

  lemma Ends(stored: seq<Block>, owned: set<Block>, given: seq<Block>)
    ensures given[0..] == given && stored + given[..0] == stored && owned + Blocks(given[..0]) == owned
    ensures stored + given[..|given|] == stored + given && Blocks(given[..|given|]) == Blocks(given)
  {
    assert given[..|given|] == given;
  }

  lemma OneMore(stored: seq<Block>, owned: set<Block>, given: seq<Block>, i: nat)
    requires i < |given|
    ensures given[i..][0] == given[i] && given[i..][1..] == given[i + 1..]
    ensures stored + given[..i + 1] == (stored + given[..i]) + [given[i]]
    ensures owned + Blocks(given[..i + 1]) == owned + Blocks(given[..i]) + {given[i]}
  {
    assert given[..i + 1] == given[..i] + [given[i]];
  }

  function Unfreed(tmp: Option<Block>, stored: seq<Block>): seq<Block> {
    if tmp.Some? then [tmp.value] + stored else stored
  }

  lemma Shift(freed: seq<Block>, b: Block, rest: seq<Block>)
    ensures freed + ([b] + rest) == (freed + [b]) + rest
  {
  }

  ghost function Without(owned: set<Block>, freed: seq<Block>): set<Block> {
    owned - set b | b in freed
  }

  lemma OnlyLiveLeft(live: set<Block>, stored: seq<Block>, owned: set<Block>, numobjs: nat, peak: nat)
    requires Conserved(live, stored, owned, numobjs, peak)
    ensures Without(owned, stored) == live
  {
    ConservedMeans(live, stored, owned, numobjs, peak);
  }

  class Allocator {
    const store: Queue<Block>
    /** The blocks handed out and not yet deleted. */
    ghost var live: set<Block>
    /** The blocks taken from the system and not given back. */
    ghost var owned: set<Block>
    /** The number there was after blocks were last preallocated, and the most in use since the store was
        last given back. */
    ghost var numobjs: nat
    ghost var peak: nat

    ghost predicate Valid()
      reads this, store, store.Repr
    {
      && this !in store.Repr && store.Valid() && store.sz == |store.contents|
      && Conserved(live, store.contents, owned, numobjs, peak)
    }

    /** `_store` is a static member: it exists, empty, before any other call. */
    constructor ()
      ensures Valid() && live == owned == {} && numobjs == peak == 0 && store.contents == []
      ensures fresh(store.Repr)
    {
      store := new Queue<Block>();
      live, owned, numobjs, peak := {}, {}, 0, 0;
    }

    /** Takes blocks from the system, which gives the addresses `given`. Whatever was done before, there are then
        as many blocks as before and these. */
    method PreallocInit(given: seq<Block>)
      requires Valid() && Spare(given, owned)
      modifies this, store.Repr
      ensures Valid() && fresh(store.Repr - old(store.Repr))
      ensures live == old(live) && store.contents == old(store.contents) + given && peak == old(peak)
      ensures owned == old(owned) + Blocks(given) && |owned| == old(|owned|) + |given|
      ensures numobjs == if given == [] then old(numobjs) else |owned|
    {
      ghost var stored, before, floor := store.contents, owned, numobjs;
      Ends(stored, before, given);
      for i := 0 to |given|
        invariant Valid() && fresh(store.Repr - old(store.Repr)) && live == old(live) && peak == old(peak)
        invariant store.contents == stored + given[..i] && Spare(given[i..], owned)
        invariant owned == before + Blocks(given[..i]) && |owned| == |before| + i
        invariant numobjs == if i == 0 then floor else |owned|
      {
        OneMore(stored, before, given, i);
        Store(given[i]);
      }
    }

    /** One turn of its loop. */
    method Store(b: Block)
      requires Valid() && b !in owned
      modifies this, store.Repr
      ensures Valid() && fresh(store.Repr - old(store.Repr)) && live == old(live) && peak == old(peak)
      ensures store.contents == old(store.contents) + [b] && owned == old(owned) + {b}
      ensures |owned| == old(|owned|) + 1 == numobjs
    {
      Preallocates(live, store.contents, owned, numobjs, peak, b);
      store.Enq(b);
      owned, numobjs := owned + {b}, |owned| + 1;
    }

    /** `operator new`: a block from the store, oldest first; only when the store is empty does the
        system give one, at an address `spare` not in use. */
    method New(spare: Block) returns (b: Block)
      requires Valid() && spare !in owned
      modifies this, store.Repr
      ensures Valid() && fresh(store.Repr - old(store.Repr))
      ensures b !in old(live) && live == old(live) + {b} && numobjs == old(numobjs)
      ensures old(store.contents) != [] ==>
        old(store.contents) == [b] + store.contents && owned == old(owned)
      ensures old(store.contents) == [] ==>
        b == spare && store.contents == [] && owned == old(owned) + {b}
      ensures peak == Max(old(peak), |live|)
    {
      ghost var stored := store.contents;
      var stuff, _ := store.NowaitDeq();
      if stuff.Some? {
        b := stuff.value;
        Reused(live, stored, owned, numobjs, peak);
      } else {
        b := spare;
        TakenFromSystem(live, owned, spare, numobjs, peak);
        owned := owned + {b};
      }
      live := live + {b};
      peak := Max(peak, |live|);
    }

    /** `operator delete` of a block that is in use. */
    method Delete(b: Block)
      requires Valid() && b in live
      modifies this, store.Repr
      ensures Valid() && fresh(store.Repr - old(store.Repr))
      ensures live == old(live) - {b} && store.contents == old(store.contents) + [b]
      ensures owned == old(owned) && numobjs == old(numobjs) && peak == old(peak)
    {
      GivenBack(live, store.contents, owned, numobjs, peak, b);
      store.Enq(b);
      live := live - {b};
    }

    /** Gives every stored block back to the system once, and no other; `freed` lists them. What is then owned
        is what is in use, and the counts begin anew. */
    method PreallocDeinit() returns (freed: seq<Block>)
      requires Valid()
      modifies this, store.Repr
      ensures Valid() && fresh(store.Repr - old(store.Repr)) && store.contents == [] && freed == old(store.contents)
      ensures live == old(live) == owned && numobjs == 0 && peak == |live|
    {
      OnlyLiveLeft(live, store.contents, owned, numobjs, peak);
      freed := Drain(store);
      owned := Without(owned, freed);
      numobjs, peak := 0, |live|;
    }
  }

  /** The loop of `prealloc_deinit`. */
  method Drain(store: Queue<Block>) returns (freed: seq<Block>)
    requires store.Valid() && store.sz == |store.contents|
    modifies store.Repr
    ensures store.Valid() && store.Repr == old(store.Repr)
    ensures store.contents == [] && store.sz == 0 && freed == old(store.contents)
  {
    freed := [];
    ghost var rest := store.contents;
    var tmp, asleep := store.NowaitDeq();
    while tmp.Some?
      invariant store.Valid() && store.Repr == old(store.Repr)
      invariant store.sz == |store.contents| && (tmp.None? ==> store.contents == [])
      invariant rest == Unfreed(tmp, store.contents) && freed + rest == old(store.contents)
      decreases |rest|
    {
      Shift(freed, tmp.value, store.contents);
      freed, rest := freed + [tmp.value], store.contents;
      tmp, asleep := store.NowaitDeq();
    }
  }
}
