/** The reference-counted cache (src/Cache.hpp), used by one thread. */
module Cache {
  import opened Wrappers
  import opened Sums

  /** `_Stuff`: an entry with its bookkeeping. */
  class Stuff<Handle, S> {
    const s: S
    const sz: nat
    var refcnt: int
    var invalid: bool
    /** The handle it was stored under. */
    ghost const home: Handle

    constructor (s: S, sz: nat, ghost home: Handle)
      ensures this.s == s && this.sz == sz && refcnt == 1 && !invalid && this.home == home
    {
      this.s, this.sz, this.home := s, sz, home;
      refcnt, invalid := 1, false;
    }
  }

  datatype Entry<S> = Entry(s: S, sz: nat, refcnt: int, invalid: bool)

  ghost function Sizes<Handle, S>(m: map<Handle, Entry<S>>): nat {
    Sum(map h | h in m :: m[h].sz)
  }

  /** The entries some client still holds. */
  ghost function Held<Handle, S>(m: map<Handle, Entry<S>>): map<Handle, Entry<S>> {
    map h | h in m && m[h].refcnt > 0 :: m[h]
  }

  /** What is left of `m` after evicting some entries nobody holds. */
  ghost predicate Trimmed<Handle, S>(m: map<Handle, Entry<S>>, m': map<Handle, Entry<S>>) {
    && (forall h <- m' :: h in m && m'[h] == m[h])
    && (forall h <- m :: m[h].refcnt > 0 ==> h in m')
  }

  /** `v` was evicted, and nobody held it. */
  ghost predicate Evicted<Handle, S>(m: map<Handle, Entry<S>>, m': map<Handle, Entry<S>>, v: Handle) {
    v in m && m[v].refcnt == 0 && m' == m - {v}
  }

  /** Everything is kept, or the last entry evicted still stood in the way of sz more. */
  ghost predicate NoMoreThanNeeded<Handle, S>(m: map<Handle, Entry<S>>, m': map<Handle, Entry<S>>,
                                              sz: nat, max: nat) {
    m' == m || exists v :: v in m && v !in m' && max < Sizes(m') + m[v].sz + sz
  }

  lemma SizesRemove<Handle, S>(m: map<Handle, Entry<S>>, h: Handle)
    requires h in m
    ensures Sizes(m) == m[h].sz + Sizes(m - {h})
  {
    var sizes := map k | k in m :: m[k].sz;
    SumRemove(sizes, h);
    assert sizes - {h} == map k | k in m - {h} :: (m - {h})[k].sz;
  }

  lemma SizesSet<Handle, S>(m: map<Handle, Entry<S>>, h: Handle, e: Entry<S>)
    ensures Sizes(m[h := e]) == Sizes(m) + e.sz - (if h in m then m[h].sz else 0)
  {
    var sizes := map k | k in m :: m[k].sz;
    SumSet(sizes, h, e.sz);
    var m' := m[h := e];
    assert sizes[h := e.sz] == map k | k in m' :: m'[k].sz;
  }

  lemma SizesTrimmed<Handle, S>(m: map<Handle, Entry<S>>, m': map<Handle, Entry<S>>)
    requires Trimmed(m, m')
    ensures Sizes(Held(m)) <= Sizes(m') <= Sizes(m) && Held(m') == Held(m)
  {
    SumMonotone(map k | k in m' :: m'[k].sz, map k | k in m :: m[k].sz);
    SumMonotone(map k | k in Held(m) :: m[k].sz, map k | k in m' :: m'[k].sz);
    assert (map k | k in Held(m) :: m[k].sz) == map k | k in Held(m) :: Held(m)[k].sz;
  }

  /** One eviction more, when there was still no room. */
  lemma EvictedOnce<Handle, S>(m: map<Handle, Entry<S>>, between: map<Handle, Entry<S>>,
                               m': map<Handle, Entry<S>>, v: Handle, sz: nat, max: nat)
    requires Trimmed(m, between) && Evicted(between, m', v) && max < Sizes(between) + sz
    ensures Trimmed(m, m') && NoMoreThanNeeded(m, m', sz, max) && |m'| < |between|
  {
    SizesRemove(between, v);
  }

  lemma AllEvicted<Handle, S>(m: map<Handle, Entry<S>>, m': map<Handle, Entry<S>>)
    requires Trimmed(m, m') && forall h <- m' :: m'[h].refcnt > 0
    ensures m' == Held(m)
  {
  }

  class Cache<Handle(==, !new), S> {
    /** The public view: every stored entry with its bookkeeping. */
    ghost var contents: map<Handle, Entry<S>>
    /** The entries stored so far, and those deleted so far. */
    ghost var stored: set<Stuff<Handle, S>>
    ghost var deleted: set<Stuff<Handle, S>>

    var cache: map<Handle, Stuff<Handle, S>>
    var toevict: set<Handle>
    var cur: nat
    const max: nat

    /** The map is as `contents` says and holds no deleted entry; an entry nobody holds waits in
        `toevict`, unless its handle was just popped from there. */
    ghost predicate Tied(popped: set<Handle>)
      reads `cache, `contents, `deleted, `toevict, cache.Values`refcnt, cache.Values`invalid
    {
      && cache.Keys == contents.Keys
      && forall h <- cache ::
           var e := cache[h];
           && e.home == h && e !in deleted && contents[h] == Entry(e.s, e.sz, e.refcnt, e.invalid)
           && e.refcnt >= 0 && (e.refcnt == 0 ==> h in toevict || h in popped)
    }

    /** Every entry ever stored is in the map or deleted. */
    ghost predicate Accounted()
      reads `cache, `stored, `deleted
    {
      forall x <- stored :: x in deleted || (x.home in cache && cache[x.home] == x)
    }

    /** `cur` is the total size of what is stored, and of `reserved` for an entry to come. */
    ghost predicate ValidBut(popped: set<Handle>, reserved: nat)
      reads this, cache.Values
    {
      Tied(popped) && Accounted() && cur == Sizes(contents) + reserved && Sizes(contents) <= max
    }

    ghost predicate Valid()
      reads this, cache.Values
    {
      ValidBut({}, 0)
    }

    constructor (max: nat)
      ensures Valid() && contents == map[] && stored == {} && this.max == max
    {
      this.max := max;
      cache, toevict, cur := map[], {}, 0;
      contents, stored, deleted := map[], {}, {};
    }

    /** A hit pins the entry once more; nothing else changes. */
    method Get(h: Handle) returns (r: Option<S>)
      requires Valid()
      modifies this`contents, if h in cache then {cache[h]} else {}
      ensures Valid()
      ensures h !in old(contents) ==> r == None && contents == old(contents)
      ensures h in old(contents) ==>
        var e := old(contents)[h];
        r == Some(e.s) && contents == old(contents)[h := e.(refcnt := e.refcnt + 1)]
    {
      r := None;
      if h in cache {
        cache[h].refcnt := cache[h].refcnt + 1;
        r := Some(cache[h].s);
        ghost var e := contents[h].(refcnt := cache[h].refcnt);
        SizesSet(contents, h, e);
        contents := contents[h := e];
      }
    }

    /** A client advises to evict an entry once nobody holds it. */
    method AdviseEvict(h: Handle)
      requires Valid()
      modifies this`contents, if h in cache then {cache[h]} else {}
      ensures Valid()
      ensures contents == if h in old(contents) then old(contents)[h := old(contents)[h].(invalid := true)]
                          else old(contents)
    {
      if h in cache {
        cache[h].invalid := true;
        ghost var e := contents[h].(invalid := true);
        SizesSet(contents, h, e);
        contents := contents[h := e];
      }
    }

    /** A client is done with an entry it holds. When it was the last one, an invalid entry is
        evicted at once and any other waits for eviction. */
    method Unget(h: Handle)
      requires Valid() && (h in contents ==> contents[h].refcnt > 0)
      modifies this`contents, this`cache, this`cur, this`deleted, this`toevict
      modifies if h in cache then {cache[h]} else {}
      ensures Valid()
      ensures h !in old(contents) ==> contents == old(contents)
      ensures h in old(contents) ==>
        var e := old(contents)[h];
        contents == if e.refcnt == 1 && e.invalid then old(contents) - {h}
                    else old(contents)[h := e.(refcnt := e.refcnt - 1)]
    {
      if h in cache {
        cache[h].refcnt := cache[h].refcnt - 1;
        ghost var before := contents;
        ghost var e := contents[h].(refcnt := cache[h].refcnt);
        SizesSet(contents, h, e);
        contents := contents[h := e];
        assert before[h := e] - {h} == before - {h};
        assert ValidBut({h}, 0);
        var doenq := cache[h].refcnt == 0;
        var doevict := doenq && cache[h].invalid;
        var evicted := false;
        if doevict { evicted := EvictHandle(h); }
        if doenq && !evicted { toevict := toevict + {h}; }
      }
    }

    /** `evict(h)`: removes and deletes the entry exactly when nobody holds it. */
    method EvictHandle(h: Handle) returns (evicted: bool)
      requires ValidBut({h}, 0)
      modifies this`contents, this`cache, this`cur, this`deleted
      ensures Valid() && (evicted <==> h in old(contents) && old(contents)[h].refcnt == 0)
      ensures contents == if evicted then old(contents) - {h} else old(contents)
      ensures deleted == old(deleted) + if evicted then {old(cache)[h]} else {}
    {
      evicted := false;
      if h in cache && cache[h].refcnt == 0 {
        SizesRemove(contents, h);
        cur := cur - cache[h].sz;
        deleted := deleted + {cache[h]};
        cache, contents := cache - {h}, contents - {h};
        evicted := true;
      }
    }

    /** `evict()`: evicts one entry nobody holds if there is one, and answers whether it did. Handles
        whose entries are gone or held again are dropped from `toevict` on the way. */
    method Evict() returns (evicted: bool, ghost victim: Option<Handle>)
      requires Valid()
      modifies this`contents, this`cache, this`cur, this`deleted, this`toevict
      ensures Valid() && (evicted <==> victim.Some?)
      ensures evicted ==> Evicted(old(contents), contents, victim.value)
      ensures !evicted ==> contents == old(contents) && forall h <- contents :: contents[h].refcnt > 0
    {
      evicted, victim := false, None;
      while !evicted
        invariant Valid() && (evicted <==> victim.Some?)
        invariant !evicted ==> contents == old(contents)
        invariant evicted ==> Evicted(old(contents), contents, victim.value)
        decreases !evicted, toevict
      {
        if toevict == {} {
          return;
        }
        var h :| h in toevict;
        toevict := toevict - {h};
        evicted := EvictHandle(h);
        victim := if evicted then Some(h) else None;
      }
    }

    /** What `put` does when its reservation does not fit: it backs out, evicts one entry, and on
        success reserves again. */
    method TryAgain(sz: nat) returns (ok: bool, ghost victim: Option<Handle>)
      requires ValidBut({}, sz)
      modifies this`contents, this`cache, this`cur, this`deleted, this`toevict
      ensures ok <==> victim.Some?
      ensures ok ==> ValidBut({}, sz) && Evicted(old(contents), contents, victim.value)
      ensures !ok ==> Valid() && contents == old(contents) && forall h <- contents :: contents[h].refcnt > 0
    {
      cur := cur - sz;
      ok, victim := Evict();
      if ok { cur := cur + sz; }
    }

    /** The reservation loop of `put`: adds sz to `cur`, evicting one entry after another until the
        total fits or nothing is left to evict. */
    method Reserve(sz: nat) returns (ok: bool)
      requires Valid() && sz <= max
      modifies this`contents, this`cache, this`cur, this`deleted, this`toevict
      ensures Trimmed(old(contents), contents) && NoMoreThanNeeded(old(contents), contents, sz, max)
      ensures ok ==> ValidBut({}, sz) && cur <= max
      ensures !ok ==> Valid() && contents == Held(old(contents)) && max < Sizes(contents) + sz
    {
      ghost var before := contents;
      cur := cur + sz;
      ok := true;
      while ok && cur > max
        invariant ok ==> ValidBut({}, sz)
        invariant !ok ==> Valid() && contents == Held(before) && max < Sizes(contents) + sz
        invariant Trimmed(before, contents) && NoMoreThanNeeded(before, contents, sz, max)
        decreases ok, |contents|
      {
        ghost var between, v := contents, None;
        ok, v := TryAgain(sz);
        if ok {
          EvictedOnce(before, between, contents, v.value, sz, max);
        } else {
          AllEvicted(before, contents);
        }
      }
    }

    /** Succeeds exactly when the handle is free, the new entry fits beside the entries held, and
        memory for it can be had. It evicts only entries nobody holds, and on success no more of them
        than needed; on failure for lack of room, all of them are gone. */
    method Put(h: Handle, s: S, sz: nat, allocates: bool) returns (ok: bool, ghost kept: map<Handle, Entry<S>>)
      requires Valid()
      modifies this
      ensures Valid() && Trimmed(old(contents), kept)
      ensures ok <==> h !in old(contents) && Sizes(Held(old(contents))) + sz <= max && allocates
      ensures contents == if ok then kept[h := Entry(s, sz, 1, false)] else kept
      ensures NoMoreThanNeeded(old(contents), kept, sz, max)
      ensures h in old(contents) || max < sz ==> kept == old(contents)
      ensures stored == old(stored) + if ok then {cache[h]} else {}
      ensures !ok && h !in old(contents) && sz <= max && allocates ==> kept == Held(old(contents))
    {
      kept := contents;
      if sz > max {
        return false, kept;
      }
      if h in cache {
        return false, kept;
      }
      ok := Reserve(sz);
      SizesTrimmed(kept, contents);
      kept := contents;
      if !ok {
        return false, kept;
      }
      if !allocates {
        cur := cur - sz;
        return false, kept;
      }
      ok := Insert(h, s, sz);
    }

    /** The end of `put`: looks the handle up again and stores the new entry, held by the caller. */
    method Insert(h: Handle, s: S, sz: nat) returns (ok: bool)
      requires ValidBut({}, sz) && cur <= max && h !in contents
      modifies this`cache, this`contents, this`stored
      ensures Valid() && ok && contents == old(contents)[h := Entry(s, sz, 1, false)]
      ensures fresh(cache[h]) && cache[h].s == s && stored == old(stored) + {cache[h]}
    {
      var stuff := new Stuff(s, sz, h);
      var already := h in cache;
      if !already {
        SizesSet(contents, h, Entry(s, sz, 1, false));
        stored := stored + {stuff};
        cache, contents := cache[h := stuff], contents[h := Entry(s, sz, 1, false)];
      }
      ok := !already;
    }

    /** Deletes every entry, once each, also those that clients still hold. */
    method Flush()
      requires Valid()
      modifies this`contents, this`cache, this`cur, this`deleted
      ensures Valid() && contents == map[] && cur == 0
      ensures deleted == old(deleted) + old(cache.Values)
    {
      var l := cache.Values;
      while l != {}
        invariant l <= cache.Values && l !! deleted && deleted + l == old(deleted) + cache.Values
        invariant cache == old(cache) && cur == old(cur) && contents == old(contents)
      {
        var it :| it in l;
        l := l - {it};
        deleted := deleted + {it};
      }
      cur := 0;
      cache, contents := map[], map[];
    }
  }
}
