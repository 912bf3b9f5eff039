/** The work map (src/FindWork_prealloc.hpp) and the life of work objects in it, as one thread sees them. */
module FindWork {
  type Fd = nat

  datatype Mode = Read | Write

  class Work {
    const fd: Fd
    var m: Mode

    constructor (fd: Fd, m: Mode)
      ensures this.fd == fd && this.m == m
    {
      this.fd, this.m := fd, m;
    }
  }

  /** The map, and the descriptors that are open in the kernel. */
  class WorkMap {
    var wmap: map<Fd, Work>
    var open: set<Fd>
    /** The listening socket, which is never closed. */
    const listen: Fd

    /** Every key is an open descriptor and maps to the object for it. */
    ghost predicate Valid()
      reads this
    {
      forall fd <- wmap :: fd in open && wmap[fd].fd == fd
    }

    constructor (listen: Fd)
      ensures Valid() && wmap == map[] && open == {listen} && this.listen == listen
    {
      wmap, open, this.listen := map[], {listen}, listen;
    }

    /** Find or make. */
    method Find(fd: Fd, m: Mode) returns (w: Work)
      requires Valid() && fd in open
      modifies this`wmap
      ensures Valid() && w.fd == fd && wmap == old(wmap)[fd := w]
      ensures if fd in old(wmap) then w == old(wmap)[fd] else fresh(w) && w.m == m
    {
      if fd in wmap {
        w := wmap[fd];
        assert wmap == wmap[fd := w];
      } else {
        w := new Work(fd, m);
        wmap := wmap[fd := w];
      }
    }

    method Unregister(fd: Fd)
      requires Valid()
      modifies this`wmap
      ensures Valid() && wmap == old(wmap) - {fd}
    {
      wmap := wmap - {fd};
    }

    /** Puts an object made elsewhere into the map, unless its descriptor is there. */
    method RegisterAlien(w: Work?) returns (okay: bool)
      requires Valid() && (w != null ==> w.fd in open)
      modifies this`wmap
      ensures Valid() && okay == (w != null && w.fd !in old(wmap))
      ensures wmap == if okay then old(wmap)[w.fd := w] else old(wmap)
    {
      if w == null {
        return false;
      }
      okay := w.fd !in wmap;
      if okay {
        wmap := wmap[w.fd := w];
      }
    }

    /** `delete w`: the derived destructor unregisters the descriptor, then the base destructor closes it.
        In between, and in this order only, the map agrees with the kernel. */
    method Delete(w: Work)
      requires Valid() && w.fd in wmap
      modifies this
      ensures Valid() && wmap == old(wmap) - {w.fd} && open == old(open) - ({w.fd} - {listen})
    {
      Unregister(w.fd);
      Close(w.fd);
    }

    method Close(fd: Fd)
      requires Valid() && fd !in wmap
      modifies this`open
      ensures Valid() && open == old(open) - ({fd} - {listen})
    {
      if fd != listen {
        open := open - {fd};
      }
    }

    /** `accept` returns any descriptor that is not open, also one used before; it gets a new object. */
    method Accept(fd: Fd) returns (w: Work)
      requires Valid() && fd !in open
      modifies this
      ensures Valid() && fresh(w) && w.fd == fd && w.m == Read
      ensures wmap == old(wmap)[fd := w] && open == old(open) + {fd}
    {
      open := open + {fd};
      w := Find(fd, Read);
    }

    /** Deletes every object in the map, from a copy because each delete takes its own entry out. */
    method Clear()
      requires Valid()
      modifies this
      ensures Valid() && wmap == map[] && open == old(open) - (old(wmap).Keys - {listen})
    {
      var todel := Values();
      ghost var all, was := wmap, open;
      var i := 0;
      while i < |todel|
        invariant i <= |todel| && Valid()
        invariant wmap == map fd | fd in all && (forall j :: 0 <= j < i ==> todel[j].fd != fd) :: all[fd]
        invariant open == was - (all.Keys - wmap.Keys - {listen})
      {
        assert todel[i].fd in all;
        ghost var fd := todel[i].fd;
        assert fd in wmap by {
          assert forall j :: 0 <= j < i ==> todel[j].fd != fd;
        }
        Delete(todel[i]);
        i := i + 1;
      }
      assert forall fd <- all :: exists j :: 0 <= j < |todel| && todel[j].fd == fd;
      wmap := map[];
    }

    /** The objects in the map, each once. */
    method Values() returns (ws: seq<Work>)
      requires Valid()
      ensures forall i :: 0 <= i < |ws| ==> ws[i].fd in wmap && wmap[ws[i].fd] == ws[i]
      ensures forall i, j :: 0 <= i < j < |ws| ==> ws[i].fd != ws[j].fd
      ensures forall fd <- wmap :: exists i :: 0 <= i < |ws| && ws[i].fd == fd
    {
      ws := [];
      var left := wmap.Keys;
      while left != {}
        invariant left <= wmap.Keys
        invariant forall i :: 0 <= i < |ws| ==> ws[i].fd in wmap && ws[i].fd !in left && wmap[ws[i].fd] == ws[i]
        invariant forall i, j :: 0 <= i < j < |ws| ==> ws[i].fd != ws[j].fd
        invariant forall fd <- wmap :: fd in left || exists i :: 0 <= i < |ws| && ws[i].fd == fd
        decreases |left|
      {
        assert |left| > 0;
        var fd :| fd in left;
        ghost var before := ws;
        ws := ws + [wmap[fd]];
        left := left - {fd};
        forall f | f in wmap && f !in left ensures exists i :: 0 <= i < |ws| && ws[i].fd == f {
          if f == fd {
            assert ws[|before|].fd == fd;
          } else {
            var i :| 0 <= i < |before| && before[i].fd == f;
            assert ws[i].fd == f;
          }
        }
      }
    }
  }
}
