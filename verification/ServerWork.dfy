/** The work object of one connection (src/HTTP_Server_Work.cpp, src/HTTP_Work.cpp, src/Work.cpp) as it
    updates its fields; `Connection` has its meaning on values and what holds over whole runs. */
module ServerWork {
  import opened Wrappers
  import opened HeaderNames
  import opened HeaderParsing
  import opened HeaderStream
  import opened Connection

  /** `rduntil`: every read is pushed to the stream until one would block, fails, or finds the end. */
  method ReadInto(inbuf: Input, rs: seq<ReadResult>) returns (err: Errno)
    requires inbuf.Valid()
    modifies inbuf
    ensures inbuf.Valid() && inbuf.eof == old(inbuf.eof) && inbuf.fail == old(inbuf.fail)
    ensures var r := ReadUntil(rs, Zero); inbuf.Unread() == old(inbuf.Unread()) + r.text && err == r.err
  {
    err := Zero;
    var i := 0;
    ghost var text := "";
    while i < |rs| && !Stops(rs[i])
      invariant i <= |rs| && inbuf.Valid() && inbuf.eof == old(inbuf.eof) && inbuf.fail == old(inbuf.fail)
      invariant inbuf.Unread() == old(inbuf.Unread()) + text
      invariant Resumed(rs, i, err, text)
    {
      ghost var before, unread := text, inbuf.Unread();
      match rs[i] {
        case Data(s) =>
          inbuf.Append(CText(s));
          text := text + CText(s);
          Assoc(old(inbuf.Unread()), before, CText(s));
        case _ =>
          err := EINTR;
      }
      Resuming(rs, i, before, text);
      i := i + 1;
    }
    if i == |rs| || rs[i].ReadBlocks? {
      err := EAGAIN;
    } else if rs[i].ReadError? {
      err := Code(rs[i].code);
    }
    assert text + "" == text;
  }

  /** After i answers that do not stop the loop, `text` was read. */
  ghost predicate Resumed(rs: seq<ReadResult>, i: nat, err: Errno, text: string)
    requires i <= |rs|
  {
    var r := ReadUntil(rs[i..], err);
    ReadUntil(rs, Zero) == ReadDone(text + r.text, r.err)
  }

  lemma Resuming(rs: seq<ReadResult>, i: nat, before: string, text: string)
    requires i < |rs| && !Stops(rs[i])
    requires text == before + if rs[i].Data? then CText(rs[i].s) else ""
    ensures forall err :: Resumed(rs, i, err, before) ==>
      Resumed(rs, i + 1, if rs[i].Data? then err else EINTR, text)
  {
    assert rs[i..][1..] == rs[i + 1..];
    forall err | Resumed(rs, i, err, before)
      ensures Resumed(rs, i + 1, if rs[i].Data? then err else EINTR, text)
    {
      if rs[i].Data? { Assoc(before, CText(rs[i].s), ReadUntil(rs[i + 1..], err).text); }
    }
  }

  lemma Advanced(out: string, from: nat, to: nat)
    requires from <= to <= |out|
    ensures out[from..][..to - from] == out[from..to] && out[from..][to - from..] == out[to..]
  {
  }

  class Server {
    const respond: Responder
    const max: Option<nat>
    var m: Mode
    var deleteme: bool
    var nosch: bool
    var inhdrs_done: bool
    var outhdrs_done: bool
    var inbuf: Input
    var inhdrs: array<string>
    // The buffer that is being written, the position in it, and how much of it is still to be written.
    var out: string
    var outpos: nat
    var outsz: nat
    var outbody: string

    // The history. The answers may depend on the requests before.
    var requests: seq<Headers>
    ghost var received: string
    ghost var sent: string

    ghost predicate Shaped()
      reads this, inbuf
    {
      inbuf.Valid() && inhdrs.Length == NUM_SLOTS && outpos + outsz == |out|
    }

    ghost predicate Valid()
      reads this, inbuf
    {
      && Shaped() && inbuf.Good()
      && (inhdrs_done <==> m == Write)
      && (m == Read ==> out == outbody == "" && !outhdrs_done)
    }

    ghost function Abs(): Conn
      requires Shaped()
      reads this, inbuf, inhdrs
    {
      Conn(m, outhdrs_done, inhdrs[..], inbuf.Unread(), out[outpos..], outbody, deleteme, nosch,
           received, requests, sent)
    }

    constructor (respond: Responder, max: Option<nat>)
      ensures Valid() && fresh(inbuf) && fresh(inhdrs) && Abs() == FRESH
      ensures this.respond == respond && this.max == max
    {
      this.respond, this.max := respond, max;
      m, deleteme, nosch, inhdrs_done, outhdrs_done := Read, false, false, false, false;
      inbuf := new Input();
      inhdrs := new string[NUM_SLOTS](_ => "");
      out, outpos, outsz, outbody := "", 0, 0, "";
      received, requests, sent := "", [], "";
      new;
      assert inhdrs[..] == NoLines();
    }

    /** `wruntil`: advances the pointer over what was written. */
    method WriteOut(ws: seq<WriteResult>) returns (err: Errno)
      requires Valid() && m == Write
      modifies this`outpos, this`outsz, this`sent
      ensures Valid() && (err == Zero <==> outsz == 0)
      ensures var w := WriteUntil(ws, old(outsz)); err == w.err && outpos == old(outpos) + w.n
      ensures sent == old(sent) + out[old(outpos)..outpos]
    {
      var i := 0;
      while outsz > 0 && i < |ws| && (ws[i].Wrote? || ws[i].WriteInterrupted?)
        invariant i <= |ws| && Valid() && old(outpos) <= outpos && outsz <= old(outsz)
        invariant sent == old(sent) + out[old(outpos)..outpos]
        invariant var w := WriteUntil(ws[i..], outsz);
          WriteUntil(ws, old(outsz)) == WriteDone(outpos - old(outpos) + w.n, w.err)
      {
        assert ws[i..][1..] == ws[i + 1..];
        if ws[i].Wrote? {
          var k := Min(ws[i].n, outsz);
          sent := sent + out[outpos..outpos + k];
          outpos := outpos + k;
          outsz := outsz - k;
        }
        i := i + 1;
      }
      if outsz == 0 {
        err := Zero;
      } else if i < |ws| && ws[i].WriteError? {
        err := Code(ws[i].code);
      } else {
        err := EAGAIN;
      }
    }

    method WriteOn(ws: seq<WriteResult>) returns (err: Errno)
      requires Valid() && m == Write
      modifies this`outpos, this`outsz, this`sent
      ensures Valid() && (err == Zero <==> outsz == 0)
      ensures var w := WriteUntil(ws, |old(Abs()).out|); err == w.err && Abs() == Sent(old(Abs()), w.n)
    {
      ghost var c, from := Abs(), outpos;
      assert |c.out| == outsz;
      err := WriteOut(ws);
      Advanced(out, from, outpos);
      assert inbuf.Unread() == c.unread && inhdrs[..] == c.inhdrs;
      assert Abs() == c.(sent := sent, out := out[outpos..]);
    }

    /** Points the output at the beginning of a buffer. */
    method Load(buf: string)
      modifies this`out, this`outpos, this`outsz
      ensures out == buf && outpos == 0 && outsz == |buf| && out[outpos..] == buf
    {
      out, outpos, outsz := buf, 0, |buf|;
    }

    /** Flags and request history. */
    method Note(a: Output)
      requires Valid() && m == Read
      modifies this`deleteme, this`nosch, this`requests
      ensures Valid()
      ensures Abs() == old(Abs()).(deleteme := old(deleteme) || a.close, nosch := old(nosch) || a.park,
                                   requests := old(requests) + [inhdrs[..]])
    {
      deleteme, nosch := deleteme || a.close, nosch || a.park;
      requests := requests + [inhdrs[..]];
    }

    /** Starts to write the response to a complete request. */
    method Respond(a: Output)
      requires Valid() && m == Read
      modifies this`m, this`inhdrs_done, this`deleteme, this`nosch
      modifies this`out, this`outpos, this`outsz, this`outbody, this`requests
      ensures Valid() && Abs() == Answering(old(Abs()), a)
    {
      Note(a);
      ghost var c := Abs();
      Load(a.hdrs);
      outbody := a.body;
      inhdrs_done := true;
      m := Write;
      assert inbuf.Unread() == c.unread && inhdrs[..] == c.inhdrs;
      assert Abs() == c.(m := Write, out := a.hdrs, outbody := a.body);
    }

    /** `reset`: the unread text stays. */
    method Reset()
      requires Valid()
      modifies this`m, this`inhdrs_done, this`outhdrs_done, this`inhdrs, this`out, this`outpos, this`outsz, this`outbody
      ensures Valid() && Abs() == Connection.Reset(old(Abs())) && fresh(inhdrs)
    {
      ghost var c := Abs();
      inhdrs_done, outhdrs_done := false, false;
      inhdrs := new string[NUM_SLOTS](_ => "");
      assert inhdrs[..] == NoLines();
      Load("");
      outbody := "";
      m := Read;
      assert inbuf.Unread() == c.unread;
      assert Abs() == c.(m := Read, outhdrs_done := false, inhdrs := NoLines(), out := "", outbody := "");
    }

    /** The branch for reading. */
    method ReadRequest(rs: seq<ReadResult>) returns (o: Outcome)
      requires Valid() && m == Read
      modifies this, inbuf, inhdrs
      ensures Shaped() && (Goes(o) ==> Valid())
      ensures (Abs(), o) == ReadPhase(old(Abs()), respond, rs, max)
    {
      ghost var c := Abs();
      var err := ReadInto(inbuf, rs);
      received := received + ReadUntil(rs, Zero).text;
      if err != Zero && err != EAGAIN {
        return SocketErr(err);
      }
      var v := Extract(inbuf, inhdrs, max);
      match v {
        case TooLong => return LineTooLong;
        case NeedMore => return Rescheduled;
        case Done =>
          if inhdrs[CONTENT_LENGTH] != "" {
            return BodyExpected;
          }
          Respond(Prepare(respond(|requests|, inhdrs[..])));
          return Rescheduled;
      }
    }

    /** When the headers are written, the body is next; when that is written, another request may be. */
    method WrittenOut(rs: seq<ReadResult>) returns (o: Outcome)
      requires Valid() && m == Write && outsz == 0
      modifies this, inbuf, inhdrs
      ensures Shaped() && (Goes(o) ==> Valid())
      ensures (Abs(), o) == AllWritten(old(Abs()), respond, rs, max)
    {
      if !outhdrs_done {
        outhdrs_done := true;
        Load(outbody);
        return Rescheduled;
      }
      if nosch {
        return Dormant;
      }
      if deleteme {
        return Finished;
      }
      Reset();
      o := NextRequest(rs);
    }

    /** Tries for a character of another request. */
    method NextRequest(rs: seq<ReadResult>) returns (o: Outcome)
      requires Valid() && m == Read
      modifies this, inbuf, inhdrs
      ensures Shaped() && (Goes(o) ==> Valid())
      ensures (Abs(), o) ==
        if old(inbuf.Unread()) == "" then (old(Abs()), Rescheduled) else ReadPhase(old(Abs()), respond, rs, max)
    {
      var more := AnotherBegun();
      if more {
        o := ReadRequest(rs);
      } else {
        o := Rescheduled;
      }
    }

    /** The test itself: it loses no character. */
    method AnotherBegun() returns (more: bool)
      requires Valid() && m == Read
      modifies inbuf
      ensures Valid() && Abs() == old(Abs()) && more == (inbuf.Unread() != "")
    {
      more := inbuf.HasNext();
    }

    /** The branch for writing. */
    method WriteResponse(rs: seq<ReadResult>, ws: seq<WriteResult>) returns (o: Outcome)
      requires Valid() && m == Write
      modifies this, inbuf, inhdrs
      ensures Shaped() && (Goes(o) ==> Valid())
      ensures (Abs(), o) == WritePhase(old(Abs()), respond, rs, ws, max)
    {
      var err := WriteOn(ws);
      if err == EAGAIN {
        o := Rescheduled;
      } else if err == Zero && outsz == 0 {
        o := WrittenOut(rs);
      } else {
        o := SocketErr(err);
      }
    }

    /** One call by a worker. */
    method Call(rs: seq<ReadResult>, ws: seq<WriteResult>) returns (o: Outcome)
      requires Valid()
      modifies this, inbuf, inhdrs
      ensures Shaped() && (Goes(o) ==> Valid())
      ensures (Abs(), o) == Connection.Call(old(Abs()), respond, rs, ws, max)
    {
      match m {
        case Read => o := ReadRequest(rs);
        case Write => o := WriteResponse(rs, ws);
      }
    }

    /** What a worker does with the object: the call, and the look at `deleteme`. */
    method WorkerTurn(rs: seq<ReadResult>, ws: seq<WriteResult>) returns (f: Fate)
      requires Valid()
      modifies this, inbuf, inhdrs
      ensures Shaped() && (f == PutBack ==> Valid())
      ensures (Abs(), f) == Connection.Turn(old(Abs()), respond, rs, ws, max)
    {
      var o := Call(rs, ws);
      match o {
        case LineTooLong => return Escaped;
        case BodyExpected => return Unmodelled;
        case SocketErr(_) =>
          ghost var c := Abs();
          deleteme := true;
          assert Abs() == c.(deleteme := true);
        case _ =>
      }
      f := if deleteme then Deleted else if o == Dormant then Asleep else PutBack;
    }
  }
}
