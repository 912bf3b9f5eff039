/** Which requests a connection takes, and that it serves them (`Connection`, `ConnectionRuns`): nothing here
    assumes how a call ends. */
module ConnectionRequests {
  import opened Wrappers
  import opened HeaderNames
  import opened HeaderParsing
  import opened HeaderTexts
  import opened Connection
  import opened ConnectionRuns

  // ---------- requests that announce a body ----------

  /** The line is for the header Content-Length and does not name the version. */
  ghost predicate LengthLine(line: string) { !NamesVersion(line) && IsFor(line, "Content_Length") }

  /** One of the lines stored announces a body. */
  ghost predicate HasLength(hdrs: Headers) { exists l <- hdrs :: l != "" && LengthLine(l) }

  /** The slot the code looks at has a line exactly if one of the lines stored announces a body. */
  lemma LengthIff(hdrs: Headers, max: Option<nat>)
    requires WellFormed(hdrs, max)
    ensures hdrs[CONTENT_LENGTH] != "" <==> HasLength(hdrs)
  {
    assert Name(CONTENT_LENGTH) == "Content_Length";
    if hdrs[CONTENT_LENGTH] != "" {
      assert LineFits(hdrs[CONTENT_LENGTH], CONTENT_LENGTH, max);
      SlotIff(hdrs[CONTENT_LENGTH], CONTENT_LENGTH);
      assert hdrs[CONTENT_LENGTH] in hdrs && LengthLine(hdrs[CONTENT_LENGTH]);
    }
    forall l | l in hdrs && l != "" && LengthLine(l) ensures hdrs[CONTENT_LENGTH] != "" {
      var i :| 0 <= i < NUM_SLOTS && hdrs[i] == l;
      assert LineFits(hdrs[i], i, max);
      SlotIff(l, CONTENT_LENGTH);
    }
  }

  // ---------- exactly when a request is taken ----------

  /** What the parser makes of the text there is after reading. */
  function ReadParsed(c: Conn, rs: seq<ReadResult>, max: Option<nat>): Parsed {
    Parse(c.unread + ReadUntil(rs, Zero).text, Ready(c).inhdrs, max)
  }

  /** The request was taken, and its whole answer is still to be sent. */
  ghost predicate TakesRequest(c: Conn, c': Conn, respond: Responder, h: Headers, rest: string) {
    && c'.requests == c.requests + [h] && c'.unread == rest && c'.m == Write && !c'.outhdrs_done
    && Remaining(c') == Reply(respond(|c.requests|, h))
    && c'.out == OutHdrs(respond(|c.requests|, h)) && c'.outbody == Body(respond(|c.requests|, h))
    && c'.deleteme == (c.deleteme || respond(|c.requests|, h).close)
    && c'.nosch == (c.nosch || respond(|c.requests|, h).park)
  }

  lemma ParsingTakes(c: Conn, respond: Responder, p: Parsed)
    requires c.m == Read && !c.outhdrs_done
    ensures var (c', o) := Parsing(c, respond, p);
      && (o == BodyExpected <==> p.verdict == Done && p.hdrs[CONTENT_LENGTH] != "")
      && c'.sent == c.sent
      && if p.verdict == Done && p.hdrs[CONTENT_LENGTH] == ""
         then o == Rescheduled && TakesRequest(c, c', respond, p.hdrs, p.rest)
         else c'.requests == c.requests
  {
  }

  lemma ReadTakes(c: Conn, respond: Responder, rs: seq<ReadResult>, max: Option<nat>)
    requires WellFormed(c.inhdrs, max) && c.m == Read && !c.outhdrs_done
    ensures var (c', o), p := ReadPhase(c, respond, rs, max), Parse(c.unread + ReadUntil(rs, Zero).text, c.inhdrs, max);
      var done := !ReadFails(ReadUntil(rs, Zero).err) && p.verdict == Done;
      && (o == BodyExpected <==> done && HasLength(p.hdrs)) && c'.sent == c.sent
      && if done && !HasLength(p.hdrs) then o == Rescheduled && TakesRequest(c, c', respond, p.hdrs, p.rest)
         else c'.requests == c.requests
  {
    var c' := TakeIn(c, ReadUntil(rs, Zero).text);
    var p := Parse(c'.unread, c.inhdrs, max);
    ParsedWellFormed(c'.unread, c.inhdrs, max);
    LengthIff(p.hdrs, max);
    ParsingTakes(c', respond, p);
  }

  /** The text that reading completes is a whole message without, or with, a line that announces a body. */
  ghost predicate Completes(c: Conn, rs: seq<ReadResult>, ws: seq<WriteResult>, max: Option<nat>, length: bool) {
    && Reads(c, ws) && !ReadFails(ReadUntil(rs, Zero).err)
    && HasMessage(c.unread + ReadUntil(rs, Zero).text, max)
    && HasLength(ReadParsed(c, rs, max).hdrs) == length
  }

  /** A call takes a request exactly if it reads without a socket error, the unread text then begins with a whole
      message, and no line of it announces a body; it ends as BodyExpected exactly if one does. */
  lemma TakenIff(c: Conn, respond: Responder, rs: seq<ReadResult>, ws: seq<WriteResult>, max: Option<nat>)
    requires WellFormed(Ready(c).inhdrs, max) && (c.m == Read ==> !c.outhdrs_done)
    ensures var (c', o), p := Call(c, respond, rs, ws, max), ReadParsed(c, rs, max);
      && (o == BodyExpected <==> Completes(c, rs, ws, max, true))
      && (if Completes(c, rs, ws, max, false) then o == Rescheduled && TakesRequest(c, c', respond, p.hdrs, p.rest)
          else c'.requests == c.requests)
  {
    DoneIff(c.unread + ReadUntil(rs, Zero).text, Ready(c).inhdrs, max);
    if Reads(c, ws) {
      CallReads(c, respond, rs, ws, max);
      ReadTakes(Ready(c), respond, rs, max);
      TakesAlike(Ready(c), c, respond);
    } else {
      CallWrites(c, respond, rs, ws, max);
    }
  }

  lemma TakesAlike(r: Conn, c: Conn, respond: Responder)
    requires r.requests == c.requests && r.deleteme == c.deleteme && r.nosch == c.nosch
    ensures forall c', h, rest :: TakesRequest(r, c', respond, h, rest) ==> TakesRequest(c, c', respond, h, rest)
  {
  }

  // ---------- a request is served ----------

  /** Between two messages, waiting for input. */
  predicate Waiting(c: Conn) {
    && c.m == Read && c.unread == "" && c.inhdrs == NoLines() && c.out == c.outbody == ""
    && !c.outhdrs_done && !c.deleteme && !c.nosch
  }

  /** A well-formed request without a body is taken by the call that reads it, whatever follows it, and the whole
      answer remains to be sent. */
  lemma RequestIsTaken(c: Conn, respond: Responder, rs: seq<ReadResult>, ws: seq<WriteResult>, max: Option<nat>,
                       h: Headers, more: string)
    requires Waiting(c) && WellFormed(h, max) && !HasLength(h)
    requires ReadUntil(rs, Zero).text == Print(h) + more && !ReadFails(ReadUntil(rs, Zero).err)
    ensures var (c', o) := Call(c, respond, rs, ws, max);
      o == Rescheduled && TakesRequest(c, c', respond, h, more) && c'.sent == c.sent
  {
    assert c.unread + ReadUntil(rs, Zero).text == Print(h) + more;
    RoundTripIff(h, more, max);
    assert WellFormed(NoLines(), max) by { NoLinesFit(max); }
    ReadTakes(c, respond, rs, max);
  }

  lemma NoLinesFit(max: Option<nat>)
    ensures WellFormed(NoLines(), max)
  {
  }

  /** The call that writes the last of the headers puts the body in their place. */
  lemma HdrsAreSent(c: Conn, respond: Responder, rs: seq<ReadResult>, ws: seq<WriteResult>, max: Option<nat>)
    requires c.m == Write && !c.outhdrs_done && Accepted(ws) >= |c.out|
    ensures Call(c, respond, rs, ws, max) ==
      (c.(sent := c.sent + c.out, out := c.outbody, outhdrs_done := true), Rescheduled)
  {
    WritesWhatFits(ws, |c.out|);
    assert c.out[..|c.out|] == c.out;
  }

  /** The call that writes the last of the body waits for the next request, if none has begun. */
  lemma BodyIsSent(c: Conn, respond: Responder, rs: seq<ReadResult>, ws: seq<WriteResult>, max: Option<nat>)
    requires c.m == Write && c.outhdrs_done && Accepted(ws) >= |c.out|
    requires !c.nosch && !c.deleteme && c.unread == ""
    ensures var (c', o) := Call(c, respond, rs, ws, max);
      o == Rescheduled && Waiting(c') && c'.sent == c.sent + c.out && c'.requests == c.requests
  {
    WritesWhatFits(ws, |c.out|);
    assert c.out[..|c.out|] == c.out;
  }

  /** From one request to the next, without assuming how any call ends: a waiting connection that is given a
      well-formed request without a body, and whose writes are accepted, has after three calls sent the whole
      answer and waits again, unless the answer asked for something else. */
  lemma RequestIsServed(c0: Conn, c1: Conn, c2: Conn, c3: Conn, respond: Responder, max: Option<nat>, h: Headers,
                        k0: Kernel, k1: Kernel, k2: Kernel)
    requires Waiting(c0) && WellFormed(h, max) && !HasLength(h)
    requires ReadUntil(k0.rs, Zero).text == Print(h) && !ReadFails(ReadUntil(k0.rs, Zero).err)
    requires c1 == Call(c0, respond, k0.rs, k0.ws, max).0 && c2 == Call(c1, respond, k1.rs, k1.ws, max).0
    requires c3 == Call(c2, respond, k2.rs, k2.ws, max).0
    requires var a := respond(|c0.requests|, h); !a.close && !a.park
    requires Accepted(k1.ws) >= |OutHdrs(respond(|c0.requests|, h))|
    requires Accepted(k2.ws) >= |Body(respond(|c0.requests|, h))|
    ensures Waiting(c3) && c3.requests == c0.requests + [h]
    ensures c3.sent == c0.sent + Reply(respond(|c0.requests|, h))
  {
    assert Print(h) + "" == Print(h);
    RequestIsTaken(c0, respond, k0.rs, k0.ws, max, h, "");
    HdrsAreSent(c1, respond, k1.rs, k1.ws, max);
    BodyIsSent(c2, respond, k2.rs, k2.ws, max);
    var a := respond(|c0.requests|, h);
    Assoc(c0.sent, OutHdrs(a), Body(a));
  }

  // ---------- a client that sends good requests ----------

  lemma RunHdrsFit(cs: seq<Conn>, ks: seq<Kernel>, respond: Responder, max: Option<nat>, n: nat)
    requires Run(cs, ks, respond, max) && n < |cs|
    ensures WellFormed(Ready(cs[n]).inhdrs, max)
  {
    RunInhdrsFit(cs, ks, respond, max, n);
    NoLinesFit(max);
  }

  /** So after any number of calls the next one takes a request, or meets one with a body, exactly as said. */
  lemma TakenInRunIff(cs: seq<Conn>, ks: seq<Kernel>, respond: Responder, max: Option<nat>, n: nat, k: Kernel)
    requires Run(cs, ks, respond, max) && n < |cs|
    ensures var (c', o), p := Call(cs[n], respond, k.rs, k.ws, max), ReadParsed(cs[n], k.rs, max);
      && (o == BodyExpected <==> Completes(cs[n], k.rs, k.ws, max, true))
      && if Completes(cs[n], k.rs, k.ws, max, false)
         then o == Rescheduled && TakesRequest(cs[n], c', respond, p.hdrs, p.rest)
         else c'.requests == cs[n].requests
  {
    RunHdrsFit(cs, ks, respond, max, n);
    RunConserves(cs, ks, respond, max, n);
    TakenIff(cs[n], respond, k.rs, k.ws, max);
  }

  lemma ReadKeepsFit(c: Conn, respond: Responder, rs: seq<ReadResult>, max: Option<nat>)
    requires WellFormed(c.inhdrs, max)
    ensures WellFormed(ReadPhase(c, respond, rs, max).0.inhdrs, max)
  {
    var c' := TakeIn(c, ReadUntil(rs, Zero).text);
    ParsedWellFormed(c'.unread, c.inhdrs, max);
    ParsingHdrs(c', respond, Parse(c'.unread, c.inhdrs, max));
  }

  lemma ParsingHdrs(c: Conn, respond: Responder, p: Parsed)
    ensures Parsing(c, respond, p).0.inhdrs == p.hdrs
  {
  }

  lemma WriteKeepsHdrs(c: Conn, respond: Responder, rs: seq<ReadResult>, ws: seq<WriteResult>, max: Option<nat>)
    requires !Reads(c, ws)
    ensures var c' := Call(c, respond, rs, ws, max).0; c'.inhdrs == c.inhdrs || c'.inhdrs == NoLines()
  {
    WritesWhatFits(ws, |c.out|);
  }

  lemma CallKeepsFit(c: Conn, respond: Responder, k: Kernel, max: Option<nat>)
    requires WellFormed(c.inhdrs, max)
    ensures WellFormed(Call(c, respond, k.rs, k.ws, max).0.inhdrs, max)
  {
    NoLinesFit(max);
    if Reads(c, k.ws) {
      CallReads(c, respond, k.rs, k.ws, max);
      ReadKeepsFit(Ready(c), respond, k.rs, max);
    } else {
      WriteKeepsHdrs(c, respond, k.rs, k.ws, max);
    }
  }

  lemma {:induction false} RunInhdrsFit(cs: seq<Conn>, ks: seq<Kernel>, respond: Responder, max: Option<nat>, n: nat)
    requires Run(cs, ks, respond, max) && n < |cs|
    ensures WellFormed(cs[n].inhdrs, max)
  {
    if n == 0 {
      NoLinesFit(max);
    } else {
      RunInhdrsFit(cs, ks, respond, max, n - 1);
      CallIs(cs, ks, respond, max, n - 1);
      CallKeepsFit(cs[n - 1], respond, ks[n - 1], max);
    }
  }

  /** The parser's verdict on good input is never "too long", and the message it completes is the next one sent. */
  lemma GoodVerdict(c: Conn, more: string, hs: seq<Headers>, max: Option<nat>)
    requires Follows(c, max) && c.m == Read && AllWellFormed(hs, max) && c.received + more == Stream(hs)
    ensures var p := Parse(c.unread, c.inhdrs, max);
      && p.verdict != TooLong
      && (p.verdict == Done ==> |c.requests| < |hs| && p.hdrs == hs[|c.requests|])
  {
    assert Agrees(c, more, max);
    assert Stream(hs) + "" == Stream(hs);
    PipelineRoundTrip(Stream(hs), hs, "", max);
    NoMessages("", NoLines(), max);
    MessagesResume(c.unread, more, c.inhdrs, max);
    EndingResume(c.unread, more, c.inhdrs, max);
    var p := Parse(c.unread, c.inhdrs, max);
    if p.verdict == Done {
      assert hs == c.requests + ([p.hdrs] + Messages(p.rest + more, NoLines(), max));
    }
  }

  /** If a client sends well-formed requests without bodies, one after the other, no call in any run ever ends in
      BodyExpected or LineTooLong: it goes on, or a read or write of the kernel's failed. */
  lemma GoodInputIsServed(cs: seq<Conn>, ks: seq<Kernel>, respond: Responder, max: Option<nat>, n: nat, k: Kernel,
                          hs: seq<Headers>, more: string)
    requires Run(cs, ks, respond, max) && n < |cs| && CutAtLines(ks + [k])
    requires AllWellFormed(hs, max) && forall h <- hs :: !HasLength(h)
    requires cs[n].received + (if Reads(cs[n], k.ws) then ReadUntil(k.rs, Zero).text else "") + more == Stream(hs)
    ensures var o := Call(cs[n], respond, k.rs, k.ws, max).1; Goes(o) || o.SocketErr?
  {
    var c := cs[n];
    assert k in ks + [k];
    assert forall k' <- ks :: k' in ks + [k];
    RunFollows(cs, ks, respond, max, n);
    RunHdrsFit(cs, ks, respond, max, n);
    if Reads(c, k.ws) {
      ReadyFollows(c, max);
      TakeInFollows(Ready(c), ReadUntil(k.rs, Zero).text, max);
      GoodVerdict(TakeIn(Ready(c), ReadUntil(k.rs, Zero).text), more, hs, max);
      CallReads(c, respond, k.rs, k.ws, max);
      RunConserves(cs, ks, respond, max, n);
      ReadTakes(Ready(c), respond, k.rs, max);
      ReadEnds(Ready(c), respond, k.rs, max);
      ReadAnswers(Ready(c), respond, k.rs, max);
    } else {
      CallWrites(c, respond, k.rs, k.ws, max);
    }
  }

  lemma ReadyFollows(c: Conn, max: Option<nat>)
    requires Follows(c, max)
    ensures Follows(Ready(c), max) && Ready(c).m == Read
    ensures Ready(c).received == c.received && Ready(c).unread == c.unread
  {
    if c.m == Write { SameFollows(c, Ready(c), max); }
  }

  lemma ReadAnswers(c: Conn, respond: Responder, rs: seq<ReadResult>, max: Option<nat>)
    ensures var o := ReadPhase(c, respond, rs, max).1;
      o.Rescheduled? || o.SocketErr? || o.LineTooLong? || o.BodyExpected?
  {
  }
}
