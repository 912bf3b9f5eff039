/** One connection's "assembly line" (src/HTTP_Server_Work.cpp, src/Work.cpp) on values: what each call of
    the work object does, and what holds over all calls. Requests have no bodies. `ServerWork` has the
    object itself. */
module Connection {
  import opened Wrappers
  import opened HeaderNames
  import opened HeaderParsing

  const CBUFSZ: nat := 4096
  const CONTENT_LENGTH: nat := 12

  // ---------- reading and writing until the socket would block ----------

  datatype Errno = Zero | EAGAIN | EINTR | Code(n: nat)

  type Bytes = s: string | 0 < |s| < CBUFSZ witness "x"
  type Count = n: nat | n > 0 witness 1

  /** What the kernel answers to the calls of `read` and `write`. After the listed answers they would
      block. */
  datatype ReadResult = Data(s: Bytes) | ReadInterrupted | ReadBlocks | EndOfFile | ReadError(code: nat)
  datatype WriteResult = Wrote(n: Count) | WriteInterrupted | WriteBlocks | WriteError(code: nat)

  /** The part `operator<<` for C strings sees. */
  function CText(s: string): string { s[..IndexOf(s, '\0')] }

  /** The longest beginning without NUL. */
  lemma CTextIs(s: string)
    ensures CText(s) <= s && '\0' !in CText(s)
    ensures |CText(s)| == |s| || s[|CText(s)|] == '\0'
  {
  }

  datatype ReadDone = ReadDone(text: string, err: Errno)
  datatype WriteDone = WriteDone(n: nat, err: Errno)

  /** `rduntil`, with the present value of `errno`. */
  function ReadUntil(rs: seq<ReadResult>, errno: Errno): ReadDone {
    if rs == [] then ReadDone("", EAGAIN)
    else match rs[0]
      case Data(s) => var r := ReadUntil(rs[1..], errno); ReadDone(CText(s) + r.text, r.err)
      case ReadInterrupted => ReadUntil(rs[1..], EINTR)
      case ReadBlocks => ReadDone("", EAGAIN)
      case EndOfFile => ReadDone("", errno)
      case ReadError(n) => ReadDone("", Code(n))
  }

  function Min(a: nat, b: nat): nat { if a < b then a else b }

  /** `wruntil`. */
  function WriteUntil(ws: seq<WriteResult>, towrite: nat): (w: WriteDone)
    ensures w.n <= towrite
  {
    if towrite == 0 then WriteDone(0, Zero)
    else if ws == [] then WriteDone(0, EAGAIN)
    else match ws[0]
      case Wrote(n) => var k := Min(n, towrite); var w := WriteUntil(ws[1..], towrite - k); WriteDone(k + w.n, w.err)
      case WriteInterrupted => WriteUntil(ws[1..], towrite)
      case WriteBlocks => WriteDone(0, EAGAIN)
      case WriteError(n) => WriteDone(0, Code(n))
  }

  predicate Stops(r: ReadResult) { r.ReadBlocks? || r.EndOfFile? || r.ReadError? }

  /** The bytes the answers carry. */
  function Payload(rs: seq<ReadResult>): string {
    if rs == [] then "" else (if rs[0].Data? then rs[0].s else "") + Payload(rs[1..])
  }

  predicate StopsAt(rs: seq<ReadResult>, k: nat) {
    k <= |rs| && (forall i :: 0 <= i < k ==> !Stops(rs[i])) && (k < |rs| ==> Stops(rs[k]))
  }

  function FirstStop(rs: seq<ReadResult>): (k: nat)
    ensures StopsAt(rs, k)
  {
    if rs == [] || Stops(rs[0]) then 0
    else
      var k := FirstStop(rs[1..]);
      assert forall i :: 0 < i <= k && i < |rs| ==> rs[i] == rs[1..][i - 1];
      k + 1
  }

  /** The bytes that are read before the loop stops. */
  function BytesRead(rs: seq<ReadResult>): string { Payload(rs[..FirstStop(rs)]) }

  /** Everything before the first answer that stops the loop is read exactly if it has no NUL; and the exact
      reason for stopping. At the end of the file it is the stale `errno`: 0, or EINTR if a `read` was
      interrupted before. */
  lemma {:induction false} ReadsEverything(rs: seq<ReadResult>, k: nat, errno: Errno)
    requires StopsAt(rs, k)
    ensures ReadUntil(rs, errno).text == Payload(rs[..k]) <==> '\0' !in Payload(rs[..k])
    ensures |ReadUntil(rs, errno).text| <= |Payload(rs[..k])|
    ensures ReadUntil(rs, errno).err ==
      if k == |rs| || rs[k].ReadBlocks? then EAGAIN
      else if rs[k].ReadError? then Code(rs[k].code)
      else if ReadInterrupted in rs[..k] then EINTR else errno
  {
    if k > 0 {
      var rs', e := rs[1..], if rs[0].ReadInterrupted? then EINTR else errno;
      assert forall i :: 0 <= i < k - 1 ==> rs'[i] == rs[i + 1];
      ReadsEverything(rs', k - 1, e);
      assert rs[..k] == [rs[0]] + rs'[..k - 1];
      if rs[0].Data? { NoNul(rs[0].s, ReadUntil(rs', e).text, Payload(rs'[..k - 1])); }
    }
  }

  /** With NULs, each read gives its beginning up to the first one. */
  function Beginnings(rs: seq<ReadResult>): string {
    if rs == [] then "" else (if rs[0].Data? then CText(rs[0].s) else "") + Beginnings(rs[1..])
  }

  lemma {:induction false} ReadsBeginnings(rs: seq<ReadResult>, k: nat, errno: Errno)
    requires StopsAt(rs, k)
    ensures ReadUntil(rs, errno).text == Beginnings(rs[..k])
  {
    if k > 0 {
      var e := if rs[0].ReadInterrupted? then EINTR else errno;
      assert forall i :: 0 <= i < k - 1 ==> rs[1..][i] == rs[i + 1];
      assert rs[..k][1..] == rs[1..][..k - 1];
      ReadsBeginnings(rs[1..], k - 1, e);
    }
  }

  lemma NoNul(s: string, t: string, u: string)
    requires |t| <= |u| && (t == u <==> '\0' !in u)
    ensures |CText(s) + t| <= |s + u| && (CText(s) + t == s + u <==> '\0' !in s + u)
  {
    var i := IndexOf(s, '\0');
    assert '\0' in s + u <==> '\0' in s || '\0' in u;
    if i == |s| {
      assert s[..i] == s;
      assert (CText(s) + t)[|s|..] == t && (s + u)[|s|..] == u;
    }
  }

  /** At the end of the file the loop returns 0, and EINTR, exactly as said here; and nowhere else. */
  lemma EndOfFileErrno(rs: seq<ReadResult>, k: nat)
    requires StopsAt(rs, k)
    ensures ReadUntil(rs, Zero).err == Zero <==> k < |rs| && rs[k].EndOfFile? && ReadInterrupted !in rs[..k]
    ensures ReadUntil(rs, Zero).err == EINTR <==> k < |rs| && rs[k].EndOfFile? && ReadInterrupted in rs[..k]
  {
    ReadsEverything(rs, k, Zero);
  }

  lemma {:induction false} CutAtStop(rs: seq<ReadResult>, k: nat, errno: Errno)
    requires StopsAt(rs, k)
    ensures ReadUntil(rs[..k], errno) == ReadDone(ReadUntil(rs, errno).text, EAGAIN)
  {
    if k > 0 {
      assert rs[..k][1..] == rs[1..][..k - 1];
      assert forall i :: 0 <= i < k - 1 ==> rs[1..][i] == rs[i + 1];
      CutAtStop(rs[1..], k - 1, if rs[0].ReadInterrupted? then EINTR else errno);
    }
  }

  /** How much the answers before the first one that stops the loop would take. */
  function Accepted(ws: seq<WriteResult>): nat {
    if ws == [] then 0
    else match ws[0]
      case Wrote(n) => n + Accepted(ws[1..])
      case WriteInterrupted => Accepted(ws[1..])
      case _ => 0
  }

  /** As much is written as is accepted; 0 is returned exactly if that is everything, EINTR never. */
  lemma {:induction false} WritesWhatFits(ws: seq<WriteResult>, towrite: nat)
    ensures WriteUntil(ws, towrite).n == Min(Accepted(ws), towrite)
    ensures WriteUntil(ws, towrite).err == Zero <==> Accepted(ws) >= towrite
    ensures WriteUntil(ws, towrite).err != EINTR
  {
    if towrite > 0 && ws != [] {
      match ws[0] {
        case Wrote(n) => WritesWhatFits(ws[1..], towrite - Min(n, towrite));
        case WriteInterrupted => WritesWhatFits(ws[1..], towrite);
        case _ =>
      }
    }
  }

  predicate Refuses(w: WriteResult) { w.WriteBlocks? || w.WriteError? }

  predicate RefusesAt(ws: seq<WriteResult>, k: nat) {
    k <= |ws| && (forall i :: 0 <= i < k ==> !Refuses(ws[i])) && (k < |ws| ==> Refuses(ws[k]))
  }

  /** The exact reason for stopping short: the first answer that takes nothing. */
  lemma {:induction false} StopsShort(ws: seq<WriteResult>, k: nat, towrite: nat)
    requires RefusesAt(ws, k) && Accepted(ws) < towrite
    ensures WriteUntil(ws, towrite).err == if k == |ws| || ws[k].WriteBlocks? then EAGAIN else Code(ws[k].code)
  {
    if k > 0 {
      assert forall i :: 0 <= i < k - 1 ==> ws[1..][i] == ws[i + 1];
      StopsShort(ws[1..], k - 1, if ws[0].Wrote? then towrite - ws[0].n else towrite);
    }
  }

  // ---------- the connection ----------

  /** What a derived class prepares, or the error it throws as the error's headers and status text; and
      whether it has asked for the connection to be closed or left dormant. */
  datatype Answer =
    | Answer(hdrs: string, body: string, close: bool, park: bool)
    | Oops(hdrs: string, text: string, close: bool, park: bool)

  /** The answer to the n-th request on the connection. */
  type Responder = (nat, Headers) -> Answer

  function Decimal(n: nat): string {
    if n < 10 then [(n as char) + '0'] else Decimal(n / 10) + [(n % 10) as char + '0']
  }

  predicate IsDigit(d: char) { '0' <= d <= '9' }

  /** The number a row of digits stands for. */
  function ValueOf(ds: string): nat
    requires forall d <- ds :: IsDigit(d)
  {
    if ds == "" then 0
    else
      var d := ds[|ds| - 1];
      assert d in ds && IsDigit(d);
      10 * ValueOf(ds[..|ds| - 1]) + (d as nat - '0' as nat)
  }

  predicate Writes(ds: string, n: nat) { (forall d <- ds :: IsDigit(d)) && ValueOf(ds) == n }

  /** It prints the number's digits, without leading zeros. */
  lemma {:induction false} DecimalIs(n: nat)
    ensures Decimal(n) != "" && Writes(Decimal(n), n)
    ensures n > 0 ==> Decimal(n)[0] != '0'
    ensures n == 0 ==> Decimal(n) == "0"
  {
    if n >= 10 {
      DecimalIs(n / 10);
      assert Decimal(n)[..|Decimal(n)| - 1] == Decimal(n / 10);
    } else {
      assert Decimal(n)[..0] == "";
    }
  }

  function FullHdrs(a: Answer): string {
    match a
    case Answer(hdrs, _, _, _) => hdrs
    case Oops(hdrs, text, _, _) => hdrs + Printed(CONTENT_LENGTH) + Decimal(|text|) + CRLF + CRLF
  }

  function Body(a: Answer): string { if a.Answer? then a.body else a.text }

  /** The headers as they fit in the buffer: up to a NUL, and silently truncated. */
  function OutHdrs(a: Answer): string {
    var hdrs := CText(FullHdrs(a));
    hdrs[..Min(|hdrs|, CBUFSZ - 1)]
  }

  /** What is then to be written, and what becomes of the connection. */
  datatype Output = Output(hdrs: string, body: string, close: bool, park: bool)

  function Prepare(a: Answer): Output { Output(OutHdrs(a), Body(a), a.close, a.park) }

  function Reply(a: Answer): string { Prepare(a).hdrs + Prepare(a).body }

  /** The answers to all requests, one after the other. */
  function Replies(respond: Responder, requests: seq<Headers>): string {
    if requests == [] then ""
    else
      var n := |requests| - 1;
      Replies(respond, requests[..n]) + Reply(respond(n, requests[n]))
  }

  // ---------- exactly when an answer is written whole ----------

  /** What is written for an error: its own headers, the length of its text, and an empty line; then the text. */
  lemma OopsHdrs(hdrs: string, text: string, close: bool, park: bool)
    ensures exists d :: Writes(d, |text|) &&
              FullHdrs(Oops(hdrs, text, close, park)) == hdrs + "Content-Length: " + d + "\r\n" + "\r\n"
    ensures Body(Oops(hdrs, text, close, park)) == text
  {
    DecimalIs(|text|);
    LengthPrinted();
    var d := Decimal(|text|);
    assert FullHdrs(Oops(hdrs, text, close, park)) == hdrs + "Content-Length: " + d + "\r\n" + "\r\n";
  }

  lemma LengthPrinted()
    ensures Printed(CONTENT_LENGTH) == "Content-Length: "
  {
    assert Name(CONTENT_LENGTH) == "Content_Length";
    assert Hyphenated("Content_Length") == "Content-Length";
  }

  /** Cut headers are as long a beginning of them as has no NUL and fits the buffer with its end. */
  lemma HdrsCutExactly(a: Answer)
    ensures OutHdrs(a) <= FullHdrs(a) && |OutHdrs(a)| <= 4095 && '\0' !in OutHdrs(a)
    ensures var n := |OutHdrs(a)|; n == |FullHdrs(a)| || n == 4095 || FullHdrs(a)[n] == '\0'
  {
    var full := FullHdrs(a);
    var i := IndexOf(full, '\0');
    assert OutHdrs(a) == full[..Min(i, 4095)];
    assert forall c <- OutHdrs(a) :: c in full[..i];
  }

  predicate Whole(a: Answer) { '\0' !in FullHdrs(a) && |FullHdrs(a)| < CBUFSZ }

  function FullReply(a: Answer): string { FullHdrs(a) + Body(a) }

  function FullReplies(respond: Responder, requests: seq<Headers>): string {
    if requests == [] then ""
    else
      var n := |requests| - 1;
      FullReplies(respond, requests[..n]) + FullReply(respond(n, requests[n]))
  }

  lemma CutWhole(s: string)
    ensures |CText(s)| <= |s| && (CText(s) == s <==> '\0' !in s)
  {
    var i := IndexOf(s, '\0');
    if i == |s| { assert s[..i] == s; }
  }

  /** Headers are cut exactly if they have a NUL or fill the buffer. */
  lemma HdrsWholeIff(a: Answer)
    ensures OutHdrs(a) == FullHdrs(a) <==> Whole(a)
    ensures |OutHdrs(a)| <= |FullHdrs(a)|
  {
    CutWhole(FullHdrs(a));
  }

  lemma ReplyWholeIff(a: Answer)
    ensures Reply(a) == FullReply(a) <==> Whole(a)
    ensures |Reply(a)| <= |FullReply(a)|
  {
    HdrsWholeIff(a);
    if Reply(a) == FullReply(a) {
      assert |OutHdrs(a)| == |FullHdrs(a)|;
      assert Reply(a)[..|OutHdrs(a)|] == OutHdrs(a) && FullReply(a)[..|FullHdrs(a)|] == FullHdrs(a);
    }
  }

  predicate AllWhole(respond: Responder, requests: seq<Headers>) {
    forall i :: 0 <= i < |requests| ==> Whole(respond(i, requests[i]))
  }

  /** Two parts, neither longer than its original, make up the originals exactly if each is its own. */
  lemma BothParts(a: string, b: string, a': string, b': string)
    requires |a| <= |a'| && |b| <= |b'|
    ensures |a + b| <= |a' + b'| && (a + b == a' + b' <==> a == a' && b == b')
  {
    if a + b == a' + b' {
      assert |a + b| == |a' + b'|;
      assert (a + b)[..|a|] == a && (a' + b')[..|a'|] == a';
      assert (a + b)[|a|..] == b && (a' + b')[|a'|..] == b';
    }
  }

  lemma AllWholeLast(respond: Responder, requests: seq<Headers>, n: nat)
    requires |requests| == n + 1
    ensures AllWhole(respond, requests) <==> AllWhole(respond, requests[..n]) && Whole(respond(n, requests[n]))
  {
    assert forall i :: 0 <= i < n ==> requests[..n][i] == requests[i];
  }

  /** What is written are the whole answers exactly if none is cut. */
  lemma {:induction false} RepliesWholeIff(respond: Responder, requests: seq<Headers>)
    ensures Replies(respond, requests) == FullReplies(respond, requests) <==> AllWhole(respond, requests)
    ensures |Replies(respond, requests)| <= |FullReplies(respond, requests)|
  {
    if requests != [] {
      var n := |requests| - 1;
      var front, a := requests[..n], respond(n, requests[n]);
      RepliesWholeIff(respond, front);
      ReplyWholeIff(a);
      AllWholeLast(respond, requests, n);
      BothParts(Replies(respond, front), Reply(a), FullReplies(respond, front), FullReply(a));
    }
  }

  // ---------- a call ----------

  datatype Mode = Read | Write

  /** `out` is what remains of the headers or the body being written. The last three fields are the
      history: all text read, the requests parsed from it, all bytes written. */
  datatype Conn = Conn(
    m: Mode, outhdrs_done: bool, inhdrs: Headers, unread: string, out: string, outbody: string,
    deleteme: bool, nosch: bool, received: string, requests: seq<Headers>, sent: string)

  const FRESH := Conn(Read, false, NoLines(), "", "", "", false, false, "", [], "")

  /** How a call ends. LineTooLong is thrown outside the `try`; after BodyExpected the model stops. */
  datatype Outcome = Rescheduled | Dormant | Finished | SocketErr(err: Errno) | LineTooLong | BodyExpected

  function ReadPhase(c: Conn, respond: Responder, rs: seq<ReadResult>, max: Option<nat>): (Conn, Outcome) {
    var r := ReadUntil(rs, Zero);
    var c' := TakeIn(c, r.text);
    if r.err != Zero && r.err != EAGAIN then (c', SocketErr(r.err))
    else Parsing(c', respond, Parse(c'.unread, c.inhdrs, max))
  }

  function TakeIn(c: Conn, text: string): Conn {
    c.(unread := c.unread + text, received := c.received + text)
  }

  /** With the headers parsed from the unread text. */
  function Parsing(c: Conn, respond: Responder, p: Parsed): (Conn, Outcome) {
    var c' := c.(inhdrs := p.hdrs, unread := p.rest);
    match p.verdict
    case TooLong => (c', LineTooLong)
    case NeedMore => (c', Rescheduled)
    case Done =>
      if p.hdrs[CONTENT_LENGTH] != "" then (c', BodyExpected)
      else (Answering(c', Prepare(respond(|c.requests|, p.hdrs))), Rescheduled)
  }

  function Answering(c: Conn, a: Output): Conn {
    c.(m := Write, out := a.hdrs, outbody := a.body, requests := c.requests + [c.inhdrs],
       deleteme := c.deleteme || a.close, nosch := c.nosch || a.park)
  }

  /** After a response: blank headers; unread text is kept. */
  function Reset(c: Conn): Conn {
    c.(m := Read, outhdrs_done := false, inhdrs := NoLines(), out := "", outbody := "")
  }

  function Sent(c: Conn, n: nat): Conn
    requires n <= |c.out|
  {
    c.(sent := c.sent + c.out[..n], out := c.out[n..])
  }

  function WritePhase(c: Conn, respond: Responder, rs: seq<ReadResult>, ws: seq<WriteResult>, max: Option<nat>)
    : (Conn, Outcome)
  {
    var w := WriteUntil(ws, |c.out|);
    var c' := Sent(c, w.n);
    if w.err == EAGAIN then (c', Rescheduled)
    else if w.err != Zero then (c', SocketErr(w.err))
    else AllWritten(c', respond, rs, max)
  }

  /** When headers are written, the body is next; when that is written, another request may be. */
  function AllWritten(c: Conn, respond: Responder, rs: seq<ReadResult>, max: Option<nat>): (Conn, Outcome) {
    if !c.outhdrs_done then (c.(outhdrs_done := true, out := c.outbody), Rescheduled)
    else if c.nosch then (c, Dormant)
    else if c.deleteme then (c, Finished)
    else if c.unread == "" then (Reset(c), Rescheduled)
    else ReadPhase(Reset(c), respond, rs, max)
  }

  /** One call of the work object. */
  function Call(c: Conn, respond: Responder, rs: seq<ReadResult>, ws: seq<WriteResult>, max: Option<nat>)
    : (Conn, Outcome)
  {
    match c.m
    case Read => ReadPhase(c, respond, rs, max)
    case Write => WritePhase(c, respond, rs, ws, max)
  }

  // ---------- the write side ----------

  /** What is still to be written of the current answer. */
  function Remaining(c: Conn): string {
    match c.m
    case Read => ""
    case Write => c.out + (if c.outhdrs_done then "" else c.outbody)
  }

  /** Bytes sent and bytes remaining are together the answers to all requests so far. */
  ghost predicate Conserved(c: Conn, respond: Responder) {
    && c.sent + Remaining(c) == Replies(respond, c.requests)
    && (c.m == Read ==> !c.outhdrs_done)
  }

  lemma Assoc<T>(a: seq<T>, b: seq<T>, c: seq<T>)
    ensures a + (b + c) == (a + b) + c
  {
  }

  lemma SentConserved(c: Conn, n: nat, respond: Responder)
    requires Conserved(c, respond) && c.m == Write && n <= |c.out|
    ensures Conserved(Sent(c, n), respond)
  {
    var more := if c.outhdrs_done then "" else c.outbody;
    assert c.out == c.out[..n] + c.out[n..];
    Assoc(c.out[..n], c.out[n..], more);
    Assoc(c.sent, c.out[..n], c.out[n..] + more);
  }

  lemma RepliesAppend(respond: Responder, requests: seq<Headers>, h: Headers)
    ensures Replies(respond, requests + [h]) == Replies(respond, requests) + Reply(respond(|requests|, h))
  {
    assert (requests + [h])[..|requests|] == requests;
  }

  lemma AnsweringConserved(c: Conn, respond: Responder)
    requires Conserved(c, respond) && c.m == Read
    ensures Conserved(Answering(c, Prepare(respond(|c.requests|, c.inhdrs))), respond)
  {
    RepliesAppend(respond, c.requests, c.inhdrs);
    assert c.sent + "" == c.sent;
  }

  lemma ParsingConserved(c: Conn, respond: Responder, p: Parsed)
    requires Conserved(c, respond) && c.m == Read
    ensures Conserved(Parsing(c, respond, p).0, respond) && Parsing(c, respond, p).0.sent == c.sent
  {
    AnsweringConserved(c.(inhdrs := p.hdrs, unread := p.rest), respond);
  }

  lemma ReadConserved(c: Conn, respond: Responder, rs: seq<ReadResult>, max: Option<nat>)
    requires Conserved(c, respond) && c.m == Read
    ensures Conserved(ReadPhase(c, respond, rs, max).0, respond) && ReadPhase(c, respond, rs, max).0.sent == c.sent
  {
    var c' := TakeIn(c, ReadUntil(rs, Zero).text);
    ParsingConserved(c', respond, Parse(c'.unread, c.inhdrs, max));
  }

  lemma AllWrittenConserved(c: Conn, respond: Responder, rs: seq<ReadResult>, max: Option<nat>)
    requires Conserved(c, respond) && c.m == Write && c.out == ""
    ensures Conserved(AllWritten(c, respond, rs, max).0, respond) && AllWritten(c, respond, rs, max).0.sent == c.sent
  {
    assert "" + c.outbody == c.outbody + "" == c.outbody;
    if c.outhdrs_done { ReadConserved(Reset(c), respond, rs, max); }
  }

  /** What one call does to the bytes: for any partial writes, interruptions, blocking and errors, what was
      sent stays sent, and the balance is kept. */
  lemma CallConserved(c: Conn, respond: Responder, rs: seq<ReadResult>, ws: seq<WriteResult>, max: Option<nat>)
    requires Conserved(c, respond)
    ensures Conserved(Call(c, respond, rs, ws, max).0, respond) && c.sent <= Call(c, respond, rs, ws, max).0.sent
  {
    if c.m == Read {
      ReadConserved(c, respond, rs, max);
    } else {
      var w := WriteUntil(ws, |c.out|);
      SentConserved(c, w.n, respond);
      WritesWhatFits(ws, |c.out|);
      if w.err == Zero { AllWrittenConserved(Sent(c, w.n), respond, rs, max); }
    }
  }

  // ---------- the read side ----------

  /** The headers of the request being read, if one is. */
  function Started(c: Conn): Headers { if c.m == Read then c.inhdrs else NoLines() }

  /** If the rest of the input were b: the messages of all the input are the requests taken so far and
      those still to come from the unread text, and both end the same way. */
  ghost predicate Agrees(c: Conn, b: string, max: Option<nat>) {
    && Messages(c.received + b, NoLines(), max) == c.requests + Messages(c.unread + b, Started(c), max)
    && Ending(c.received + b, NoLines(), max) == Ending(c.unread + b, Started(c), max)
  }

  /** Whatever comes, no byte was lost and no request misread. */
  ghost predicate Follows(c: Conn, max: Option<nat>) {
    CRsEnded(c.unread) && forall b :: Agrees(c, b, max)
  }

  /** The text kept for the next call is an unended line within the limit. */
  predicate Pending(c: Conn, max: Option<nat>) {
    c.m == Read ==> '\r' !in c.unread && !Exceeds(|c.unread|, max)
  }

  lemma TakeInFollows(c: Conn, text: string, max: Option<nat>)
    requires Follows(c, max) && CRsEnded(text)
    ensures Follows(TakeIn(c, text), max)
  {
    BothEnded(c.unread, text);
    forall b ensures Agrees(TakeIn(c, text), b, max) {
      assert Agrees(c, text + b, max);
      Assoc(c.received, text, b);
      Assoc(c.unread, text, b);
    }
  }

  /** The headers read from a, then b, when the first message is not complete in a. */
  lemma MessagesResume(a: string, b: string, hdrs: Headers, max: Option<nat>)
    requires CRsEnded(a)
    ensures var p := Parse(a, hdrs, max);
      && (p.verdict == NeedMore ==> Messages(a + b, hdrs, max) == Messages(p.rest + b, p.hdrs, max))
      && (p.verdict == Done ==> Messages(a + b, hdrs, max) == [p.hdrs] + Messages(p.rest + b, NoLines(), max))
  {
    ParseResumes(a, b, hdrs, max);
    var p := Parse(a, hdrs, max);
    if p.verdict == Done { MessagesStep(a + b, hdrs, p.hdrs, p.rest + b, max); }
  }

  lemma EndingResume(a: string, b: string, hdrs: Headers, max: Option<nat>)
    requires CRsEnded(a)
    ensures var p := Parse(a, hdrs, max);
      && (p.verdict == NeedMore ==> Ending(a + b, hdrs, max) == Ending(p.rest + b, p.hdrs, max))
      && (p.verdict == Done ==> Ending(a + b, hdrs, max) == Ending(p.rest + b, NoLines(), max))
      && (p.verdict == TooLong ==> Ending(a + b, hdrs, max) == TooLong)
  {
    ParseResumes(a, b, hdrs, max);
    var p := Parse(a, hdrs, max);
    if p.verdict == Done { EndingStep(a + b, hdrs, p.hdrs, p.rest + b, max); }
  }

  lemma PartParsed(c: Conn, c': Conn, max: Option<nat>)
    requires Follows(c, max) && c.m == c'.m == Read && c'.received == c.received && c'.requests == c.requests
    requires Parse(c.unread, c.inhdrs, max) == Parsed(NeedMore, c'.inhdrs, c'.unread)
    ensures Follows(c', max) && Pending(c', max)
  {
    forall b ensures Agrees(c', b, max) {
      assert Agrees(c, b, max);
      MessagesResume(c.unread, b, c.inhdrs, max);
      EndingResume(c.unread, b, c.inhdrs, max);
    }
    ParseResumes(c.unread, "", c.inhdrs, max);
    PendingFits(c.unread, c.inhdrs, max);
    EndedIff(c'.unread);
  }

  lemma WholeParsed(c: Conn, c': Conn, max: Option<nat>)
    requires Follows(c, max) && c.m == Read && c'.m == Write && c'.received == c.received
    requires Parse(c.unread, c.inhdrs, max) == Parsed(Done, c'.inhdrs, c'.unread)
    requires c'.requests == c.requests + [c'.inhdrs]
    ensures Follows(c', max) && Pending(c', max)
  {
    forall b ensures Agrees(c', b, max) {
      assert Agrees(c, b, max);
      MessagesResume(c.unread, b, c.inhdrs, max);
      EndingResume(c.unread, b, c.inhdrs, max);
      Assoc(c.requests, [c'.inhdrs], Messages(c'.unread + b, NoLines(), max));
    }
    DoneRestEnded(c.unread, c.inhdrs, max);
  }

  lemma ParsingFollows(c: Conn, respond: Responder, max: Option<nat>)
    requires Follows(c, max) && c.m == Read
    ensures var (c', o) := Parsing(c, respond, Parse(c.unread, c.inhdrs, max));
      o == Rescheduled ==> Follows(c', max) && Pending(c', max)
  {
    var (c', o) := Parsing(c, respond, Parse(c.unread, c.inhdrs, max));
    if o == Rescheduled {
      if c'.m == Read { PartParsed(c, c', max); } else { WholeParsed(c, c', max); }
    }
  }

  lemma ReadFollows(c: Conn, respond: Responder, rs: seq<ReadResult>, max: Option<nat>)
    requires Follows(c, max) && c.m == Read && CRsEnded(ReadUntil(rs, Zero).text)
    ensures var (c', o) := ReadPhase(c, respond, rs, max);
      o == Rescheduled ==> Follows(c', max) && Pending(c', max)
  {
    var text := ReadUntil(rs, Zero).text;
    TakeInFollows(c, text, max);
    ParsingFollows(TakeIn(c, text), respond, max);
  }

  predicate Goes(o: Outcome) { o.Rescheduled? || o.Dormant? || o.Finished? }

  lemma SameFollows(c: Conn, c': Conn, max: Option<nat>)
    requires Follows(c, max) && c'.received == c.received && c'.requests == c.requests && c'.unread == c.unread
    requires Started(c') == Started(c)
    ensures Follows(c', max)
  {
    forall b ensures Agrees(c', b, max) { assert Agrees(c, b, max); }
  }

  lemma ResetFollows(c: Conn, max: Option<nat>)
    requires Follows(c, max) && c.m == Write
    ensures Follows(Reset(c), max) && (c.unread == "" ==> Pending(Reset(c), max))
  {
    SameFollows(c, Reset(c), max);
  }

  lemma BodyNextFollows(c: Conn, max: Option<nat>)
    requires Follows(c, max) && c.m == Write
    ensures Follows(c.(outhdrs_done := true, out := c.outbody), max)
  {
    SameFollows(c, c.(outhdrs_done := true, out := c.outbody), max);
  }

  lemma AllWrittenFollows(c: Conn, respond: Responder, rs: seq<ReadResult>, max: Option<nat>)
    requires Follows(c, max) && c.m == Write && CRsEnded(ReadUntil(rs, Zero).text)
    ensures var (c', o) := AllWritten(c, respond, rs, max); Goes(o) ==> Follows(c', max) && Pending(c', max)
  {
    BodyNextFollows(c, max);
    ResetFollows(c, max);
    ReadFollows(Reset(c), respond, rs, max);
  }

  lemma WriteFollows(c: Conn, respond: Responder, rs: seq<ReadResult>, ws: seq<WriteResult>, max: Option<nat>)
    requires Follows(c, max) && c.m == Write && CRsEnded(ReadUntil(rs, Zero).text)
    ensures var (c', o) := WritePhase(c, respond, rs, ws, max); Goes(o) ==> Follows(c', max) && Pending(c', max)
  {
    var s := Sent(c, WriteUntil(ws, |c.out|).n);
    SameFollows(c, s, max);
    AllWrittenFollows(s, respond, rs, max);
  }

  /** Every call keeps the input in order if the text it reads does not end within a line end. */
  lemma CallFollows(c: Conn, respond: Responder, rs: seq<ReadResult>, ws: seq<WriteResult>, max: Option<nat>)
    requires Follows(c, max) && CRsEnded(ReadUntil(rs, Zero).text)
    ensures var (c', o) := Call(c, respond, rs, ws, max); Goes(o) ==> Follows(c', max) && Pending(c', max)
  {
    match c.m {
      case Read => ReadFollows(c, respond, rs, max);
      case Write => WriteFollows(c, respond, rs, ws, max);
    }
  }

  // ---------- how a call ends ----------

  /** The response is sent to its end, and the next request has begun to arrive. */
  predicate TurnsToNext(c: Conn, ws: seq<WriteResult>) {
    c.m == Write && c.outhdrs_done && !c.nosch && !c.deleteme && c.unread != "" && Accepted(ws) >= |c.out|
  }

  /** Exactly when a call reads. */
  predicate Reads(c: Conn, ws: seq<WriteResult>) { c.m == Read || TurnsToNext(c, ws) }

  /** The connection when it begins to read. */
  function Ready(c: Conn): Conn { if c.m == Read then c else Reset(Sent(c, |c.out|)) }

  lemma CallReads(c: Conn, respond: Responder, rs: seq<ReadResult>, ws: seq<WriteResult>, max: Option<nat>)
    requires Reads(c, ws)
    ensures Call(c, respond, rs, ws, max) == ReadPhase(Ready(c), respond, rs, max)
  {
    WritesWhatFits(ws, |c.out|);
  }

  /** What only writing leaves alone, and how it ends. */
  lemma CallWrites(c: Conn, respond: Responder, rs: seq<ReadResult>, ws: seq<WriteResult>, max: Option<nat>)
    requires !Reads(c, ws)
    ensures var (c', o) := Call(c, respond, rs, ws, max);
      && c'.received == c.received && c'.requests == c.requests && c'.unread == c.unread && c'.deleteme == c.deleteme
      && Goes(o) != (o == SocketErr(WriteUntil(ws, |c.out|).err))
      && (o.SocketErr? <==> WriteUntil(ws, |c.out|).err.Code?)
      && (o == Dormant <==> c.outhdrs_done && Accepted(ws) >= |c.out| && c.nosch)
      && (o == Finished <==> c.outhdrs_done && Accepted(ws) >= |c.out| && !c.nosch && c.deleteme)
  {
    WritesWhatFits(ws, |c.out|);
  }

  /** One more request was taken, and its answer decides whether the connection is to be closed. */
  predicate Took(c: Conn, c': Conn, respond: Responder) {
    && |c'.requests| == |c.requests| + 1 && c'.requests[..|c.requests|] == c.requests
    && c'.deleteme == (c.deleteme || respond(|c.requests|, c'.requests[|c.requests|]).close)
  }

  predicate TookNone(c: Conn, c': Conn) { c'.requests == c.requests && c'.deleteme == c.deleteme }

  lemma ParsingEnds(c: Conn, respond: Responder, p: Parsed)
    ensures var (c', o) := Parsing(c, respond, p);
      && c'.received == c.received && (o == LineTooLong <==> p.verdict == TooLong)
      && (o == Rescheduled || o == LineTooLong || o == BodyExpected)
      && (TookNone(c, c') || (o == Rescheduled && Took(c, c', respond)))
  {
  }

  predicate ReadFails(e: Errno) { e != Zero && e != EAGAIN }

  /** How reading ends. A request taken brings the wish of its answer. */
  lemma ReadEnds(c: Conn, respond: Responder, rs: seq<ReadResult>, max: Option<nat>)
    ensures var (c', o), r := ReadPhase(c, respond, rs, max), ReadUntil(rs, Zero);
      && c'.received == c.received + r.text
      && (o.SocketErr? <==> ReadFails(r.err)) && (o.SocketErr? ==> o.err == r.err)
      && (o == LineTooLong <==> !ReadFails(r.err) && Parse(c.unread + r.text, c.inhdrs, max).verdict == TooLong)
      && o != Dormant && o != Finished
      && (TookNone(c, c') || Took(c, c', respond))
  {
    var c' := TakeIn(c, ReadUntil(rs, Zero).text);
    ParsingEnds(c', respond, Parse(c'.unread, c.inhdrs, max));
  }

  /** What a call reads is received whole, however the call ends. */
  lemma ReceivesWhatIsRead(c: Conn, respond: Responder, rs: seq<ReadResult>, ws: seq<WriteResult>, max: Option<nat>)
    ensures Call(c, respond, rs, ws, max).0.received ==
      c.received + if Reads(c, ws) then ReadUntil(rs, Zero).text else ""
  {
    if Reads(c, ws) {
      CallReads(c, respond, rs, ws, max);
      ReadEnds(Ready(c), respond, rs, max);
    } else {
      CallWrites(c, respond, rs, ws, max);
    }
  }

  /** Exactly when a call leaves the connection dormant or done with: its response is sent to the end, and it
      asked for that; being dormant comes first. */
  lemma RestsIff(c: Conn, respond: Responder, rs: seq<ReadResult>, ws: seq<WriteResult>, max: Option<nat>)
    ensures var o := Call(c, respond, rs, ws, max).1;
      var done := c.m == Write && c.outhdrs_done && Accepted(ws) >= |c.out|;
      && (o == Dormant <==> done && c.nosch)
      && (o == Finished <==> done && !c.nosch && c.deleteme)
  {
    if Reads(c, ws) {
      CallReads(c, respond, rs, ws, max);
      ReadEnds(Ready(c), respond, rs, max);
    } else {
      CallWrites(c, respond, rs, ws, max);
    }
  }

  /** Exactly when a call ends with a socket error: a read fails, or finds the end of the file after an
      interruption, or a write fails before everything is written. */
  lemma SocketErrIff(c: Conn, respond: Responder, rs: seq<ReadResult>, ws: seq<WriteResult>, max: Option<nat>,
                     k: nat, j: nat)
    requires StopsAt(rs, k) && RefusesAt(ws, j)
    ensures Call(c, respond, rs, ws, max).1.SocketErr? <==>
      || (Reads(c, ws) && k < |rs| && (rs[k].ReadError? || (rs[k].EndOfFile? && ReadInterrupted in rs[..k])))
      || (c.m == Write && Accepted(ws) < |c.out| && j < |ws| && ws[j].WriteError?)
  {
    if Reads(c, ws) {
      CallReads(c, respond, rs, ws, max);
      ReadEnds(Ready(c), respond, rs, max);
      ReadsEverything(rs, k, Zero);
    } else {
      CallWrites(c, respond, rs, ws, max);
      WritesWhatFits(ws, |c.out|);
      if Accepted(ws) < |c.out| { StopsShort(ws, j, |c.out|); }
    }
  }

  /** To a call, the end of the file is the same as a read that would block, unless a read was interrupted
      before: the call does not notice that the client has closed its end. */
  lemma EndOfFileIsBlocking(c: Conn, respond: Responder, rs: seq<ReadResult>, ws: seq<WriteResult>,
                            max: Option<nat>, k: nat)
    requires StopsAt(rs, k) && k < |rs| && rs[k].EndOfFile? && ReadInterrupted !in rs[..k]
    ensures Call(c, respond, rs, ws, max) == Call(c, respond, rs[..k], ws, max)
  {
    EndOfFileErrno(rs, k);
    CutAtStop(rs, k, Zero);
  }

  /** Exactly when the parser's exception leaves the call: it reads without a socket error, and what is then
      unread has, after kept lines only, a line beyond the limit. */
  lemma LineTooLongIff(c: Conn, respond: Responder, rs: seq<ReadResult>, ws: seq<WriteResult>, max: Option<nat>)
    ensures Call(c, respond, rs, ws, max).1 == LineTooLong <==>
      && Reads(c, ws) && !ReadFails(ReadUntil(rs, Zero).err)
      && HasLongLine(c.unread + ReadUntil(rs, Zero).text, max)
  {
    if Reads(c, ws) {
      CallReads(c, respond, rs, ws, max);
      ReadEnds(Ready(c), respond, rs, max);
      TooLongIff(c.unread + ReadUntil(rs, Zero).text, Ready(c).inhdrs, max);
    } else {
      CallWrites(c, respond, rs, ws, max);
    }
  }

  /** Four characters from a client, no line end yet, where three are allowed. */
  lemma FourAreTooMany(respond: Responder, ws: seq<WriteResult>)
    ensures Call(FRESH, respond, [Data("abcd")], ws, Some(3)).1 == LineTooLong
  {
    FourRead();
    assert LongLine("abcd", [], "abcd", "", Some(3)) by {
      assert Joined([]) + ("abcd" + "") == "abcd";
    }
    LineTooLongIff(FRESH, respond, [Data("abcd")], ws, Some(3));
  }

  lemma FourRead()
    ensures FRESH.unread + ReadUntil([Data("abcd")], Zero).text == "abcd"
    ensures ReadUntil([Data("abcd")], Zero).err == EAGAIN
  {
    CutWhole("abcd");
    assert [Data("abcd")][1..] == [];
  }

  // ---------- what the worker then does ----------

  /** The worker catches socket errors only, so LineTooLong leaves the thread's function. */
  datatype Fate = PutBack | Asleep | Deleted | Escaped | Unmodelled

  /** A worker's turn (src/Worker.cpp:26-34): the call, and then the look at `deleteme`. */
  function Turn(c: Conn, respond: Responder, rs: seq<ReadResult>, ws: seq<WriteResult>, max: Option<nat>)
    : (Conn, Fate)
  {
    var (c', o) := Call(c, respond, rs, ws, max);
    FateOf(if o.SocketErr? then c'.(deleteme := true) else c', o)
  }

  function FateOf(c: Conn, o: Outcome): (Conn, Fate) {
    match o
    case LineTooLong => (c, Escaped)
    case BodyExpected => (c, Unmodelled)
    case _ => (c, if c.deleteme then Deleted else if o == Dormant then Asleep else PutBack)
  }

  /** Exactly what becomes of a connection after each outcome of the call. */
  lemma FateIff(c: Conn, respond: Responder, rs: seq<ReadResult>, ws: seq<WriteResult>, max: Option<nat>)
    ensures var (c', o), f := Call(c, respond, rs, ws, max), Turn(c, respond, rs, ws, max).1;
      && (f == Escaped <==> o == LineTooLong)
      && (f == Unmodelled <==> o == BodyExpected)
      && (f == Deleted <==> o.SocketErr? || (Goes(o) && c'.deleteme))
      && (f == Asleep <==> o == Dormant && !c'.deleteme)
      && (f == PutBack ==> Goes(o) && o != Dormant && !c'.deleteme)
  {
  }

  /** Exactly when a connection that lives is deleted: on a socket error, or as soon as a request is taken
      whose answer asks for the connection to be closed. It is never deleted because that answer was sent. */
  lemma DeletedIff(c: Conn, respond: Responder, rs: seq<ReadResult>, ws: seq<WriteResult>, max: Option<nat>)
    requires !c.deleteme
    ensures var (c', o), f := Call(c, respond, rs, ws, max), Turn(c, respond, rs, ws, max).1;
      && o != Finished
      && (f == Deleted <==> o.SocketErr? || (Took(c, c', respond) && c'.deleteme))
  {
    RestsIff(c, respond, rs, ws, max);
    if Reads(c, ws) {
      CallReads(c, respond, rs, ws, max);
      ReadEnds(Ready(c), respond, rs, max);
    } else {
      CallWrites(c, respond, rs, ws, max);
    }
  }

  lemma ReadyConserved(c: Conn, respond: Responder, ws: seq<WriteResult>)
    requires Conserved(c, respond) && Reads(c, ws)
    ensures Conserved(Ready(c), respond) && Ready(c).sent == Replies(respond, c.requests)
  {
    if c.m == Write { SentConserved(c, |c.out|, respond); }
    assert Ready(c).sent + "" == Ready(c).sent;
  }

  lemma Cancel(a: string, b: string, b': string)
    requires a + b == a + b'
    ensures b == b'
  {
    assert (a + b)[|a|..] == b && (a + b')[|a|..] == b';
  }

  /** Everything before the answer to the request just taken was sent, and nothing of it. */
  ghost predicate AnswerUnsent(c: Conn, c': Conn, respond: Responder) {
    && Took(c, c', respond) && c'.sent == Replies(respond, c.requests)
    && Remaining(c') == Reply(respond(|c.requests|, c'.requests[|c.requests|]))
  }

  lemma TookReplies(c: Conn, c': Conn, respond: Responder)
    requires Took(c, c', respond)
    ensures Replies(respond, c'.requests)
         == Replies(respond, c.requests) + Reply(respond(|c.requests|, c'.requests[|c.requests|]))
  {
  }

  lemma TookUnsent(c: Conn, c': Conn, respond: Responder)
    requires Took(c, c', respond) && Conserved(c', respond) && c'.sent == Replies(respond, c.requests)
    ensures AnswerUnsent(c, c', respond)
  {
    TookReplies(c, c', respond);
    Cancel(c'.sent, Remaining(c'), Reply(respond(|c.requests|, c'.requests[|c.requests|])));
  }

  /** In the latter case no byte of the answer is sent. */
  lemma ClosingAnswerUnsent(c: Conn, respond: Responder, rs: seq<ReadResult>, ws: seq<WriteResult>, max: Option<nat>)
    requires !c.deleteme && Conserved(c, respond)
    requires Call(c, respond, rs, ws, max).0.deleteme
    ensures AnswerUnsent(c, Call(c, respond, rs, ws, max).0, respond)
  {
    var c' := Call(c, respond, rs, ws, max).0;
    if Reads(c, ws) {
      CallReads(c, respond, rs, ws, max);
      ReadEnds(Ready(c), respond, rs, max);
      ReadyConserved(c, respond, ws);
      ReadConserved(Ready(c), respond, rs, max);
      TookUnsent(c, c', respond);
    } else {
      CallWrites(c, respond, rs, ws, max);
    }
  }
}
