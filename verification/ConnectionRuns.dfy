/** What holds over whole runs of one connection's calls (`Connection`): the balance of bytes, the order of
    requests, the round from the client's bytes to the answers, and what becomes of an answer that asks for the
    connection to be closed. */
module ConnectionRuns {
  import opened Wrappers
  import opened HeaderParsing
  import opened Connection

  /** The kernel's answers during one call. */
  datatype Kernel = Kernel(rs: seq<ReadResult>, ws: seq<WriteResult>)

  /** A call, after which the connection lives on unless the run ends there. */
  ghost predicate CallAt(cs: seq<Conn>, ks: seq<Kernel>, i: nat, respond: Responder, max: Option<nat>)
    requires |cs| == |ks| + 1 && i < |ks|
  {
    var (c', o) := Call(cs[i], respond, ks[i].rs, ks[i].ws, max);
    cs[i + 1] == c' && Goes(o) && (i + 1 < |ks| ==> Turn(cs[i], respond, ks[i].rs, ks[i].ws, max).1 == PutBack)
  }

  /** Any number of calls on a fresh connection, none of which throws or meets a request with a body. The
      worker puts the connection back after each but the last. */
  ghost predicate Run(cs: seq<Conn>, ks: seq<Kernel>, respond: Responder, max: Option<nat>) {
    && |cs| == |ks| + 1 && cs[0] == FRESH
    && forall i {:trigger CallAt(cs, ks, i, respond, max)} :: 0 <= i < |ks| ==> CallAt(cs, ks, i, respond, max)
  }

  lemma CallIs(cs: seq<Conn>, ks: seq<Kernel>, respond: Responder, max: Option<nat>, i: nat)
    requires Run(cs, ks, respond, max) && i < |ks|
    ensures cs[i + 1] == Call(cs[i], respond, ks[i].rs, ks[i].ws, max).0
  {
    assert CallAt(cs, ks, i, respond, max);
  }

  lemma NextConserves(cs: seq<Conn>, ks: seq<Kernel>, respond: Responder, max: Option<nat>, i: nat)
    requires Run(cs, ks, respond, max) && i < |ks| && Conserved(cs[i], respond)
    ensures Conserved(cs[i + 1], respond)
  {
    CallIs(cs, ks, respond, max, i);
    CallConserved(cs[i], respond, ks[i].rs, ks[i].ws, max);
  }

  /** The balance holds after any number of calls. */
  lemma {:induction false} RunConserves(cs: seq<Conn>, ks: seq<Kernel>, respond: Responder, max: Option<nat>, n: nat)
    requires Run(cs, ks, respond, max) && n < |cs|
    ensures Conserved(cs[n], respond)
  {
    if n == 0 {
      assert "" + "" == "";
    } else {
      RunConserves(cs, ks, respond, max, n - 1);
      NextConserves(cs, ks, respond, max, n - 1);
    }
  }

  /** No call's text ends within a line end. */
  ghost predicate CutAtLines(ks: seq<Kernel>) {
    forall k <- ks :: CRsEnded(ReadUntil(k.rs, Zero).text)
  }

  lemma Unprefixed(hs: seq<Headers>)
    ensures [] + hs == hs
  {
  }

  lemma FreshFollows(max: Option<nat>)
    ensures Follows(FRESH, max) && Pending(FRESH, max)
  {
    forall b ensures Agrees(FRESH, b, max) {
      assert "" + b == b;
      Unprefixed(Messages(b, NoLines(), max));
    }
  }

  lemma {:induction false} RunFollows(cs: seq<Conn>, ks: seq<Kernel>, respond: Responder, max: Option<nat>, n: nat)
    requires Run(cs, ks, respond, max) && n < |cs| && CutAtLines(ks)
    ensures Follows(cs[n], max) && Pending(cs[n], max)
  {
    if n == 0 {
      FreshFollows(max);
    } else {
      RunFollows(cs, ks, respond, max, n - 1);
      assert CallAt(cs, ks, n - 1, respond, max) && ks[n - 1] in ks;
      CallFollows(cs[n - 1], respond, ks[n - 1].rs, ks[n - 1].ws, max);
    }
  }

  lemma NoMessages(s: string, hdrs: Headers, max: Option<nat>)
    requires '\r' !in s && !Exceeds(|s|, max)
    ensures Messages(s, hdrs, max) == []
  {
  }

  lemma RepliesLast(respond: Responder, all: seq<Headers>)
    requires all != []
    ensures Replies(respond, all[..|all| - 1]) <= Replies(respond, all)
  {
  }

  lemma {:induction false} RepliesGrow(respond: Responder, some: seq<Headers>, all: seq<Headers>)
    requires some <= all
    ensures Replies(respond, some) <= Replies(respond, all)
    decreases |all|
  {
    if some != all {
      RepliesLast(respond, all);
      RepliesGrow(respond, some, all[..|all| - 1]);
    }
  }

  // ---------- the bytes the kernel delivered ----------

  /** The bytes of all reads made in the first n calls. */
  function Delivered(cs: seq<Conn>, ks: seq<Kernel>, n: nat): string
    requires |cs| == |ks| + 1 && n <= |ks|
  {
    if n == 0 then ""
    else Delivered(cs, ks, n - 1) + if Reads(cs[n - 1], ks[n - 1].ws) then BytesRead(ks[n - 1].rs) else ""
  }

  lemma {:induction false} ReceivedIff(cs: seq<Conn>, ks: seq<Kernel>, respond: Responder, max: Option<nat>, n: nat)
    requires Run(cs, ks, respond, max) && n < |cs|
    ensures cs[n].received == Delivered(cs, ks, n) <==> '\0' !in Delivered(cs, ks, n)
    ensures |cs[n].received| <= |Delivered(cs, ks, n)|
  {
    if n > 0 {
      ReceivedIff(cs, ks, respond, max, n - 1);
      assert CallAt(cs, ks, n - 1, respond, max);
      var c, k, d := cs[n - 1], ks[n - 1], Delivered(cs, ks, n - 1);
      ReceivesWhatIsRead(c, respond, k.rs, k.ws, max);
      if Reads(c, k.ws) {
        ReadsEverything(k.rs, FirstStop(k.rs), Zero);
        BothWhole(c.received, ReadUntil(k.rs, Zero).text, d, BytesRead(k.rs));
      } else {
        assert c.received + "" == c.received && d + "" == d;
      }
    }
  }

  lemma BothWhole(a: string, b: string, a': string, b': string)
    requires |a| <= |a'| && |b| <= |b'|
    requires (a == a' <==> '\0' !in a') && (b == b' <==> '\0' !in b')
    ensures a + b == a' + b' <==> '\0' !in a' + b'
  {
    assert '\0' in a' + b' <==> '\0' in a' || '\0' in b';
    BothParts(a, b, a', b');
  }

  // ---------- from end to end ----------

  lemma Taken(cs: seq<Conn>, ks: seq<Kernel>, respond: Responder, max: Option<nat>, n: nat,
              hs: seq<Headers>, more: string)
    requires Run(cs, ks, respond, max) && n < |cs| && CutAtLines(ks)
    requires AllWellFormed(hs, max) && cs[n].received + more == Stream(hs)
    ensures hs == cs[n].requests + Messages(cs[n].unread + more, Started(cs[n]), max)
  {
    RunFollows(cs, ks, respond, max, n);
    assert Agrees(cs[n], more, max);
    assert Stream(hs) + "" == Stream(hs);
    PipelineRoundTrip(Stream(hs), hs, "", max);
    NoMessages("", NoLines(), max);
  }

  /** From end to end: if what the client has sent, of which the kernel has delivered a part without NUL, are
      well-formed requests one after the other, then whatever the sizes of reads and writes, the requests taken
      are a prefix of those sent, and the bytes sent are a prefix of the answers to them, in order. */
  lemma EndToEnd(cs: seq<Conn>, ks: seq<Kernel>, respond: Responder, max: Option<nat>, n: nat,
                 hs: seq<Headers>, more: string)
    requires Run(cs, ks, respond, max) && n < |cs| && CutAtLines(ks)
    requires AllWellFormed(hs, max) && Delivered(cs, ks, n) + more == Stream(hs) && '\0' !in Delivered(cs, ks, n)
    ensures cs[n].requests <= hs
    ensures cs[n].sent <= Replies(respond, cs[n].requests) <= Replies(respond, hs)
    ensures AllWhole(respond, hs) ==> cs[n].sent <= FullReplies(respond, hs)
  {
    ReceivedIff(cs, ks, respond, max, n);
    Taken(cs, ks, respond, max, n, hs, more);
    RunConserves(cs, ks, respond, max, n);
    RepliesGrow(respond, cs[n].requests, hs);
    RepliesWholeIff(respond, hs);
  }

  /** When all was delivered and the connection waits for input, every request was taken and every answer sent;
      and the answers are whole exactly if none has a NUL in its headers or headers that fill the buffer. */
  lemma AllAnswered(cs: seq<Conn>, ks: seq<Kernel>, respond: Responder, max: Option<nat>, n: nat, hs: seq<Headers>)
    requires Run(cs, ks, respond, max) && n < |cs| && CutAtLines(ks)
    requires AllWellFormed(hs, max) && Delivered(cs, ks, n) == Stream(hs) && '\0' !in Stream(hs) && cs[n].m == Read
    ensures cs[n].requests == hs && cs[n].sent == Replies(respond, hs)
    ensures cs[n].sent == FullReplies(respond, hs) <==> AllWhole(respond, hs)
  {
    var c := cs[n];
    ReceivedIff(cs, ks, respond, max, n);
    assert c.received + "" == c.received && c.unread + "" == c.unread && c.sent + "" == c.sent;
    Taken(cs, ks, respond, max, n, hs, "");
    RunFollows(cs, ks, respond, max, n);
    NoMessages(c.unread, c.inhdrs, max);
    RunConserves(cs, ks, respond, max, n);
    RepliesWholeIff(respond, hs);
  }

  // ---------- answers that ask for the connection to be closed ----------

  predicate Closes(respond: Responder, requests: seq<Headers>) {
    exists i :: 0 <= i < |requests| && respond(i, requests[i]).close
  }

  lemma ClosesGrows(respond: Responder, requests: seq<Headers>, requests': seq<Headers>)
    requires |requests'| == |requests| + 1 && requests'[..|requests|] == requests
    ensures Closes(respond, requests') <==>
      Closes(respond, requests) || respond(|requests|, requests'[|requests|]).close
  {
    assert forall i :: 0 <= i < |requests| ==> requests'[i] == requests[i];
  }

  lemma DeletemeKept(c: Conn, respond: Responder, k: Kernel, max: Option<nat>)
    requires c.deleteme <==> Closes(respond, c.requests)
    ensures var c' := Call(c, respond, k.rs, k.ws, max).0; c'.deleteme <==> Closes(respond, c'.requests)
  {
    var c' := Call(c, respond, k.rs, k.ws, max).0;
    if Reads(c, k.ws) {
      CallReads(c, respond, k.rs, k.ws, max);
      ReadEnds(Ready(c), respond, k.rs, max);
      if Took(Ready(c), c', respond) { ClosesGrows(respond, c.requests, c'.requests); }
    } else {
      CallWrites(c, respond, k.rs, k.ws, max);
    }
  }

  lemma NextDeleteme(cs: seq<Conn>, ks: seq<Kernel>, respond: Responder, max: Option<nat>, i: nat)
    requires Run(cs, ks, respond, max) && i < |ks| && (cs[i].deleteme <==> Closes(respond, cs[i].requests))
    ensures cs[i + 1].deleteme <==> Closes(respond, cs[i + 1].requests)
    ensures i + 1 < |ks| ==> !cs[i + 1].deleteme
  {
    assert CallAt(cs, ks, i, respond, max);
    DeletemeKept(cs[i], respond, ks[i], max);
  }

  lemma {:induction false} DeletemeIff(cs: seq<Conn>, ks: seq<Kernel>, respond: Responder, max: Option<nat>, n: nat)
    requires Run(cs, ks, respond, max) && n < |cs|
    ensures cs[n].deleteme <==> Closes(respond, cs[n].requests)
    ensures n < |ks| ==> !cs[n].deleteme
  {
    if n > 0 {
      DeletemeIff(cs, ks, respond, max, n - 1);
      NextDeleteme(cs, ks, respond, max, n - 1);
    }
  }

  /** An answer that asks for the connection to be closed is lost, whole: at the end of a run the worker deletes
      the connection exactly if the last request taken has such an answer, and then everything before that
      answer was sent and nothing of it. So no such answer ever reaches the client, and no call ever ends as
      Finished. */
  lemma ClosingAnswerIsLost(cs: seq<Conn>, ks: seq<Kernel>, respond: Responder, max: Option<nat>, n: nat)
    requires Run(cs, ks, respond, max) && n < |cs|
    ensures cs[n].deleteme <==> LastCloses(respond, cs[n].requests)
    ensures cs[n].deleteme ==> n == |ks| > 0 && AnswerUnsent(cs[n - 1], cs[n], respond)
    ensures n < |ks| ==> Call(cs[n], respond, ks[n].rs, ks[n].ws, max).1 != Finished
  {
    DeletemeIff(cs, ks, respond, max, n);
    if n < |ks| { DeletedIff(cs[n], respond, ks[n].rs, ks[n].ws, max); }
    if cs[n].deleteme { LastCallCloses(cs, ks, respond, max, n); }
  }

  predicate LastCloses(respond: Responder, requests: seq<Headers>) {
    requests != [] && respond(|requests| - 1, requests[|requests| - 1]).close
  }

  lemma CallCloses(c: Conn, c': Conn, respond: Responder, k: Kernel, max: Option<nat>)
    requires c' == Call(c, respond, k.rs, k.ws, max).0 && !c.deleteme && c'.deleteme && Conserved(c, respond)
    ensures AnswerUnsent(c, c', respond) && LastCloses(respond, c'.requests)
  {
    ClosingAnswerUnsent(c, respond, k.rs, k.ws, max);
    DeletedIff(c, respond, k.rs, k.ws, max);
  }

  lemma LastCallCloses(cs: seq<Conn>, ks: seq<Kernel>, respond: Responder, max: Option<nat>, n: nat)
    requires Run(cs, ks, respond, max) && n < |cs| && cs[n].deleteme
    ensures n > 0 && AnswerUnsent(cs[n - 1], cs[n], respond) && LastCloses(respond, cs[n].requests)
  {
    DeletemeIff(cs, ks, respond, max, n);
    DeletemeIff(cs, ks, respond, max, n - 1);
    RunConserves(cs, ks, respond, max, n - 1);
    CallIs(cs, ks, respond, max, n - 1);
    CallCloses(cs[n - 1], cs[n], respond, ks[n - 1], max);
  }
}
