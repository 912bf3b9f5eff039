/** What the header parser and printer (src/HTTP_parsing.cpp, src/HTTP_constants.cpp) do, said of the texts
    alone: which text is a whole message and what is then stored where, and in which order a message is
    printed. */
module HeaderTexts {
  import opened Wrappers
  import opened HeaderNames
  import opened HeaderParsing

  // ---------- slots ----------

  /** The version is somewhere in the line. */
  ghost predicate NamesVersion(line: string) { exists i :: FoundAt(line, "HTTP/1.1", i) }

  /** The line is for the header of this name, with hyphens or underscores. */
  ghost predicate IsFor(line: string, header: string) {
    exists before, name, behind, value ::
      line == before + name + behind + ":" + value && Blank(before) && Blank(behind) && Underscored(name) == header
  }

  /** Exactly which lines go to which slot: those that name the version to the last one, which is the request
      line's; the others to the one of the header they are for. */
  lemma SlotIff(line: string, i: nat)
    ensures i < NUM_HEADER ==> (SlotOf(line) == Some(i) <==> !NamesVersion(line) && IsFor(line, Name(i)))
    ensures SlotOf(line) == Some(NUM_HEADER) <==> NamesVersion(line)
    ensures SlotOf(line).Some? ==> SlotOf(line).value <= NUM_HEADER
  {
    ContainsIff(line, "HTTP/1.1");
    SlotInRange(line);
    LookupInRange(TrimLeft(TrimRight(Underscored(line[..IndexOf(line, ':')]))), 0);
    if i < NUM_HEADER {
      ReadIffSpelled(line, i);
      SpelledIsFor(line, i);
    }
  }

  lemma SpelledIsFor(line: string, h: nat)
    requires h < NUM_HEADER
    ensures IsFor(line, Name(h)) <==> exists before, name, behind, value :: Spells(line, h, before, name, behind, value)
  {
    if IsFor(line, Name(h)) {
      var before, name, behind, value :|
        line == before + name + behind + ":" + value && Blank(before) && Blank(behind) && Underscored(name) == Name(h);
      assert Spells(line, h, before, name, behind, value);
    }
    if exists before, name, behind, value :: Spells(line, h, before, name, behind, value) {
      var before, name, behind, value :| Spells(line, h, before, name, behind, value);
      assert line == before + name + behind + ":" + value;
      assert Blank(before) && Blank(behind) && Underscored(name) == Name(h);
    }
  }

  /** Of the lines kept, the last one for a slot stays. */
  ghost predicate LastFor(ls: seq<string>, i: nat, j: nat) {
    j < |ls| && SlotOf(ls[j]) == Some(i) && forall k :: j < k < |ls| ==> SlotOf(ls[k]) != Some(i)
  }

  lemma {:induction false} StoredNone(hdrs: Headers, ls: seq<string>, i: nat)
    requires i < NUM_SLOTS && forall l <- ls :: SlotOf(l) != Some(i)
    ensures StoreAll(hdrs, ls)[i] == hdrs[i]
    decreases |ls|
  {
    if ls != [] {
      StoredOne(hdrs, ls[0], i);
      StoredNone(Store(hdrs, ls[0]), ls[1..], i);
    }
  }

  lemma {:induction false} StoredLast(hdrs: Headers, ls: seq<string>, i: nat, j: nat)
    requires i < NUM_SLOTS && LastFor(ls, i, j)
    ensures StoreAll(hdrs, ls)[i] == ls[j]
    decreases |ls|
  {
    StoredOne(hdrs, ls[0], i);
    if j > 0 {
      StoredLast(Store(hdrs, ls[0]), ls[1..], i, j - 1);
    } else {
      StoredNone(Store(hdrs, ls[0]), ls[1..], i);
    }
  }

  lemma StoredOne(hdrs: Headers, line: string, i: nat)
    requires i < NUM_SLOTS
    ensures Store(hdrs, line)[i] == if SlotOf(line) == Some(i) then line else hdrs[i]
  {
    SlotInRange(line);
  }

  // ---------- whole messages ----------

  /** s is kept lines, each ended, then an empty line, then rest. */
  ghost predicate IsMessage(s: string, ls: seq<string>, rest: string, max: Option<nat>) {
    (forall l <- ls :: KeptLine(l, max)) && s == Joined(ls) + (CRLF + rest)
  }

  lemma {:induction false} MessageIsDone(s: string, ls: seq<string>, rest: string, hdrs: Headers, max: Option<nat>)
    requires IsMessage(s, ls, rest, max)
    ensures Parse(s, hdrs, max) == Parsed(Done, StoreAll(hdrs, ls), rest)
    decreases |ls|
  {
    if ls == [] {
      assert s == CRLF + rest;
      EmptyLineParsed(s, rest, hdrs, max);
    } else {
      var more := Joined(ls[1..]) + (CRLF + rest);
      JoinedFirst(ls, CRLF + rest);
      MessageIsDone(more, ls[1..], rest, Store(hdrs, ls[0]), max);
      KeptParsed(s, ls[0], more, hdrs, max);
    }
  }

  lemma MessageLater(s: string, first: string, more: string, ls: seq<string>, rest: string, max: Option<nat>)
    requires s == first + CRLF + more && KeptLine(first, max) && IsMessage(more, ls, rest, max)
    ensures IsMessage(s, [first] + ls, rest, max)
  {
    assert ([first] + ls)[1..] == ls;
    JoinedFirst([first] + ls, CRLF + rest);
  }

  lemma {:induction false} DoneIsMessage(s: string, hdrs: Headers, max: Option<nat>)
    requires Parse(s, hdrs, max).verdict == Done
    ensures IsMessage(s, Kept(s, max), Parse(s, hdrs, max).rest, max)
    decreases |s|
  {
    var Ended(first, more) := FirstLine(s);
    if first == "" {
      assert s == Joined([]) + (CRLF + more);
    } else {
      DoneIsMessage(more, Store(hdrs, first), max);
      MessageLater(s, first, more, Kept(more, max), Parse(s, hdrs, max).rest, max);
    }
  }

  ghost predicate HasMessage(s: string, max: Option<nat>) { exists ls, rest :: IsMessage(s, ls, rest, max) }

  /** Exactly when the parser is done: the text begins with a whole message, lines within the limit and then an
      empty line. What follows it stays unread, and its lines, in order, are what was stored. */
  lemma DoneIff(s: string, hdrs: Headers, max: Option<nat>)
    ensures Parse(s, hdrs, max).verdict == Done <==> HasMessage(s, max)
    ensures forall ls, rest :: IsMessage(s, ls, rest, max) ==>
      Parse(s, hdrs, max) == Parsed(Done, StoreAll(hdrs, ls), rest)
  {
    if Parse(s, hdrs, max).verdict == Done { DoneIsMessage(s, hdrs, max); }
    forall ls, rest | IsMessage(s, ls, rest, max)
      ensures Parse(s, hdrs, max) == Parsed(Done, StoreAll(hdrs, ls), rest)
    {
      MessageIsDone(s, ls, rest, hdrs, max);
    }
  }

  /** Text in which no line is ended yet, neither properly nor too long. */
  ghost predicate IsTail(tail: string, max: Option<nat>) {
    !FirstLine(tail).Ended? && !Exceeds(IndexOf(tail, '\r'), max)
  }

  /** When it asks for more it has stored the kept lines and left the rest, but for one character if that has a
      CR. */
  lemma {:induction false} NeedMoreLeaves(s: string, hdrs: Headers, max: Option<nat>) returns (tail: string)
    requires Parse(s, hdrs, max).verdict == NeedMore
    ensures s == Joined(Kept(s, max)) + tail && IsTail(tail, max)
    ensures Parse(s, hdrs, max).rest == if '\r' in tail then tail[1..] else tail
    decreases |s|
  {
    match FirstLine(s) {
      case Open =>
        tail := s;
        assert Joined([]) + tail == tail && s[..|s|] == s;
        NoCRIndex(s);
      case Loose(n) =>
        tail := s;
        assert Joined([]) + tail == tail;
        IndexOfUnique(s, '\r', n);
      case Ended(first, more) =>
        tail := NeedMoreLeaves(more, Store(hdrs, first), max);
        KeptMore(s, first, more, tail, max);
    }
  }

  lemma NoCRIndex(s: string)
    requires '\r' !in s
    ensures IndexOf(s, '\r') == |s|
  {
  }

  lemma KeptMore(s: string, first: string, more: string, tail: string, max: Option<nat>)
    requires s == first + CRLF + more && KeptLine(first, max) && more == Joined(Kept(more, max)) + tail
    requires Kept(s, max) == [first] + Kept(more, max)
    ensures s == Joined(Kept(s, max)) + tail
  {
    assert ([first] + Kept(more, max))[1..] == Kept(more, max);
    JoinedFirst(Kept(s, max), tail);
  }

  /** The limit is exact: that many characters are allowed, one more is not; and without one, any number is. */
  lemma LimitIsExact(line: string, hdrs: Headers, max: Option<nat>)
    requires '\r' !in line
    ensures Parse(line, hdrs, max).verdict == TooLong <==> max.Some? && |line| > max.value
    ensures Parse(line, hdrs, max).verdict != Done
  {
  }

  // ---------- the order of printing ----------

  /** The lines in these slots, one after the other. */
  function LinesIn(hdrs: Headers, slots: seq<nat>): seq<string>
    requires forall i <- slots :: i < NUM_SLOTS
  {
    seq(|slots|, i requires 0 <= i < |slots| => assert slots[i] in slots; hdrs[slots[i]])
  }

  /** All slots below n that have a line, once each, in strictly descending order. */
  ghost predicate DownFrom(hdrs: Headers, slots: seq<nat>, n: nat) {
    && (forall i <- slots :: i < NUM_SLOTS)
    && (forall i, j :: 0 <= i < j < |slots| ==> slots[j] < slots[i])
    && (forall i: nat :: i in slots <==> i < n && i < NUM_SLOTS && hdrs[i] != "")
  }

  lemma LinesFirst(hdrs: Headers, slots: seq<nat>, first: nat)
    requires first < NUM_SLOTS && forall i <- slots :: i < NUM_SLOTS
    ensures LinesIn(hdrs, [first] + slots) == [hdrs[first]] + LinesIn(hdrs, slots)
  {
    assert forall i <- [first] + slots :: i == first || i in slots;
  }

  lemma {:induction false} PrintedDown(hdrs: Headers, n: nat) returns (slots: seq<nat>)
    requires n <= NUM_SLOTS
    ensures DownFrom(hdrs, slots, n) && PrintFrom(hdrs, n) == Joined(LinesIn(hdrs, slots)) + CRLF
  {
    if n == 0 {
      slots := [];
      assert Joined([]) + CRLF == CRLF;
    } else {
      slots := PrintedDown(hdrs, n - 1);
      if hdrs[n - 1] != "" {
        LinesFirst(hdrs, slots, n - 1);
        FirstPrintedDown(hdrs, slots, n);
        slots := [n - 1] + slots;
      } else {
        assert "" + PrintFrom(hdrs, n - 1) == PrintFrom(hdrs, n - 1);
      }
    }
  }

  lemma FirstPrintedDown(hdrs: Headers, slots: seq<nat>, n: nat)
    requires 0 < n <= NUM_SLOTS && hdrs[n - 1] != "" && DownFrom(hdrs, slots, n - 1)
    requires PrintFrom(hdrs, n - 1) == Joined(LinesIn(hdrs, slots)) + CRLF
    requires LinesIn(hdrs, [n - 1] + slots) == [hdrs[n - 1]] + LinesIn(hdrs, slots)
    ensures DownFrom(hdrs, [n - 1] + slots, n)
    ensures PrintFrom(hdrs, n) == Joined(LinesIn(hdrs, [n - 1] + slots)) + CRLF
  {
    var ls := LinesIn(hdrs, [n - 1] + slots);
    assert ls[1..] == LinesIn(hdrs, slots);
    JoinedFirst(ls, CRLF);
  }

  /** A message is printed as its lines, each once and ended, from the last slot down to the first, and then an
      empty line. */
  lemma PrintedInOrder(hdrs: Headers)
    ensures exists slots :: DownFrom(hdrs, slots, NUM_SLOTS) && Print(hdrs) == Joined(LinesIn(hdrs, slots)) + CRLF
  {
    var slots := PrintedDown(hdrs, NUM_SLOTS);
  }

  /** In particular the request or status line comes first. */
  lemma RequestLineFirst(hdrs: Headers)
    requires hdrs[NUM_HEADER] != ""
    ensures hdrs[NUM_HEADER] + CRLF <= Print(hdrs)
  {
    var slots := PrintedDown(hdrs, NUM_SLOTS);
    assert NUM_HEADER in slots;
    assert slots[0] == NUM_HEADER;
    JoinedFirst(LinesIn(hdrs, slots), CRLF);
  }
}
