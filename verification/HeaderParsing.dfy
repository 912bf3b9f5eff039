/** The resumable parser and the printer of message headers (src/HTTP_parsing.cpp), as functions of the
    unread text. `HeaderStream` has the same parser as it runs on a stream. */
module HeaderParsing {
  import opened Wrappers
  import opened HeaderNames

  const REQLN: nat := NUM_HEADER
  const NUM_SLOTS: nat := NUM_HEADER + 1
  const HTTP_VERSION: string := "HTTP/1.1"
  const CRLF: string := "\r\n"

  /** One line for each header, and the request line last. */
  type Headers = s: seq<string> | |s| == NUM_SLOTS witness seq(NUM_SLOTS, _ => "")

  function NoLines(): (hdrs: Headers)
    ensures forall h :: 0 <= h < NUM_SLOTS ==> hdrs[h] == ""
  {
    seq(NUM_SLOTS, _ => "")
  }

  datatype Verdict = Done | NeedMore | TooLong

  datatype Parsed = Parsed(verdict: Verdict, hdrs: Headers, rest: string)

  predicate Contains(line: string, sub: string)
  {
    sub <= line || (line != "" && Contains(line[1..], sub))
  }

  predicate FoundAt(line: string, sub: string, i: nat) { i <= |line| && sub <= line[i..] }

  /** `find` finds the text exactly if it is somewhere in the line. */
  lemma {:induction false} ContainsIff(line: string, sub: string)
    ensures Contains(line, sub) <==> exists i :: FoundAt(line, sub, i)
  {
    assert line[0..] == line;
    if sub <= line {
      assert FoundAt(line, sub, 0);
    } else if line != "" {
      ContainsIff(line[1..], sub);
      assert forall i: nat :: i < |line| ==> line[1..][i..] == line[i + 1..];
      assert forall i: nat :: FoundAt(line[1..], sub, i) ==> FoundAt(line, sub, i + 1);
      assert forall i: nat :: FoundAt(line, sub, i) && i > 0 ==> FoundAt(line[1..], sub, i - 1);
    }
  }

  /** The slot a line is stored in: the request line's if it names the version, else its header's. */
  function SlotOf(line: string): Option<nat> {
    if Contains(line, HTTP_VERSION) then Some(REQLN) else HeaderOf(line)
  }

  lemma SlotInRange(line: string)
    ensures SlotOf(line).Some? ==> SlotOf(line).value < NUM_SLOTS
  {
    LookupInRange(TrimLeft(TrimRight(Underscored(line[..IndexOf(line, ':')]))), 0);
  }

  lemma {:induction false} LookupInRange(s: string, j: nat)
    ensures Lookup(s, j).Some? ==> Lookup(s, j).value < NUM_HEADER
    decreases NUM_HEADER - j
  {
    if j < NUM_HEADER && s != Name(j) { LookupInRange(s, j + 1); }
  }

  /** Lines for no known header are ignored. */
  function Store(hdrs: Headers, line: string): Headers {
    SlotInRange(line);
    match SlotOf(line)
    case None => hdrs
    case Some(h) => hdrs[h := line]
  }

  predicate Exceeds(n: nat, max: Option<nat>) { max.Some? && n > max.value }

  /** What `getline` up to CR and a look at the next character find: no CR; a line of length n whose CR has
      no LF behind it; or a properly ended line. */
  datatype Cut = Open | Loose(n: nat) | Ended(line: string, rest: string)

  function FirstLine(s: string): (c: Cut)
    ensures c.Open? <==> '\r' !in s
    ensures c.Loose? ==> c.n < |s| && s[c.n] == '\r' && '\r' !in s[..c.n] && (c.n + 1 < |s| ==> s[c.n + 1] != '\n')
    ensures c.Ended? ==> s == c.line + CRLF + c.rest && '\r' !in c.line
  {
    var i := IndexOf(s, '\r');
    if i == |s| then
      assert s[..i] == s;
      Open
    else if i + 1 < |s| && s[i + 1] == '\n' then Ended(s[..i], s[i + 2..])
    else Loose(i)
  }

  /** One call of the parser on the unread text s. When the last line is not properly ended it asks for
      more; it then steps back over the line's text but not over a CR it has read. */
  function Parse(s: string, hdrs: Headers, max: Option<nat>): Parsed
    decreases |s|
  {
    match FirstLine(s)
    case Open =>
      if Exceeds(|s|, max) then Parsed(TooLong, hdrs, "") else Parsed(NeedMore, hdrs, s)
    case Loose(n) =>
      if Exceeds(n, max) then Parsed(TooLong, hdrs, s[n + 1..]) else Parsed(NeedMore, hdrs, s[1..])
    case Ended(line, rest) =>
      if line == "" then Parsed(Done, hdrs, rest)
      else if Exceeds(|line|, max) then Parsed(TooLong, hdrs, "\n" + rest)
      else Parse(rest, Store(hdrs, line), max)
  }

  // ---------- the first line when more text follows ----------

  lemma IndexOfUnique(s: string, c: char, i: nat)
    requires i < |s| && c !in s[..i] && s[i] == c
    ensures IndexOf(s, c) == i
  {
    IndexIs(s, i, c);
  }

  lemma EndedLine(line: string, rest: string)
    requires '\r' !in line
    ensures FirstLine(line + CRLF + rest) == Ended(line, rest)
  {
    var s := line + CRLF + rest;
    assert s[..|line|] == line && s[|line| + 2..] == rest;
    IndexOfUnique(s, '\r', |line|);
  }

  lemma LooseLine(s: string, n: nat)
    requires n < |s| && '\r' !in s[..n] && s[n] == '\r' && (n + 1 < |s| ==> s[n + 1] != '\n')
    ensures FirstLine(s) == Loose(n)
  {
    IndexOfUnique(s, '\r', n);
  }

  lemma EndedWithMore(a: string, b: string)
    requires FirstLine(a).Ended?
    ensures FirstLine(a + b) == Ended(FirstLine(a).line, FirstLine(a).rest + b)
  {
    var c := FirstLine(a);
    assert a + b == c.line + CRLF + (c.rest + b);
    EndedLine(c.line, c.rest + b);
  }

  // ---------- chunks ----------

  /** Every CR is followed by LF. */
  ghost predicate CRsEnded(s: string) {
    forall i {:trigger s[i]} :: 0 <= i < |s| && s[i] == '\r' ==> i + 1 < |s| && s[i + 1] == '\n'
  }

  lemma EndedIff(s: string)
    ensures CRsEnded(s) <==> FirstLine(s).Open? || (FirstLine(s).Ended? && CRsEnded(FirstLine(s).rest))
  {
    match FirstLine(s) {
      case Open =>
        assert forall i :: 0 <= i < |s| ==> s[i] in s;
      case Loose(n) =>
        assert s[n] == '\r';
      case Ended(line, rest) =>
        EndedBehind(line, rest);
    }
  }

  lemma EndedBehind(line: string, rest: string)
    requires '\r' !in line
    ensures CRsEnded(line + CRLF + rest) <==> CRsEnded(rest)
  {
    var s, k := line + CRLF + rest, |line| + 2;
    assert forall i :: 0 <= i < |line| ==> s[i] == line[i] && line[i] in line;
    assert forall i :: 0 <= i < |rest| ==> rest[i] == s[k + i];
    if CRsEnded(s) {
      forall i {:trigger rest[i]} | 0 <= i < |rest| && rest[i] == '\r' ensures i + 1 < |rest| && rest[i + 1] == '\n' {
        assert s[k + i] == '\r' && s[k + i + 1] == '\n';
      }
    }
    if CRsEnded(rest) {
      forall i {:trigger s[i]} | 0 <= i < |s| && s[i] == '\r' ensures i + 1 < |s| && s[i + 1] == '\n' {
        if i >= k { assert rest[i - k] == '\r'; }
      }
    }
  }

  /** Parsing `a` and then its unread end with `b` behind it. */
  function ParsedApart(a: string, b: string, hdrs: Headers, max: Option<nat>): Parsed {
    var p := Parse(a, hdrs, max);
    Parse(p.rest + b, p.hdrs, max)
  }

  /** Feeding more text does not change what was decided without it; and when the text so far has no
      loose CR, parsing it and then its unread end with more text is parsing all of it at once. */
  ghost predicate Resumes(a: string, b: string, hdrs: Headers, max: Option<nat>) {
    Continues(Parse(a, hdrs, max), Parse(a + b, hdrs, max), a, b, max)
  }

  ghost predicate Continues(p: Parsed, whole: Parsed, a: string, b: string, max: Option<nat>) {
    match p.verdict
    case Done => whole == Parsed(Done, p.hdrs, p.rest + b)
    case TooLong => whole.verdict == TooLong && whole.hdrs == p.hdrs
    case NeedMore => CRsEnded(a) ==> whole == Parse(p.rest + b, p.hdrs, max) && '\r' !in p.rest
  }

  lemma TooLongWithMore(a: string, b: string, hdrs: Headers, max: Option<nat>)
    requires !FirstLine(a).Ended? && Parse(a, hdrs, max).verdict == TooLong
    ensures Parse(a + b, hdrs, max).verdict == TooLong && Parse(a + b, hdrs, max).hdrs == hdrs
  {
    var n := match FirstLine(a) case Open => |a| case Loose(n) => n;
    assert (a + b)[..n] == a[..n];
    assert a[..|a|] == a;
    var c := FirstLine(a + b);
    match c {
      case Open => 
      case Loose(k) => FirstCRAfter(a, b, n, k);
      case Ended(line, rest) => assert (a + b)[..|line|] == line; FirstCRAfter(a, b, n, |line|);
    }
  }

  lemma FirstCRAfter(a: string, b: string, n: nat, k: nat)
    requires n <= |a| && '\r' !in a[..n] && k < |a + b| && (a + b)[k] == '\r'
    ensures n <= k
  {
    assert forall i :: 0 <= i < n ==> (a + b)[i] in a[..n];
  }

  lemma {:induction false} ParseResumes(a: string, b: string, hdrs: Headers, max: Option<nat>)
    ensures Resumes(a, b, hdrs, max)
    decreases |a|
  {
    EndedIff(a);
    if FirstLine(a).Ended? {
      EndedWithMore(a, b);
      var Ended(line, rest) := FirstLine(a);
      if line != "" && !Exceeds(|line|, max) {
        ParseResumes(rest, b, Store(hdrs, line), max);
      }
    } else if Parse(a, hdrs, max).verdict == TooLong {
      TooLongWithMore(a, b, hdrs, max);
    }
  }

  // ---------- exactly when a split is safe ----------

  lemma {:induction false} RestShrinks(s: string, hdrs: Headers, max: Option<nat>)
    ensures |Parse(s, hdrs, max).rest| <= |s|
    decreases |s|
  {
    match FirstLine(s) {
      case Ended(line, rest) =>
        if line != "" && !Exceeds(|line|, max) { RestShrinks(rest, Store(hdrs, line), max); }
      case _ =>
    }
  }

  /** A CR in the text is consumed, or stepped over. */
  lemma CRConsumed(s: string, hdrs: Headers, max: Option<nat>)
    requires '\r' in s
    ensures |Parse(s, hdrs, max).rest| < |s|
  {
    match FirstLine(s) {
      case Ended(line, rest) => RestShrinks(rest, Store(hdrs, line), max);
      case _ =>
    }
  }

  /** Text after which the parser goes wrong if the text so far has a loose CR. */
  lemma {:induction false} LooseCRShows(a: string, hdrs: Headers, max: Option<nat>) returns (b: string)
    requires Parse(a, hdrs, max).verdict == NeedMore && !CRsEnded(a)
    ensures ParsedApart(a, b, hdrs, max) != Parse(a + b, hdrs, max)
    decreases |a|
  {
    EndedIff(a);
    match FirstLine(a) {
      case Ended(line, rest) =>
        b := LooseCRShows(rest, Store(hdrs, line), max);
        EndedWithMore(a, b);
      case Loose(n) =>
        b := LooseNow(a, n, hdrs, max);
    }
  }

  /** "x" after a line's CR; after a CR alone, LF if there is nothing else yet. */
  lemma LooseNow(a: string, n: nat, hdrs: Headers, max: Option<nat>) returns (b: string)
    requires FirstLine(a) == Loose(n) && !Exceeds(n, max)
    ensures ParsedApart(a, b, hdrs, max) != Parse(a + b, hdrs, max)
  {
    if |a| == 1 {
      b := "\n";
      assert a + b == "" + CRLF + "";
      EndedLine("", "");
    } else {
      b := if n > 0 then "x" else "\r";
      assert (a + b)[..n] == a[..n];
      LooseLine(a + b, n);
      var later := a[1..] + b;
      assert (a + b)[1..] == later && later[if n > 0 then n - 1 else |a| - 1] == '\r';
      CRConsumed(later, hdrs, max);
    }
  }

  /** Whatever follows, parsing after the split is parsing it all. */
  ghost predicate SplitSafe(a: string, hdrs: Headers, max: Option<nat>) {
    forall b :: ParsedApart(a, b, hdrs, max) == Parse(a + b, hdrs, max)
  }

  /** Splitting the input after `a`, where the parser then asks for more, is harmless for every
      continuation exactly if each CR in `a` has its LF in `a`. Source of the loss: the step back in
      src/HTTP_parsing.cpp:36 and :64 does not count a CR already read. */
  lemma SplitIsSafeIff(a: string, hdrs: Headers, max: Option<nat>)
    requires Parse(a, hdrs, max).verdict == NeedMore
    ensures SplitSafe(a, hdrs, max) <==> CRsEnded(a)
  {
    if CRsEnded(a) {
      forall b ensures ParsedApart(a, b, hdrs, max) == Parse(a + b, hdrs, max) { ParseResumes(a, b, hdrs, max); }
    } else {
      var b := LooseCRShows(a, hdrs, max);
    }
  }

  // ---------- the lines kept, and a line that is too long ----------

  /** The lines one call takes from s and stores or ignores. */
  function Kept(s: string, max: Option<nat>): seq<string>
    decreases |s|
  {
    match FirstLine(s)
    case Ended(line, rest) => if line == "" || Exceeds(|line|, max) then [] else [line] + Kept(rest, max)
    case _ => []
  }

  function StoreAll(hdrs: Headers, ls: seq<string>): Headers
    decreases |ls|
  {
    if ls == [] then hdrs else StoreAll(Store(hdrs, ls[0]), ls[1..])
  }

  function Joined(ls: seq<string>): string {
    if ls == [] then "" else ls[0] + CRLF + Joined(ls[1..])
  }

  predicate KeptLine(line: string, max: Option<nat>) { line != "" && '\r' !in line && !Exceeds(|line|, max) }

  /** The headers are what storing the kept lines in order gives, and nothing else. */
  lemma {:induction false} KeptStored(s: string, hdrs: Headers, max: Option<nat>)
    ensures Parse(s, hdrs, max).hdrs == StoreAll(hdrs, Kept(s, max))
    decreases |s|
  {
    match FirstLine(s) {
      case Ended(line, rest) =>
        if line != "" && !Exceeds(|line|, max) { KeptStored(rest, Store(hdrs, line), max); }
      case _ =>
    }
  }

  /** s is the kept lines, then a line beyond the limit that nothing or a CR follows. */
  ghost predicate LongLine(s: string, ls: seq<string>, line: string, tail: string, max: Option<nat>) {
    && (forall l <- ls :: KeptLine(l, max)) && s == Joined(ls) + (line + tail)
    && '\r' !in line && Exceeds(|line|, max) && (tail == "" || tail[0] == '\r')
  }

  ghost predicate HasLongLine(s: string, max: Option<nat>) {
    exists ls, line, tail :: LongLine(s, ls, line, tail, max)
  }

  lemma LongNow(s: string, line: string, tail: string, hdrs: Headers, max: Option<nat>)
    requires s == line + tail && '\r' !in line && Exceeds(|line|, max) && (tail == "" || tail[0] == '\r')
    ensures Parse(s, hdrs, max).verdict == TooLong
  {
    if tail != "" {
      assert s[..|line|] == line && s[|line|] == '\r';
      IndexOfUnique(s, '\r', |line|);
    }
  }

  lemma JoinedFirst(ls: seq<string>, more: string)
    requires ls != []
    ensures Joined(ls) + more == ls[0] + CRLF + (Joined(ls[1..]) + more)
  {
  }

  lemma KeptParsed(text: string, line: string, rest: string, hdrs: Headers, max: Option<nat>)
    requires text == line + CRLF + rest && KeptLine(line, max)
    ensures Parse(text, hdrs, max) == Parse(rest, Store(hdrs, line), max)
  {
    EndedLine(line, rest);
  }

  lemma {:induction false} LongIsTooLong(s: string, ls: seq<string>, line: string, tail: string, hdrs: Headers,
                                          max: Option<nat>)
    requires LongLine(s, ls, line, tail, max)
    ensures Parse(s, hdrs, max).verdict == TooLong
    decreases |ls|
  {
    if ls == [] {
      assert s == line + tail;
      LongNow(s, line, tail, hdrs, max);
    } else {
      var rest := Joined(ls[1..]) + (line + tail);
      JoinedFirst(ls, line + tail);
      LongIsTooLong(rest, ls[1..], line, tail, Store(hdrs, ls[0]), max);
      KeptParsed(s, ls[0], rest, hdrs, max);
    }
  }

  lemma LongAlone(s: string, line: string, tail: string, max: Option<nat>)
    requires s == line + tail && '\r' !in line && Exceeds(|line|, max) && (tail == "" || tail[0] == '\r')
    ensures LongLine(s, [], line, tail, max)
  {
    assert Joined([]) + (line + tail) == line + tail;
  }

  /** The line at which the parser stops, when no line is kept before it. */
  lemma FirstIsLong(s: string, hdrs: Headers, max: Option<nat>) returns (line: string, tail: string)
    requires Parse(s, hdrs, max).verdict == TooLong && Kept(s, max) == []
    ensures LongLine(s, [], line, tail, max)
  {
    var c := FirstLine(s);
    if c.Open? {
      line, tail := s, "";
    } else if c.Loose? {
      line, tail := s[..c.n], s[c.n..];
    } else {
      line, tail := c.line, CRLF + c.rest;
    }
    LongAlone(s, line, tail, max);
  }

  lemma LongLater(s: string, first: string, rest: string, ls: seq<string>, line: string, tail: string, max: Option<nat>)
    requires s == first + CRLF + rest && KeptLine(first, max) && LongLine(rest, ls, line, tail, max)
    ensures LongLine(s, [first] + ls, line, tail, max)
  {
    assert ([first] + ls)[1..] == ls;
    JoinedFirst([first] + ls, line + tail);
  }

  lemma {:induction false} TooLongIsLong(s: string, hdrs: Headers, max: Option<nat>)
    returns (ls: seq<string>, line: string, tail: string)
    requires Parse(s, hdrs, max).verdict == TooLong
    ensures LongLine(s, ls, line, tail, max)
    decreases |s|
  {
    if Kept(s, max) == [] {
      line, tail := FirstIsLong(s, hdrs, max);
      ls := [];
    } else {
      var Ended(first, rest) := FirstLine(s);
      ls, line, tail := TooLongIsLong(rest, Store(hdrs, first), max);
      LongLater(s, first, rest, ls, line, tail, max);
      ls := [first] + ls;
    }
  }

  /** Exactly when the parser throws: some line, after kept lines only, is beyond the limit. It need not be
      ended yet. */
  lemma TooLongIff(s: string, hdrs: Headers, max: Option<nat>)
    ensures Parse(s, hdrs, max).verdict == TooLong <==> HasLongLine(s, max)
  {
    if Parse(s, hdrs, max).verdict == TooLong {
      var ls, line, tail := TooLongIsLong(s, hdrs, max);
    }
    forall ls, line, tail | LongLine(s, ls, line, tail, max) ensures Parse(s, hdrs, max).verdict == TooLong {
      LongIsTooLong(s, ls, line, tail, hdrs, max);
    }
  }

  /** No name read in this call makes the scans of src/HTTP_constants.cpp:122-125 leave the name. */
  predicate ScansStayInside(s: string, max: Option<nat>) {
    forall l <- Kept(s, max) :: Contains(l, HTTP_VERSION) || LineScansInside(l)
  }

  ghost predicate BlankNamed(l: string) {
    !Contains(l, HTTP_VERSION) && exists sp, value :: Nameless(l, sp, value)
  }

  /** Exactly when the parser stays within what C++ defines: no kept line that does not name the version has
      only white space before its first colon. */
  lemma ScansStayInsideIff(s: string, max: Option<nat>)
    ensures ScansStayInside(s, max) <==> forall l <- Kept(s, max) :: !BlankNamed(l)
  {
    forall l ensures Contains(l, HTTP_VERSION) || LineScansInside(l) <==> !BlankNamed(l) { LineScansInsideIff(l); }
  }

  /** A line that is a colon alone. */
  lemma ColonLineLeaves(max: Option<nat>)
    ensures ScansStayInside(":" + CRLF, max) <==> Exceeds(1, max)
  {
    var s := ":" + CRLF;
    assert s + "" == s;
    EndedLine(":", "");
    assert Kept(s, max) != [] ==> Kept(s, max)[0] == ":";
    ColonAlone();
    assert !Contains(":", HTTP_VERSION);
  }

  // ---------- any number of chunks ----------

  function Concat(chunks: seq<string>): string {
    if chunks == [] then "" else chunks[0] + Concat(chunks[1..])
  }

  /** Feeds the chunks one at a time and parses after each, until something is decided; what was not fed
      or read by then remains. */
  function Feed(pending: string, hdrs: Headers, chunks: seq<string>, max: Option<nat>): Parsed
    decreases |chunks|
  {
    if chunks == [] then Parsed(NeedMore, hdrs, pending)
    else
      var p := Parse(pending + chunks[0], hdrs, max);
      if p.verdict == NeedMore then Feed(p.rest, p.hdrs, chunks[1..], max)
      else p.(rest := p.rest + Concat(chunks[1..]))
  }

  /** Equal outcomes. After a line that is too long nothing more is read. */
  predicate Agree(p: Parsed, q: Parsed) {
    p.verdict == q.verdict && p.hdrs == q.hdrs && (p.verdict != TooLong ==> p.rest == q.rest)
  }

  lemma BothEnded(a: string, b: string)
    requires CRsEnded(a) && CRsEnded(b)
    ensures CRsEnded(a + b)
  {
    forall i {:trigger (a + b)[i]} | 0 <= i < |a + b| && (a + b)[i] == '\r'
      ensures i + 1 < |a + b| && (a + b)[i + 1] == '\n'
    {
      if i < |a| { assert a[i + 1] == '\n'; } else { assert b[i - |a|] == '\r'; }
    }
  }

  lemma {:induction false} FeedIsParse(pending: string, hdrs: Headers, chunks: seq<string>, max: Option<nat>)
    requires '\r' !in pending && !Exceeds(|pending|, max)
    requires forall k :: 0 <= k < |chunks| ==> CRsEnded(chunks[k])
    ensures Agree(Feed(pending, hdrs, chunks, max), Parse(pending + Concat(chunks), hdrs, max))
    decreases |chunks|
  {
    if chunks == [] {
      assert pending + "" == pending;
    } else {
      var a, b := pending + chunks[0], Concat(chunks[1..]);
      assert pending + Concat(chunks) == a + b;
      EndedIff(pending);
      BothEnded(pending, chunks[0]);
      ParseResumes(a, b, hdrs, max);
      var p := Parse(a, hdrs, max);
      if p.verdict == NeedMore {
        PendingFits(a, hdrs, max);
        FeedIsParse(p.rest, p.hdrs, chunks[1..], max);
      }
    }
  }

  lemma {:induction false} PendingFits(a: string, hdrs: Headers, max: Option<nat>)
    requires Parse(a, hdrs, max).verdict == NeedMore && CRsEnded(a)
    ensures !Exceeds(|Parse(a, hdrs, max).rest|, max)
    decreases |a|
  {
    EndedIff(a);
    match FirstLine(a) {
      case Open =>
      case Ended(line, rest) => PendingFits(rest, Store(hdrs, line), max);
    }
  }

  /** Chunking does not matter: for any input whose CRs are all followed by LF, cut anywhere but between a
      CR and its LF, the headers, the verdict and the unread remainder are those of one parse of the
      whole. */
  lemma ChunkingDoesNotMatter(hdrs: Headers, chunks: seq<string>, max: Option<nat>)
    requires forall k :: 0 <= k < |chunks| ==> CRsEnded(chunks[k])
    ensures Agree(Feed("", hdrs, chunks, max), Parse(Concat(chunks), hdrs, max))
  {
    assert "" + Concat(chunks) == Concat(chunks);
    FeedIsParse("", hdrs, chunks, max);
  }

  // ---------- the printer ----------

  /** The lines from slot n - 1 down to slot 0, and the empty line. */
  function PrintFrom(hdrs: Headers, n: nat): string
    requires n <= NUM_SLOTS
  {
    if n == 0 then CRLF
    else (if hdrs[n - 1] == "" then "" else hdrs[n - 1] + CRLF) + PrintFrom(hdrs, n - 1)
  }

  function Print(hdrs: Headers): string { PrintFrom(hdrs, NUM_SLOTS) }

  /** Every line is one the parser puts back where it was. */
  ghost predicate WellFormed(hdrs: Headers, max: Option<nat>) {
    forall i {:trigger LineFits(hdrs[i], i, max)} :: 0 <= i < NUM_SLOTS ==> LineFits(hdrs[i], i, max)
  }

  predicate LineFits(line: string, i: nat, max: Option<nat>) {
    line == "" || ('\r' !in line && !Exceeds(|line|, max) && SlotOf(line) == Some(i))
  }

  /** A header line as the printer of names begins it is put back into that header's slot exactly if its value
      has no CR, it does not name the version, and it is within the limit. */
  lemma PrintedLineFits(h: nat, value: string, max: Option<nat>)
    requires h < NUM_HEADER
    ensures LineFits(Printed(h) + value, h, max) <==>
      '\r' !in value && !Contains(Printed(h) + value, HTTP_VERSION) && !Exceeds(|Printed(h) + value|, max)
  {
    PrintedIsRead(h, value);
    NamePlain(h);
    NoCRPrinted(h);
    assert '\r' in Printed(h) + value <==> '\r' in Printed(h) || '\r' in value;
  }

  lemma NoCRPrinted(h: nat)
    requires h < NUM_HEADER && Plain(Name(h))
    ensures '\r' !in Printed(h)
  {
    var name := Hyphenated(Name(h));
    forall i | 0 <= i < |name| ensures name[i] != '\r' { assert PlainChar(Name(h)[i]); }
  }

  lemma StoreAt(hdrs: Headers, line: string, i: nat)
    requires i < NUM_SLOTS && SlotOf(line) == Some(i)
    ensures Store(hdrs, line) == hdrs[i := line]
  {
  }

  lemma LineParsed(text: string, line: string, i: nat, rest: string, hdrs: Headers, max: Option<nat>)
    requires text == line + CRLF + rest
    requires line != "" && i < NUM_SLOTS && LineFits(line, i, max)
    ensures Parse(text, hdrs, max) == Parse(rest, hdrs[i := line], max)
  {
    EndedLine(line, rest);
    StoreAt(hdrs, line, i);
  }

  lemma FirstPrinted(text: string, hdrs: Headers, n: nat, more: string, rest: string)
    requires 0 < n <= NUM_SLOTS && text == PrintFrom(hdrs, n) + rest && more == PrintFrom(hdrs, n - 1) + rest
    ensures text == if hdrs[n - 1] == "" then more else hdrs[n - 1] + CRLF + more
  {
  }

  /** Slots n and up are as in hdrs, the others are empty. */
  ghost predicate FilledFrom(acc: Headers, hdrs: Headers, n: nat) {
    forall i :: 0 <= i < NUM_SLOTS ==> (i >= n ==> acc[i] == hdrs[i]) && (i < n ==> acc[i] == "")
  }

  lemma FillOne(acc: Headers, hdrs: Headers, n: nat) returns (acc': Headers)
    requires 0 < n <= NUM_SLOTS && FilledFrom(acc, hdrs, n)
    ensures acc' == acc[n - 1 := hdrs[n - 1]] && FilledFrom(acc', hdrs, n - 1)
    ensures hdrs[n - 1] == "" ==> acc' == acc
  {
    acc' := acc[n - 1 := hdrs[n - 1]];
  }

  lemma FilledAll(acc: Headers, hdrs: Headers)
    requires FilledFrom(acc, hdrs, 0)
    ensures acc == hdrs
  {
  }

  lemma EmptyLineParsed(text: string, rest: string, hdrs: Headers, max: Option<nat>)
    requires text == CRLF + rest
    ensures Parse(text, hdrs, max) == Parsed(Done, hdrs, rest)
  {
    EndedLine("", rest);
    assert text == "" + CRLF + rest;
  }

  lemma FirstPrintedParsed(text: string, line: string, i: nat, more: string, acc: Headers, acc': Headers,
                           max: Option<nat>)
    requires i < NUM_SLOTS && LineFits(line, i, max)
    requires if line == "" then text == more && acc' == acc else text == line + CRLF + more && acc' == acc[i := line]
    ensures Parse(text, acc, max) == Parse(more, acc', max)
  {
    if line != "" { LineParsed(text, line, i, more, acc, max); }
  }

  lemma {:induction false} PrintedFromParsed(text: string, hdrs: Headers, n: nat, rest: string, acc: Headers,
                                              max: Option<nat>)
    requires n <= NUM_SLOTS && WellFormed(hdrs, max) && FilledFrom(acc, hdrs, n)
    requires text == PrintFrom(hdrs, n) + rest
    ensures Parse(text, acc, max) == Parsed(Done, hdrs, rest)
    decreases n
  {
    if n == 0 {
      FilledAll(acc, hdrs);
      EmptyLineParsed(text, rest, hdrs, max);
    } else {
      var more := PrintFrom(hdrs, n - 1) + rest;
      var acc' := FillOne(acc, hdrs, n);
      FirstPrinted(text, hdrs, n, more, rest);
      PrintedFromParsed(more, hdrs, n - 1, rest, acc', max);
      assert LineFits(hdrs[n - 1], n - 1, max);
      FirstPrintedParsed(text, hdrs[n - 1], n - 1, more, acc, acc', max);
    }
  }

  /** Every line the parser stores is one it would put back. */
  lemma {:induction false} ParsedWellFormed(s: string, hdrs: Headers, max: Option<nat>)
    requires WellFormed(hdrs, max)
    ensures WellFormed(Parse(s, hdrs, max).hdrs, max)
    decreases |s|
  {
    match FirstLine(s) {
      case Ended(line, rest) =>
        if line != "" && !Exceeds(|line|, max) {
          StoreWellFormed(hdrs, line, max);
          ParsedWellFormed(rest, Store(hdrs, line), max);
        }
      case _ =>
    }
  }

  lemma StoreWellFormed(hdrs: Headers, line: string, max: Option<nat>)
    requires WellFormed(hdrs, max) && '\r' !in line && !Exceeds(|line|, max)
    ensures WellFormed(Store(hdrs, line), max)
  {
    SlotInRange(line);
    if SlotOf(line).Some? {
      var i := SlotOf(line).value;
      StoreAt(hdrs, line, i);
      var hdrs' := hdrs[i := line];
      forall k | 0 <= k < NUM_SLOTS ensures LineFits(hdrs'[k], k, max) {
        assert LineFits(hdrs[k], k, max);
      }
    }
  }

  /** Round trip: printing headers and parsing them back, whatever follows, gives the same headers and
      leaves exactly what follows, if and only if they are well formed. */
  lemma RoundTripIff(hdrs: Headers, rest: string, max: Option<nat>)
    ensures Parse(Print(hdrs) + rest, NoLines(), max) == Parsed(Done, hdrs, rest) <==> WellFormed(hdrs, max)
  {
    if WellFormed(hdrs, max) {
      PrintedFromParsed(Print(hdrs) + rest, hdrs, NUM_SLOTS, rest, NoLines(), max);
    } else {
      ParsedWellFormed(Print(hdrs) + rest, NoLines(), max);
    }
  }

  /** Pipelined requests: their texts one after the other. */
  function Stream(requests: seq<Headers>): string {
    if requests == [] then "" else Print(requests[0]) + Stream(requests[1..])
  }

  lemma {:induction false} DoneConsumes(s: string, hdrs: Headers, max: Option<nat>)
    requires Parse(s, hdrs, max).verdict == Done
    ensures |Parse(s, hdrs, max).rest| + 2 <= |s|
    decreases |s|
  {
    var Ended(line, rest) := FirstLine(s);
    if line != "" { DoneConsumes(rest, Store(hdrs, line), max); }
  }

  /** The messages s holds, when the first is already parsed up to `hdrs`. */
  function Messages(s: string, hdrs: Headers, max: Option<nat>): seq<Headers>
    decreases |s|, 1
  {
    MessagesAfter(s, hdrs, Parse(s, hdrs, max), max)
  }

  function MessagesAfter(s: string, hdrs: Headers, p: Parsed, max: Option<nat>): seq<Headers>
    requires p == Parse(s, hdrs, max)
    decreases |s|, 0
  {
    if p.verdict == Done then
      DoneConsumes(s, hdrs, max);
      [p.hdrs] + Messages(p.rest, NoLines(), max)
    else []
  }

  lemma MessagesStep(s: string, hdrs: Headers, first: Headers, rest: string, max: Option<nat>)
    requires Parse(s, hdrs, max) == Parsed(Done, first, rest)
    ensures Messages(s, hdrs, max) == [first] + Messages(rest, NoLines(), max)
  {
    DoneConsumes(s, hdrs, max);
  }

  /** How parsing one message after the other ends: the verdict on what is left. */
  function Ending(s: string, hdrs: Headers, max: Option<nat>): Verdict
    decreases |s|, 1
  {
    EndingAfter(s, hdrs, Parse(s, hdrs, max), max)
  }

  function EndingAfter(s: string, hdrs: Headers, p: Parsed, max: Option<nat>): Verdict
    requires p == Parse(s, hdrs, max)
    decreases |s|, 0
  {
    if p.verdict == Done then
      DoneConsumes(s, hdrs, max);
      Ending(p.rest, NoLines(), max)
    else p.verdict
  }

  lemma EndingStep(s: string, hdrs: Headers, first: Headers, rest: string, max: Option<nat>)
    requires Parse(s, hdrs, max) == Parsed(Done, first, rest)
    ensures Ending(s, hdrs, max) == Ending(rest, NoLines(), max)
  {
    DoneConsumes(s, hdrs, max);
  }

  lemma FirstStreamed(text: string, requests: seq<Headers>, rest: string) returns (more: string)
    requires text == Stream(requests) + rest
    ensures if requests == [] then more == text == rest
            else more == Stream(requests[1..]) + rest && text == Print(requests[0]) + more
  {
    more := if requests == [] then rest else Stream(requests[1..]) + rest;
  }

  lemma FirstOfMany(text: string, first: Headers, more: string, max: Option<nat>)
    requires text == Print(first) + more && WellFormed(first, max)
    ensures Messages(text, NoLines(), max) == [first] + Messages(more, NoLines(), max)
    ensures Ending(text, NoLines(), max) == Ending(more, NoLines(), max)
  {
    RoundTripIff(first, more, max);
    MessagesStep(text, NoLines(), first, more, max);
    EndingStep(text, NoLines(), first, more, max);
  }

  lemma Rejoined(requests: seq<Headers>, more: seq<Headers>)
    requires requests != []
    ensures [requests[0]] + (requests[1..] + more) == requests + more
  {
  }

  ghost predicate AllWellFormed(requests: seq<Headers>, max: Option<nat>) {
    forall h <- requests :: WellFormed(h, max)
  }

  /** n requests come back one by one, in order, and nothing of what follows them is lost. */
  lemma {:induction false} PipelineRoundTrip(text: string, requests: seq<Headers>, rest: string, max: Option<nat>)
    requires text == Stream(requests) + rest && AllWellFormed(requests, max)
    ensures Messages(text, NoLines(), max) == requests + Messages(rest, NoLines(), max)
    ensures Ending(text, NoLines(), max) == Ending(rest, NoLines(), max)
    decreases |requests|
  {
    var more := FirstStreamed(text, requests, rest);
    if requests != [] {
      PipelineRoundTrip(more, requests[1..], rest, max);
      FirstOfMany(text, requests[0], more, max);
      Rejoined(requests, Messages(rest, NoLines(), max));
    }
  }

  lemma {:induction false} DoneRestEnded(s: string, hdrs: Headers, max: Option<nat>)
    requires CRsEnded(s) && Parse(s, hdrs, max).verdict == Done
    ensures CRsEnded(Parse(s, hdrs, max).rest)
    decreases |s|
  {
    EndedIff(s);
    var Ended(line, rest) := FirstLine(s);
    if line != "" { DoneRestEnded(rest, Store(hdrs, line), max); }
  }
}
