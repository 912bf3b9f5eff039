/** The string stream the server reads from, and the header parser and printer as they run on it
    (src/HTTP_parsing.cpp). */
module HeaderStream {
  import opened Wrappers
  import opened HeaderNames
  import opened HeaderParsing

  lemma EmptyFrom(buf: string, pos: nat)
    requires pos <= |buf|
    ensures buf[pos..] == "" <==> pos == |buf|
  {
  }

  /** A `stringstream` read from: its text, the read position, and the flags that stop reading. */
  class Input {
    var buf: string
    var pos: nat
    var eof: bool
    var fail: bool

    ghost predicate Valid()
      reads this
    {
      pos <= |buf|
    }

    function Unread(): string
      reads this
      requires Valid()
    {
      buf[pos..]
    }

    predicate Good()
      reads this
    {
      !eof && !fail
    }

    constructor ()
      ensures Valid() && Good() && buf == ""
    {
      buf, pos, eof, fail := "", 0, false, false;
    }

    /** `operator<<`: the write position is always the end. */
    method Append(s: string)
      requires Valid()
      modifies this
      ensures Valid() && Unread() == old(Unread()) + s && buf == old(buf) + s
      ensures pos == old(pos) && eof == old(eof) && fail == old(fail)
    {
      buf := buf + s;
    }

    /** `str("")` and `clear()`. */
    method Drop()
      modifies this
      ensures Valid() && Good() && Unread() == "" && buf == ""
    {
      buf, pos, eof, fail := "", 0, false, false;
    }

    method Clear()
      requires Valid()
      modifies this`eof, this`fail
      ensures Good()
    {
      eof, fail := false, false;
    }

    /** Reads up to the delimiter, which is taken but not returned, or up to the end. It fails if there was
        nothing to take. */
    method GetLine(delim: char) returns (line: string)
      requires Valid()
      modifies this
      ensures Valid() && buf == old(buf)
      ensures !old(Good()) ==> line == "" && fail && pos == old(pos) && eof == old(eof)
      ensures old(Good()) ==> var u := old(Unread()); var i := IndexOf(u, delim);
        && line == u[..i] && pos == old(pos) + (if i < |u| then i + 1 else i)
        && eof == (i == |u|) && fail == (u == "") && Unread() == u[if i < |u| then i + 1 else i..]
    {
      line := "";
      if eof || fail {
        fail := true;
      } else {
        var i := IndexOf(buf[pos..], delim);
        line := buf[pos..][..i];
        eof := i == |buf| - pos;
        fail := pos == |buf|;
        pos := pos + if eof then i else i + 1;
      }
    }

    method Peek() returns (c: Option<char>)
      requires Valid()
      modifies this`eof, this`fail
      ensures old(Good()) && pos < |buf| ==> c == Some(buf[pos]) && Good()
      ensures !(old(Good()) && pos < |buf|) ==> c == None
      ensures old(Good()) ==> eof == (pos == |buf|) && !fail
    {
      c := None;
      if eof || fail {
        fail := true;
      } else if pos == |buf| {
        eof := true;
      } else {
        c := Some(buf[pos]);
      }
    }

    /** Takes one character. */
    method Ignore()
      requires Valid()
      modifies this
      ensures Valid() && buf == old(buf)
      ensures old(Good()) && old(pos) < |buf| ==> pos == old(pos) + 1 && Good() && Unread() == old(Unread())[1..]
      ensures !(old(Good()) && old(pos) < |buf|) ==> pos == old(pos) && !Good()
    {
      if eof || fail {
        fail := true;
      } else if pos == |buf| {
        eof := true;
      } else {
        pos := pos + 1;
      }
    }

    /** `seekg(-n, ios::cur)`. */
    method SeekBack(n: nat)
      requires Valid()
      modifies this
      ensures Valid() && buf == old(buf)
      ensures !old(fail) && n <= old(pos) ==> pos == old(pos) - n && Good()
      ensures !(!old(fail) && n <= old(pos)) ==> pos == old(pos) && fail
    {
      eof := false;
      if fail || n > pos {
        fail := true;
      } else {
        pos := pos - n;
      }
    }

    /** Takes a character and gives it back; if there is none, drops the text already read. No unread
        character is lost. */
    method HasNext() returns (more: bool)
      requires Valid() && Good()
      modifies this
      ensures Valid() && Good() && Unread() == old(Unread()) && more == (Unread() != "")
    {
      ghost var from := pos;
      EmptyFrom(buf, pos);
      Ignore();
      more := !eof && !fail;
      assert more <==> from < |buf|;
      if more {
        Unget();
        assert pos == from;
      } else {
        Drop();
      }
    }

    /** Steps back over the last character taken. */
    method Unget()
      requires Valid()
      modifies this
      ensures Valid() && buf == old(buf)
      ensures !old(fail) && old(pos) > 0 ==> pos == old(pos) - 1 && Good()
      ensures !(!old(fail) && old(pos) > 0) ==> pos == old(pos) && !Good()
    {
      eof := false;
      if fail {
      } else if pos == 0 {
        fail := true;
      } else {
        pos := pos - 1;
      }
    }
  }

  /** Where the parser is after one turn of its loop: a line to store, or a verdict. */
  datatype Turn = Line(line: string, rest: string) | Stop(verdict: Verdict, rest: string)

  /** With the line and what is left after it, and what is left after stepping back over the line. */
  function Decide(line: string, left: string, back: string, max: Option<nat>): Turn {
    if line != "" && Exceeds(|line|, max) then Stop(TooLong, left)
    else if left == "" || left[0] != '\n' then Stop(NeedMore, back)
    else if line == "" then Stop(Done, left[1..])
    else Line(line, left[1..])
  }

  function TurnOf(s: string, max: Option<nat>): Turn {
    match FirstLine(s)
    case Open => Decide(s, "", s, max)
    case Loose(n) => Decide(s[..n], s[n + 1..], s[1..], max)
    case Ended(line, rest) => Decide(line, "\n" + rest, s, max)
  }

  function AfterTurn(t: Turn, hdrs: Headers, max: Option<nat>): Parsed {
    match t
    case Line(line, rest) => Parse(rest, Store(hdrs, line), max)
    case Stop(v, rest) => Parsed(v, hdrs, rest)
  }

  lemma ParseTurn(s: string, hdrs: Headers, max: Option<nat>)
    ensures Parse(s, hdrs, max) == AfterTurn(TurnOf(s, max), hdrs, max)
  {
    match FirstLine(s) {
      case Open =>
      case Loose(n) => assert n + 1 < |s| ==> s[n + 1..][0] == s[n + 1];
      case Ended(line, rest) => assert ("\n" + rest)[1..] == rest;
    }
  }

  /** One `getline` takes a line from s and leaves `left`; stepping back over the line leaves `back`. */
  ghost predicate Took(s: string, line: string, left: string, back: string) {
    match FirstLine(s)
    case Open => line == s && left == "" && back == s
    case Loose(n) => line == s[..n] && left == s[n + 1..] && back == s[1..]
    case Ended(l, rest) => line == l && left == "\n" + rest
  }

  lemma EndedLeft(s: string, line: string, rest: string)
    requires s == line + CRLF + rest
    ensures s[..|line|] == line && s[|line| + 1..] == "\n" + rest
  {
  }

  lemma TookFrom(s: string, i: nat, line: string, left: string, back: string)
    requires i == IndexOf(s, '\r') && line == s[..i]
    requires if i < |s| then left == s[i + 1..] && back == s[1..] else left == "" && back == s
    ensures Took(s, line, left, back)
  {
    var c := FirstLine(s);
    if c.Ended? {
      EndedLeft(s, c.line, c.rest);
      IndexOfUnique(s, '\r', |c.line|);
    } else if c.Open? {
      assert s[..i] == s;
    }
  }

  lemma Slices(buf: string, from: nat, pos: nat)
    requires from <= pos <= |buf|
    ensures buf[pos..] == buf[from..][pos - from..]
  {
  }

  lemma LineTook(buf: string, from: nat, pos: nat, line: string, left: string, back: string)
    requires from <= pos <= |buf| && |line| <= pos
    requires var s := buf[from..]; var i := IndexOf(s, '\r');
      line == s[..i] && pos == from + (if i < |s| then i + 1 else i)
    requires left == buf[pos..] && back == buf[pos - |line|..]
    ensures Took(buf[from..], line, left, back) && |back| <= |buf| - from
  {
    var s := buf[from..];
    var i := IndexOf(s, '\r');
    assert left == s[pos - from..] by { Slices(buf, from, pos); }
    assert back == s[pos - from - i..] by { Slices(buf, from, pos - |line|); }
    Emptied(s, left, back);
    TookFrom(s, i, line, left, back);
  }

  lemma Emptied(s: string, left: string, back: string)
    ensures left == s[|s|..] ==> left == ""
    ensures back == s[0..] ==> back == s
  {
  }

  lemma Decided(s: string, line: string, left: string, back: string, max: Option<nat>)
    requires Took(s, line, left, back)
    ensures TurnOf(s, max) == Decide(line, left, back, max)
    ensures |left| <= |s|
  {
  }

  /** The `getline`. */
  method Text(input: Input, ghost max: Option<nat>) returns (line: string, ghost back: string)
    requires input.Valid() && input.Good()
    modifies input
    ensures input.Valid() && input.buf == old(input.buf) && !input.fail == (old(input.Unread()) != "")
    ensures |line| <= input.pos && back == input.buf[input.pos - |line|..]
    ensures TurnOf(old(input.Unread()), max) == Decide(line, input.Unread(), back, max)
    ensures input.fail ==> input.Unread() == line == ""
    ensures input.Good() || input.pos == |input.buf|
    ensures |input.Unread()| <= |old(input.Unread())| && |back| <= |old(input.Unread())|
  {
    ghost var s, from := input.Unread(), input.pos;
    line := input.GetLine('\r');
    back := input.buf[input.pos - |line|..];
    LineTook(input.buf, from, input.pos, line, input.Unread(), back);
    Decided(s, line, input.Unread(), back, max);
  }

  /** One turn of the loop, and what follows it when the loop ends. */
  method TakeLine(input: Input, max: Option<nat>) returns (t: Turn)
    requires input.Valid() && input.Good()
    modifies input
    ensures input.Valid() && input.buf == old(input.buf) && t.rest == input.Unread()
    ensures t == TurnOf(old(input.Unread()), max)
    ensures t == Stop(TooLong, t.rest) || input.Good()
    ensures |t.rest| + (if t.Line? then 1 else 0) <= |old(input.Unread())|
  {
    var line, back := Text(input, max);
    if !input.fail && |line| > 0 {
      if Exceeds(|line|, max) {
        return Stop(TooLong, input.Unread());
      }
      var c := input.Peek();
      if c == Some('\n') {
        input.Ignore();
        input.Clear();
        return Line(line, input.Unread());
      }
    } else {
      input.Clear();
      var c := input.Peek();
      if c == Some('\n') {
        input.Ignore();
        return Stop(Done, input.Unread());
      }
    }
    input.Clear();
    input.SeekBack(|line|);
    return Stop(NeedMore, input.Unread());
  }

  /** `operator>>`: TooLong stands for the exception. Calls begin, and unless it throws end, with the
      stream's flags clear. */
  method Extract(input: Input, hdrs: array<string>, max: Option<nat>) returns (v: Verdict)
    requires input.Valid() && input.Good() && hdrs.Length == NUM_SLOTS
    modifies input, hdrs
    ensures input.Valid() && input.buf == old(input.buf)
    ensures Parsed(v, hdrs[..], input.Unread()) == Parse(old(input.Unread()), old(hdrs[..]), max)
    ensures v != TooLong ==> input.Good()
  {
    ghost var whole := Parse(input.Unread(), hdrs[..], max);
    ParseTurn(input.Unread(), hdrs[..], max);
    var t := TakeLine(input, max);
    while t.Line?
      invariant input.Valid() && input.buf == old(input.buf) && t.rest == input.Unread()
      invariant t == Stop(TooLong, t.rest) || input.Good()
      invariant AfterTurn(t, hdrs[..], max) == whole
      decreases |t.rest|, if t.Line? then 1 else 0
    {
      StoreLine(hdrs, t.line);
      ParseTurn(input.Unread(), hdrs[..], max);
      t := TakeLine(input, max);
    }
    return t.verdict;
  }

  /** Puts a line into its slot; lines for no known header are ignored. */
  method StoreLine(hdrs: array<string>, line: string)
    requires hdrs.Length == NUM_SLOTS
    modifies hdrs
    ensures hdrs[..] == Store(old(hdrs[..]), line)
  {
    SlotInRange(line);
    if Contains(line, HTTP_VERSION) {
      hdrs[REQLN] := line;
    } else {
      var r, _ := ReadHeader(line);
      if r.Found? {
        hdrs[r.h] := line;
      }
    }
  }

  /** `operator<<`. */
  method Insert(hdrs: array<string>) returns (o: string)
    requires hdrs.Length == NUM_SLOTS
    ensures o == Print(hdrs[..])
  {
    o := "";
    for h := NUM_SLOTS downto 0
      invariant o + PrintFrom(hdrs[..], h) == Print(hdrs[..])
    {
      if hdrs[h] != "" {
        o := o + hdrs[h] + CRLF;
      }
    }
    o := o + CRLF;
  }
}
