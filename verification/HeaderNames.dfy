/** Header names (src/HTTP_constants.cpp, data/HTTP_headers.def): printed with hyphens, read back with
    hyphens or underscores and with white space around them. */
module HeaderNames {
  import opened Wrappers

  const NUM_HEADER: nat := 47

  /** The names in the order of the enumeration. */
  function Name(h: nat): string
    requires h < NUM_HEADER
  {
    match h
    case 0 => "Accept"
    case 1 => "Accept_Charset"
    case 2 => "Accept_Encoding"
    case 3 => "Accept_Language"
    case 4 => "Accept_Ranges"
    case 5 => "Age"
    case 6 => "Allow"
    case 7 => "Authorization"
    case 8 => "Cache_Control"
    case 9 => "Connection"
    case 10 => "Content_Encoding"
    case 11 => "Content_Language"
    case 12 => "Content_Length"
    case 13 => "Content_Location"
    case 14 => "Content_MD5"
    case 15 => "Content_Range"
    case 16 => "Content_Type"
    case 17 => "Date"
    case 18 => "ETag"
    case 19 => "Expect"
    case 20 => "Expires"
    case 21 => "From"
    case 22 => "Host"
    case 23 => "If_Match"
    case 24 => "If_Modified_Since"
    case 25 => "If_None_Match"
    case 26 => "If_Range"
    case 27 => "If_Unmodified_Since"
    case 28 => "Last_Modified"
    case 29 => "Location"
    case 30 => "Max_Forwards"
    case 31 => "Pragma"
    case 32 => "Proxy_Authenticate"
    case 33 => "Proxy_Authorization"
    case 34 => "Range"
    case 35 => "Referer"
    case 36 => "Retry_After"
    case 37 => "Server"
    case 38 => "TE"
    case 39 => "Trailer"
    case 40 => "Transfer_Encoding"
    case 41 => "Upgrade"
    case 42 => "User_Agent"
    case 43 => "Vary"
    case 44 => "Via"
    case 45 => "Warning"
    case _ => "WWW_Authenticate"
  }

  function Underscored(s: string): string {
    seq(|s|, i requires 0 <= i < |s| => if s[i] == '-' then '_' else s[i])
  }

  function Hyphenated(s: string): string {
    seq(|s|, i requires 0 <= i < |s| => if s[i] == '_' then '-' else s[i])
  }

  /** `isspace` in the C locale. */
  predicate IsSpace(c: char) {
    c == ' ' || ('\t' <= c <= '\r')
  }

  /** Space, tab, line feed, vertical tab, form feed, carriage return. */
  lemma SpacesAre(c: char)
    ensures IsSpace(c) <==> c == ' ' || c == '\t' || c == '\n' || c == 11 as char || c == 12 as char || c == '\r'
  {
  }

  ghost predicate Blank(s: string) { forall c <- s :: IsSpace(c) }

  /** Where c first occurs in s, or |s|. */
  function IndexOf(s: string, c: char): (i: nat)
    ensures i <= |s| && c !in s[..i] && (i < |s| ==> s[i] == c)
  {
    if s == "" || s[0] == c then 0 else 1 + IndexOf(s[1..], c)
  }

  function TrimLeft(s: string): string {
    if s != "" && IsSpace(s[0]) then TrimLeft(s[1..]) else s
  }

  function TrimRight(s: string): string {
    if s != "" && IsSpace(s[|s| - 1]) then TrimRight(s[..|s| - 1]) else s
  }

  /** The first header from the j-th on with this name. */
  function Lookup(s: string, j: nat): Option<nat>
    decreases NUM_HEADER - j
  {
    if j >= NUM_HEADER then None
    else if s == Name(j) then Some(j)
    else Lookup(s, j + 1)
  }

  /** The header a line is for: the part before its first colon, underscored and trimmed. */
  function HeaderOf(line: string): Option<nat> {
    var i := IndexOf(line, ':');
    if i == |line| then None else Lookup(TrimLeft(TrimRight(Underscored(line[..i]))), 0)
  }

  /** What is printed before a header's value. */
  function Printed(h: nat): string
    requires h < NUM_HEADER
  {
    Hyphenated(Name(h)) + ": "
  }

  // ---------- the names are told apart ----------

  predicate PlainChar(c: char) { c != '-' && c != ':' && !IsSpace(c) }

  ghost predicate Plain(s: string) { s != "" && forall i :: 0 <= i < |s| ==> PlainChar(s[i]) }

  /** The first letter, the last letter and the length of a name. */
  function Signature(s: string): nat
    requires s != ""
  {
    s[0] as nat * 1000000 + s[|s| - 1] as nat * 1000 + |s|
  }

  /** The header with this signature. */
  function WithSignature(n: nat): nat {
    match n
    case 65116006 => 0
    case 65116014 => 1
    case 65103015 => 2
    case 65101015 => 3
    case 65115013 => 4
    case 65101003 => 5
    case 65119005 => 6
    case 65110013 => 7
    case 67108013 => 8
    case 67110010 => 9
    case 67103016 => 10
    case 67101016 => 11
    case 67104014 => 12
    case 67110016 => 13
    case 67053011 => 14
    case 67101013 => 15
    case 67101012 => 16
    case 68101004 => 17
    case 69103004 => 18
    case 69116006 => 19
    case 69115007 => 20
    case 70109004 => 21
    case 72116004 => 22
    case 73104008 => 23
    case 73101017 => 24
    case 73104013 => 25
    case 73101008 => 26
    case 73101019 => 27
    case 76100013 => 28
    case 76110008 => 29
    case 77115012 => 30
    case 80097006 => 31
    case 80101018 => 32
    case 80110019 => 33
    case 82101005 => 34
    case 82114007 => 35
    case 82114011 => 36
    case 83114006 => 37
    case 84069002 => 38
    case 84114007 => 39
    case 84103017 => 40
    case 85101007 => 41
    case 85116010 => 42
    case 86121004 => 43
    case 86097003 => 44
    case 87103007 => 45
    case 87101016 => 46
    case _ => NUM_HEADER
  }

  /** A name has no hyphen, colon or white space, and no other header has its signature. */
  ghost predicate Told(h: nat)
    requires h < NUM_HEADER
  {
    Plain(Name(h)) && WithSignature(Signature(Name(h))) == h
  }

  lemma Names0(h: nat)
    requires 0 <= h < 4
    ensures Told(h)
  {
  }

  lemma Names4(h: nat)
    requires 4 <= h < 8
    ensures Told(h)
  {
  }

  lemma Names8(h: nat)
    requires 8 <= h < 12
    ensures Told(h)
  {
  }

  lemma Names12(h: nat)
    requires 12 <= h < 16
    ensures Told(h)
  {
  }

  lemma Names16(h: nat)
    requires 16 <= h < 20
    ensures Told(h)
  {
  }

  lemma Names20(h: nat)
    requires 20 <= h < 24
    ensures Told(h)
  {
  }

  lemma Names24(h: nat)
    requires 24 <= h < 28
    ensures Told(h)
  {
  }

  lemma Names28(h: nat)
    requires 28 <= h < 32
    ensures Told(h)
  {
  }

  lemma Names32(h: nat)
    requires 32 <= h < 36
    ensures Told(h)
  {
  }

  lemma Names36(h: nat)
    requires 36 <= h < 40
    ensures Told(h)
  {
  }

  lemma Names40(h: nat)
    requires 40 <= h < 44
    ensures Told(h)
  {
  }

  lemma Names44(h: nat)
    requires 44 <= h < 47
    ensures Told(h)
  {
  }

  lemma NamePlain(h: nat)
    requires h < NUM_HEADER
    ensures Told(h)
  {
    if h < 4 { Names0(h); }
    else if h < 8 { Names4(h); }
    else if h < 12 { Names8(h); }
    else if h < 16 { Names12(h); }
    else if h < 20 { Names16(h); }
    else if h < 24 { Names20(h); }
    else if h < 28 { Names24(h); }
    else if h < 32 { Names28(h); }
    else if h < 36 { Names32(h); }
    else if h < 40 { Names36(h); }
    else if h < 44 { Names40(h); }
    else { Names44(h); }
  }

  /** No two headers have the same name. */
  lemma NamesDistinct(h: nat, k: nat)
    requires h < NUM_HEADER && k < NUM_HEADER && Name(h) == Name(k)
    ensures h == k
  {
    NamePlain(h);
    NamePlain(k);
  }

  // ---------- reading a name back ----------

  lemma {:induction false} LookupFrom(s: string, j: nat)
    ensures Lookup(s, j).Some? ==> Lookup(s, j).value >= j
    decreases NUM_HEADER - j
  {
    if j < NUM_HEADER { LookupFrom(s, j + 1); }
  }

  lemma {:induction false} LookupFinds(s: string, j: nat, h: nat)
    requires j <= h < NUM_HEADER
    ensures s == Name(h) ==> Lookup(s, j) == Some(h)
    ensures Lookup(s, j) == Some(h) ==> s == Name(h)
    decreases NUM_HEADER - j
  {
    if s == Name(j) {
      if s == Name(h) { NamesDistinct(j, h); }
    } else if j < h {
      LookupFinds(s, j + 1, h);
    } else {
      LookupFrom(s, j + 1);
    }
  }

  lemma {:induction false} TrimRightDrops(s: string, sp: string)
    requires Blank(sp) && (s != "" ==> !IsSpace(s[|s| - 1]))
    ensures TrimRight(s + sp) == s
  {
    if sp == "" {
      assert s + sp == s;
    } else {
      assert (s + sp)[..|s + sp| - 1] == s + sp[..|sp| - 1];
      TrimRightDrops(s, sp[..|sp| - 1]);
    }
  }

  lemma {:induction false} TrimLeftDrops(sp: string, s: string)
    requires Blank(sp) && (s != "" ==> !IsSpace(s[0]))
    ensures TrimLeft(sp + s) == s
  {
    if sp == "" {
      assert sp + s == s;
    } else {
      assert (sp + s)[1..] == sp[1..] + s;
      TrimLeftDrops(sp[1..], s);
    }
  }

  /** Trimming takes a blank part off each end and nothing else. */
  lemma {:induction false} TrimRightSplit(s: string) returns (sp: string)
    ensures s == TrimRight(s) + sp && Blank(sp)
  {
    if s != "" && IsSpace(s[|s| - 1]) {
      sp := TrimRightSplit(s[..|s| - 1]);
      sp := sp + [s[|s| - 1]];
    } else {
      sp := "";
    }
  }

  lemma {:induction false} TrimLeftSplit(s: string) returns (sp: string)
    ensures s == sp + TrimLeft(s) && Blank(sp)
  {
    if s != "" && IsSpace(s[0]) {
      sp := TrimLeftSplit(s[1..]);
      sp := [s[0]] + sp;
    } else {
      sp := "";
    }
  }

  /** Exactly which lines are for header h: white space, the name with a hyphen or an underscore at each
      underscore of the table, white space, a colon, anything. */
  ghost predicate Spells(line: string, h: nat, before: string, name: string, behind: string, value: string)
    requires h < NUM_HEADER
  {
    && line == before + name + behind + ":" + value
    && Blank(before) && Blank(behind) && Underscored(name) == Name(h)
  }

  lemma {:induction false} IndexIs(s: string, i: nat, c: char)
    requires i < |s| && s[i] == c && c !in s[..i]
    ensures IndexOf(s, c) == i
  {
    if i > 0 {
      assert s[..i][0] == s[0] && s[1..][..i - 1] == s[..i][1..];
      IndexIs(s[1..], i - 1, c);
    }
  }

  lemma ColonAt(head: string, value: string)
    requires ':' !in head
    ensures IndexOf(head + ":" + value, ':') == |head|
  {
    var line := head + ":" + value;
    assert line[|head|] == ':' && line[..|head|] == head;
    IndexIs(line, |head|, ':');
  }

  lemma UnderscoredParts(a: string, b: string, c: string)
    ensures Underscored(a + b + c) == Underscored(a) + Underscored(b) + Underscored(c)
  {
  }

  lemma UnderscoredBlank(sp: string)
    requires Blank(sp) || Blank(Underscored(sp))
    ensures Underscored(sp) == sp && ':' !in sp
  {
    forall i | 0 <= i < |sp| ensures Underscored(sp)[i] == sp[i] && sp[i] != ':' {
      assert sp[i] in sp && Underscored(sp)[i] in Underscored(sp);
    }
  }

  lemma NoColon(name: string, h: nat)
    requires h < NUM_HEADER && Underscored(name) == Name(h)
    ensures ':' !in name
  {
    NamePlain(h);
    forall i | 0 <= i < |name| ensures name[i] != ':' { assert Underscored(name)[i] == Name(h)[i]; }
  }

  lemma SpelledIsRead(line: string, h: nat, before: string, name: string, behind: string, value: string)
    requires h < NUM_HEADER && Spells(line, h, before, name, behind, value)
    ensures HeaderOf(line) == Some(h)
  {
    var head := before + name + behind;
    NamePlain(h);
    NoColon(name, h);
    UnderscoredBlank(before);
    UnderscoredBlank(behind);
    UnderscoredParts(before, name, behind);
    ColonAt(head, value);
    assert line[..|head|] == head;
    TrimRightDrops(before + Name(h), behind);
    TrimLeftDrops(before, Name(h));
    LookupFinds(Name(h), 0, h);
  }

  lemma UnderscoredSlice(s: string, i: nat, j: nat)
    requires i <= j <= |s|
    ensures Underscored(s[i..j]) == Underscored(s)[i..j]
  {
  }

  lemma ThreeParts(s: string, a: string, b: string, c: string)
    requires s == a + b + c
    ensures s[0..|a|] == a && s[|a|..|a + b|] == b && s[|a + b|..|s|] == c
  {
  }

  lemma Reassembled(line: string, i: nat, j: nat, k: nat)
    requires j <= k <= i < |line| && line[i] == ':'
    ensures line == line[0..j] + line[j..k] + line[k..i] + ":" + line[i + 1..]
  {
  }

  lemma SplitBeforeColon(line: string, i: nat, spL: string, n: string, spR: string)
    returns (before: string, name: string, behind: string, value: string)
    requires i < |line| && line[i] == ':' && Underscored(line[..i]) == spL + n + spR
    requires Blank(spL) && Blank(spR)
    ensures line == before + name + behind + ":" + value
    ensures Blank(before) && Blank(behind) && Underscored(name) == n
  {
    var u := Underscored(line[..i]);
    ThreeParts(u, spL, n, spR);
    var j, k := |spL|, |spL + n|;
    before, name, behind, value := line[0..j], line[j..k], line[k..i], line[i + 1..];
    Reassembled(line, i, j, k);
    assert line[..i][0..j] == before && line[..i][j..k] == name && line[..i][k..i] == behind;
    UnderscoredSlice(line[..i], 0, j);
    UnderscoredSlice(line[..i], j, k);
    UnderscoredSlice(line[..i], k, i);
    UnderscoredBlank(before);
    UnderscoredBlank(behind);
  }

  lemma ReadIsSpelled(line: string, h: nat) returns (before: string, name: string, behind: string, value: string)
    requires h < NUM_HEADER && HeaderOf(line) == Some(h)
    ensures Spells(line, h, before, name, behind, value)
  {
    var i := IndexOf(line, ':');
    var u := Underscored(line[..i]);
    var spR := TrimRightSplit(u);
    var spL := TrimLeftSplit(TrimRight(u));
    LookupFinds(TrimLeft(TrimRight(u)), 0, h);
    before, name, behind, value := SplitBeforeColon(line, i, spL, Name(h), spR);
  }

  /** The parser and the printer of names are inverse: for every header and value. */
  lemma PrintedIsRead(h: nat, value: string)
    requires h < NUM_HEADER
    ensures HeaderOf(Printed(h) + value) == Some(h)
  {
    NamePlain(h);
    var name := Hyphenated(Name(h));
    assert Underscored(name) == Name(h);
    assert Printed(h) + value == "" + name + "" + ":" + (" " + value);
    SpelledIsRead(Printed(h) + value, h, "", name, "", " " + value);
  }

  /** A line is read as header h exactly when it spells h. */
  lemma ReadIffSpelled(line: string, h: nat)
    requires h < NUM_HEADER
    ensures HeaderOf(line) == Some(h) <==>
      exists before, name, behind, value :: Spells(line, h, before, name, behind, value)
  {
    if HeaderOf(line) == Some(h) {
      var before, name, behind, value := ReadIsSpelled(line, h);
    } else {
      forall before, name, behind, value | Spells(line, h, before, name, behind, value) ensures false {
        SpelledIsRead(line, h, before, name, behind, value);
      }
    }
  }

  lemma NotBlank(u: string, start: nat, k: nat)
    requires start <= |u| && k < |u| && Blank(u[..start]) && !IsSpace(u[k])
    ensures start <= k
  {
    assert forall i :: 0 <= i < start ==> u[i] in u[..start];
  }

  lemma Trimmed(u: string, start: nat, end: nat)
    requires start < end <= |u| && Blank(u[..start]) && Blank(u[end..])
    requires !IsSpace(u[start]) && !IsSpace(u[end - 1])
    ensures TrimLeft(TrimRight(u)) == u[start..end]
  {
    BackTrimmed(u, end);
    CutTwice(u, start, end);
    FrontTrimmed(u[..end], start);
  }

  lemma CutTwice(u: string, start: nat, end: nat)
    requires start < end <= |u|
    ensures u[..end][start..] == u[start..end] && u[..end][..start] == u[..start] && u[..end][start] == u[start]
  {
  }

  lemma BackTrimmed(u: string, end: nat)
    requires 0 < end <= |u| && Blank(u[end..]) && !IsSpace(u[end - 1])
    ensures TrimRight(u) == u[..end]
  {
    assert u == u[..end] + u[end..];
    TrimRightDrops(u[..end], u[end..]);
  }

  lemma FrontTrimmed(front: string, start: nat)
    requires start < |front| && Blank(front[..start]) && !IsSpace(front[start])
    ensures TrimLeft(front) == front[start..]
  {
    assert front == front[..start] + front[start..];
    TrimLeftDrops(front[..start], front[start..]);
  }

  /** The loop that replaces hyphens. */
  method UnderscoreInPlace(tmp: array<char>)
    modifies tmp
    ensures tmp[..] == Underscored(old(tmp[..]))
  {
    ghost var line, u := tmp[..], Underscored(tmp[..]);
    var hyphen := IndexOf(tmp[..], '-');
    assert forall i :: 0 <= i < hyphen ==> tmp[i] in tmp[..][..hyphen];
    while hyphen < tmp.Length
      invariant hyphen <= tmp.Length && forall i :: 0 <= i < hyphen ==> tmp[i] == u[i]
      invariant forall i :: hyphen <= i < tmp.Length ==> tmp[i] == line[i]
      invariant hyphen < tmp.Length ==> tmp[hyphen] == '-'
    {
      tmp[hyphen] := '_';
      var next := IndexOf(tmp[hyphen + 1..], '-');
      assert forall i :: hyphen < i < hyphen + 1 + next ==> tmp[i] in tmp[hyphen + 1..][..next];
      hyphen := hyphen + 1 + next;
    }
  }

  // ---------- where the scans for white space read ----------

  /** The scan from the left, which tests no end: the first character from `start` on that is not white
      space, or None if the scan leaves the string. */
  function ScanLeft(s: string, start: nat): Option<nat>
    requires start <= |s|
    decreases |s| - start
  {
    if start == |s| then None
    else if IsSpace(s[start]) then ScanLeft(s, start + 1)
    else Some(start)
  }

  /** The scan to the left from the character before `end`. */
  function ScanRight(s: string, end: nat): Option<nat>
    requires end <= |s|
  {
    if end == 0 then None
    else if IsSpace(s[end - 1]) then ScanRight(s, end - 1)
    else Some(end - 1)
  }

  predicate ScansInside(s: string) { ScanLeft(s, 0).Some? && ScanRight(s, |s|).Some? }

  lemma {:induction false} LeftScanned(s: string, start: nat)
    requires start <= |s| && Blank(s[..start])
    ensures match ScanLeft(s, start)
      case None => Blank(s)
      case Some(i) => i < |s| && Blank(s[..i]) && !IsSpace(s[i])
    decreases |s| - start
  {
    if start == |s| {
      assert s[..start] == s;
    } else if IsSpace(s[start]) {
      assert s[..start + 1] == s[..start] + [s[start]];
      LeftScanned(s, start + 1);
    }
  }

  lemma {:induction false} RightScanned(s: string, end: nat)
    requires end <= |s| && Blank(s[end..])
    ensures match ScanRight(s, end)
      case None => Blank(s)
      case Some(i) => i < |s| && Blank(s[i + 1..]) && !IsSpace(s[i])
  {
    if end == 0 {
      assert s[end..] == s;
    } else if IsSpace(s[end - 1]) {
      assert s[end - 1..] == [s[end - 1]] + s[end..];
      RightScanned(s, end - 1);
    }
  }

  /** Both scans stay inside the string exactly if something in it is not white space; what lies between
      them is then the trimmed string. */
  lemma ScansInsideIff(s: string)
    ensures ScansInside(s) <==> !Blank(s)
    ensures ScansInside(s) ==> Between(s, ScanLeft(s, 0).value, ScanRight(s, |s|).value)
  {
    LeftScanned(s, 0);
    RightScanned(s, |s|);
    if ScansInside(s) {
      var start, end := ScanLeft(s, 0).value, ScanRight(s, |s|).value;
      assert s[start] in s;
      NotBlank(s, start, end);
      Trimmed(s, start, end + 1);
    }
  }

  predicate Between(s: string, start: nat, end: nat) {
    start <= end < |s| && s[start..end + 1] == TrimLeft(TrimRight(s))
  }

  /** Reading the name of a line stays inside the name. */
  predicate LineScansInside(line: string) {
    var i := IndexOf(line, ':');
    i == |line| || ScansInside(Underscored(line[..i]))
  }

  ghost predicate Nameless(line: string, sp: string, value: string) { Blank(sp) && line == sp + ":" + value }

  /** It does exactly if the line has no colon or something that is not white space before the first. */
  lemma LineScansInsideIff(line: string)
    ensures LineScansInside(line) <==> !exists sp, value :: Nameless(line, sp, value)
  {
    var i := IndexOf(line, ':');
    if i < |line| {
      ScansInsideIff(Underscored(line[..i]));
      if Blank(Underscored(line[..i])) {
        UnderscoredBlank(line[..i]);
        assert line == line[..i] + ":" + line[i + 1..];
        assert Nameless(line, line[..i], line[i + 1..]);
      }
    }
    forall sp, value | Nameless(line, sp, value) ensures !LineScansInside(line) {
      UnderscoredBlank(sp);
      ColonAt(sp, value);
      assert line[..|sp|] == sp;
      ScansInsideIff(sp);
    }
  }

  /** A client can send such lines. */
  lemma ColonAlone()
    ensures !LineScansInside(":") && !LineScansInside(" :")
  {
    assert Nameless(":", "", "") && Nameless(" :", " ", "");
    LineScansInsideIff(":");
    LineScansInsideIff(" :");
  }

  lemma NamelessIsNoHeader(line: string)
    requires !LineScansInside(line)
    ensures HeaderOf(line) == None
  {
    var u := Underscored(line[..IndexOf(line, ':')]);
    ScansInsideIff(u);
    TrimRightDrops("", u);
    assert "" + u == u;
    NoEmptyName(0);
  }

  lemma {:induction false} NoEmptyName(j: nat)
    ensures Lookup("", j) == None
    decreases NUM_HEADER - j
  {
    if j < NUM_HEADER {
      NamePlain(j);
      NoEmptyName(j + 1);
    }
  }

  /** The two scans for white space, and `substr`. None if a scan leaves the string, which C++ leaves
      undefined. */
  method TrimScan(tmp: array<char>) returns (name: Option<string>)
    ensures name.Some? <==> ScansInside(tmp[..])
    ensures name.Some? ==> name.value == TrimLeft(TrimRight(tmp[..]))
  {
    var start, end := 0, tmp.Length;
    ScansInsideIff(tmp[..]);
    while start < tmp.Length && IsSpace(tmp[start])
      invariant start <= tmp.Length && ScanLeft(tmp[..], start) == ScanLeft(tmp[..], 0)
    {
      start := start + 1;
    }
    if start == tmp.Length {
      return None;
    }
    while 0 < end && IsSpace(tmp[end - 1])
      invariant 0 <= end <= tmp.Length && ScanRight(tmp[..], end) == ScanRight(tmp[..], tmp.Length)
    {
      end := end - 1;
    }
    if end == 0 {
      return None;
    }
    name := Some(tmp[start..end]);
    assert tmp[..][start..end] == tmp[start..end];
  }

  /** The search through `header_strs`. */
  method FindName(name: string) returns (h: Option<nat>)
    ensures h == Lookup(name, 0)
  {
    for j := 0 to NUM_HEADER
      invariant Lookup(name, 0) == Lookup(name, j)
    {
      if name == Name(j) {
        return Some(j);
      }
    }
    return None;
  }

  /** Found, or the exception, or a scan that leaves the string. */
  datatype NameRead = Found(h: nat) | Refused | Outside

  /** `operator>>` for header names. The rest of the line stays in the stream. */
  method ReadHeader(line: string) returns (r: NameRead, rest: string)
    ensures r.Outside? <==> !LineScansInside(line)
    ensures HeaderOf(line) == if r.Found? then Some(r.h) else None
    ensures r.Found? ==> rest == line[IndexOf(line, ':') + 1..]
  {
    var colon := IndexOf(line, ':');
    if colon == |line| {
      return Refused, "";
    }
    rest := line[colon + 1..];
    var tmp := new char[colon](i requires 0 <= i < colon <= |line| => line[i]);
    assert tmp[..] == line[..colon];
    UnderscoreInPlace(tmp);
    var name := TrimScan(tmp);
    if name.None? {
      NamelessIsNoHeader(line);
      return Outside, rest;
    }
    var h := FindName(name.value);
    r := if h.Some? then Found(h.value) else Refused;
  }

  /** The loop that prints hyphens for underscores. */
  method PrintHyphenated(tmp: string) returns (o: string)
    ensures o == Hyphenated(tmp)
  {
    o := "";
    for i := 0 to |tmp|
      invariant o == Hyphenated(tmp)[..i]
    {
      o := o + [if tmp[i] == '_' then '-' else tmp[i]];
    }
  }

  /** `operator<<` for header names. */
  method PrintHeader(h: nat) returns (o: string)
    requires h < NUM_HEADER
    ensures o == Printed(h)
  {
    o := PrintHyphenated(Name(h));
    o := o + ": ";
  }
}
