/** The configuration file: lines, "key = value" pairs and comma-separated lists. */
module Conf {
  import opened Bytes

  const TAB: byte := 9
  const RETURN: byte := 13
  const SPACE: byte := 32
  const HASH: byte := 35
  const COMMA: byte := 44
  const EQUALS: byte := 61
  const STEP: nat := 128

  type Text = seq<byte>

  // ---- lines ----

  /** Up to and including the first newline. */
  function FirstLine(s: Text): (line: Text)
    ensures line <= s && (s != [] ==> line != [])
  {
    if s == [] then [] else if s[0] == NEWLINE then [NEWLINE] else [s[0]] + FirstLine(s[1..])
  }

  lemma {:induction false} FirstLineGrows(s: Text, n: nat)
    requires n < |s| && NEWLINE !in s[..n]
    ensures s[n] == NEWLINE ==> FirstLine(s) == s[..n + 1]
    ensures n + 1 == |s| ==> FirstLine(s) == s
  {
    if n > 0 {
      assert s[..n][0] == s[0];
      assert s[1..][..n - 1] == s[..n][1..];
      FirstLineGrows(s[1..], n - 1);
    }
  }

  class Reader {
    var left: Text               // what the stream still holds

    constructor (file: Text)
      ensures left == file
    {
      left := file;
    }

    method Grow(line: array<byte>, used: nat) returns (larger: array<byte>)
      requires used <= line.Length
      ensures fresh(larger) && larger.Length == line.Length + STEP && larger[..used] == line[..used]
    {
      larger := new byte[line.Length + STEP](_ => 0);
      for i := 0 to used
        invariant larger[..i] == line[..i]
      {
        larger[i] := line[i];
      }
    }

    /** Add a character, with room for one more behind it. */
    method Push(line: array<byte>, used: nat, c: byte) returns (r: array<byte>)
      requires used < line.Length
      modifies line
      ensures r == line || fresh(r)
      ensures used + 1 < r.Length && r[..used + 1] == old(line[..used]) + [c]
    {
      r := line;
      if used + 1 >= r.Length { r := Grow(r, used); }
      r[used] := c;
    }

    /** Read one line into a buffer that grows as needed; the line is followed by a zero in bounds. */
    method ReadLine(buff: array?<byte>) returns (soFar: nat, line: array<byte>)
      modifies this, buff
      ensures line == buff || fresh(line)
      ensures soFar < line.Length && line[soFar] == 0
      ensures line[..soFar] == FirstLine(old(left)) && old(left) == line[..soFar] + left
    {
      if buff == null || buff.Length == 0 {
        line := new byte[STEP](_ => 0);
      } else {
        line := buff;
      }
      ghost var s := left;
      soFar := 0;
      var done := false;
      while left != [] && !done
        invariant 0 < line.Length && soFar < line.Length && (line == buff || fresh(line))
        invariant soFar <= |s| && left == s[soFar..] && line[..soFar] == s[..soFar]
        invariant if done then FirstLine(s) == s[..soFar] else NEWLINE !in s[..soFar]
        decreases |left|
      {
        var temp := left[0];
        left := left[1..];
        line := Push(line, soFar, temp);
        FirstLineGrows(s, soFar);
        assert s[..soFar + 1] == s[..soFar] + [temp];
        soFar := soFar + 1;
        if temp == NEWLINE { done := true; }
      }
      assert !done ==> s[..soFar] == s;
      if !done && s != [] { FirstLineGrows(s, |s| - 1); }
      line[soFar] := 0;
    }

    /** Read every line. */
    method ReadAll() returns (lines: seq<Text>)
      modifies this
      ensures Concat(lines) == old(left) && left == []
      ensures forall i | 0 <= i < |lines| :: lines[i] != [] && FirstLine(lines[i]) == lines[i]
    {
      lines := [];
      var more := true;
      while more
        invariant Concat(lines) + left == old(left) && (!more ==> left == [])
        invariant forall i | 0 <= i < |lines| :: lines[i] != [] && FirstLine(lines[i]) == lines[i]
        decreases |left|, more
      {
        ghost var s := left;
        var n, line := ReadLine(null);
        if n == 0 {
          more := false;
        } else {
          FirstLineIdempotent(s);
          ConcatAppend(lines, line[..n]);
          lines := lines + [line[..n]];
        }
      }
    }
  }

  lemma {:induction false} FirstLineIdempotent(s: Text)
    ensures FirstLine(FirstLine(s)) == FirstLine(s)
  {
    if s != [] && s[0] != NEWLINE { FirstLineIdempotent(s[1..]); }
  }

  // ---- pairs ----

  predicate Blank(c: byte) { c == SPACE || c == TAB }

  predicate White(c: byte) { Blank(c) || c == NEWLINE || c == RETURN }

  /** What is trimmed: blanks inside a line, and line ends too at its ends. */
  predicate Pads(c: byte, ends: bool) { if ends then White(c) else Blank(c) }

  predicate Padding(s: Text, ends: bool) { forall i | 0 <= i < |s| :: Pads(s[i], ends) }

  function DropFront(s: Text, ends: bool): Text {
    if s != [] && Pads(s[0], ends) then DropFront(s[1..], ends) else s
  }

  function DropBack(s: Text, ends: bool): (t: Text)
    ensures t <= s
  {
    if s != [] && Pads(s[|s| - 1], ends) then DropBack(s[..|s| - 1], ends) else s
  }

  datatype Line = Ignored | Pair(key: Text, val: Text)

  /** The pair on a line. */
  function Parse(line: Text): Line {
    var s := DropFront(line, true);
    if s == [] || s[0] == HASH || s[0] == EQUALS then Ignored else
      var k := Find(s, EQUALS);
      if k == |s| then Ignored
      else Pair(DropBack(s[..k], false), DropBack(DropFront(s[k + 1..], false), true))
  }

  method SkipFront(line: Text, at: nat, ends: bool) returns (n: nat)
    requires at <= |line|
    ensures at <= n <= |line| && line[n..] == DropFront(line[at..], ends)
  {
    n := at;
    while n < |line| && Pads(line[n], ends)
      invariant at <= n <= |line| && DropFront(line[n..], ends) == DropFront(line[at..], ends)
    {
      assert line[n..][1..] == line[n + 1..];
      n := n + 1;
    }
  }

  method SkipTo(line: Text, at: nat, c: byte) returns (n: nat)
    requires at <= |line|
    ensures at + n <= |line| && n == Find(line[at..], c)
  {
    n := 0;
    ghost var s := line[at..];
    while at + n < |line| && line[at + n] != c
      invariant at + n <= |line| && c !in s[..n]
    {
      assert s[..n + 1] == s[..n] + [s[n]];
      n := n + 1;
    }
    FindFirst(s, c, n);
  }

  method TrimBack(line: Text, at: nat, len: nat, ends: bool) returns (n: nat)
    requires at + len <= |line|
    ensures n <= len && line[at..at + n] == DropBack(line[at..at + len], ends)
  {
    n := len;
    while n > 0 && Pads(line[at + n - 1], ends)
      invariant n <= len && DropBack(line[at..at + n], ends) == DropBack(line[at..at + len], ends)
    {
      assert line[at..at + n][..n - 1] == line[at..at + n - 1];
      n := n - 1;
    }
  }

  /** The same by moving indices over the characters, as the zero after the line allows. */
  method ParseLine(line: Text) returns (r: Line)
    ensures r == Parse(line)
  {
    hide DropFront, DropBack, Find;
    assert line[0..] == line;
    var key := SkipFront(line, 0, true);
    ghost var s := line[key..];
    if key == |line| || line[key] == HASH || line[key] == EQUALS { return Ignored; }
    var keyLen := SkipTo(line, key, EQUALS);
    if key + keyLen == |line| { return Ignored; }
    var val := key + keyLen + 1;
    assert s[..keyLen] == line[key..key + keyLen] && s[keyLen + 1..] == line[val..];
    keyLen := TrimBack(line, key, keyLen, false);
    val := SkipFront(line, val, false);
    assert line[val..] == line[val..val + (|line| - val)];
    var valLen := TrimBack(line, val, |line| - val, true);
    r := Pair(line[key..key + keyLen], line[val..val + valLen]);
  }

  /** A key as a file can hold it. */
  predicate ProperKey(key: Text) {
    key != [] && EQUALS !in key && key[0] != HASH && !White(key[0]) && !Blank(key[|key| - 1])
  }

  predicate ProperVal(val: Text) { val == [] || (!Blank(val[0]) && !White(val[|val| - 1])) }

  function Render(p1: Text, key: Text, p2: Text, p3: Text, val: Text, p4: Text): Text {
    p1 + (key + p2 + [EQUALS] + (p3 + (val + p4)))
  }

  lemma {:induction false} FrontPadding(pad: Text, s: Text, ends: bool)
    requires Padding(pad, ends)
    ensures DropFront(pad + s, ends) == DropFront(s, ends)
  {
    hide Pads;
    if pad == [] {
      assert pad + s == s;
    } else {
      assert (pad + s)[1..] == pad[1..] + s;
      FrontPadding(pad[1..], s, ends);
    }
  }

  lemma {:induction false} BackPadding(s: Text, pad: Text, ends: bool)
    requires Padding(pad, ends)
    ensures DropBack(s + pad, ends) == DropBack(s, ends)
  {
    hide Pads;
    if pad == [] {
      assert s + pad == s;
    } else {
      var last := |pad| - 1;
      assert (s + pad)[..|s| + last] == s + pad[..last];
      BackPadding(s, pad[..last], ends);
    }
  }

  lemma NothingToDrop(s: Text, ends: bool)
    ensures s == [] || !Pads(s[0], ends) ==> DropFront(s, ends) == s
    ensures s == [] || !Pads(s[|s| - 1], ends) ==> DropBack(s, ends) == s
  {
  }

  lemma ValueTrims(p3: Text, val: Text, p4: Text)
    requires Padding(p3, false) && ProperVal(val) && Padding(p4, true)
    ensures DropBack(DropFront(p3 + (val + p4), false), true) == val
  {
    hide DropFront, DropBack;
    FrontPadding(p3, val + p4, false);
    NothingToDrop(val, true);
    NothingToDrop(val + p4, false);
    if val == [] {
      assert val + p4 == p4;
      var t := DropFront(p4, false);
      var pad := FrontIsPadding(p4, false);
      assert forall i | 0 <= i < |t| :: t[i] == p4[|pad| + i];
      assert [] + t == t;
      BackPadding([], t, true);
    } else {
      BackPadding(val, p4, true);
    }
  }

  /** However a pair is padded, its line parses to that pair. */
  lemma RenderedParses(p1: Text, key: Text, p2: Text, p3: Text, val: Text, p4: Text)
    requires ProperKey(key) && ProperVal(val)
    requires Padding(p1, true) && Padding(p2, false) && Padding(p3, false) && Padding(p4, true)
    ensures Parse(Render(p1, key, p2, p3, val, p4)) == Pair(key, val)
  {
    hide DropFront, DropBack, Find, ProperVal, Padding;
    var front, rest := key + p2, p3 + (val + p4);
    var s := front + [EQUALS] + rest;
    FrontPadding(p1, s, true);
    NothingToDrop(s, true);
    NothingToDrop(key, false);
    PaddingIsNotEquals(p2);
    FindAfter(front, rest);
    BackPadding(key, p2, false);
    ValueTrims(p3, val, p4);
  }

  lemma PaddingIsNotEquals(pad: Text)
    requires Padding(pad, false)
    ensures EQUALS !in pad
  {
  }

  lemma FindAfter(front: Text, rest: Text)
    requires EQUALS !in front
    ensures var s := front + [EQUALS] + rest; var k := Find(s, EQUALS);
      k == |front| && s[..k] == front && s[k + 1..] == rest
  {
    hide Find;
    var s := front + [EQUALS] + rest;
    assert s[..|front|] == front;
    FindFirst(s, EQUALS, |front|);
  }

  lemma {:induction false} FrontIsPadding(s: Text, ends: bool) returns (pad: Text)
    ensures var t := DropFront(s, ends);
      s == pad + t && Padding(pad, ends) && (t != [] ==> !Pads(t[0], ends))
  {
    hide Pads;
    if s != [] && Pads(s[0], ends) {
      pad := FrontIsPadding(s[1..], ends);
      pad := [s[0]] + pad;
    } else {
      pad := [];
    }
  }

  lemma {:induction false} BackIsPadding(s: Text, ends: bool) returns (pad: Text)
    ensures var t := DropBack(s, ends);
      s == t + pad && Padding(pad, ends) && (t != [] ==> !Pads(t[|t| - 1], ends))
  {
    hide Pads;
    if s != [] && Pads(s[|s| - 1], ends) {
      pad := BackIsPadding(s[..|s| - 1], ends);
      pad := pad + [s[|s| - 1]];
    } else {
      pad := [];
    }
  }

  /** Conversely, a line that parses to a pair is that pair with padding. */
  lemma ParsedIsRendered(line: Text) returns (p1: Text, p2: Text, p3: Text, p4: Text)
    requires Parse(line).Pair?
    ensures Padding(p1, true) && Padding(p2, false) && Padding(p3, false) && Padding(p4, true)
    ensures ProperKey(Parse(line).key) && ProperVal(Parse(line).val)
    ensures line == Render(p1, Parse(line).key, p2, p3, Parse(line).val, p4)
  {
    hide DropFront, DropBack, Find, Padding;
    var s := DropFront(line, true);
    p1 := FrontIsPadding(line, true);
    var k := Find(s, EQUALS);
    p2 := KeyIsProper(s, k);
    var rest := s[k + 1..];
    p3, p4 := ValueIsProper(rest);
    var key, val := DropBack(s[..k], false), DropBack(DropFront(rest, false), true);
    assert Parse(line) == Pair(key, val);
    hide Parse, ProperKey, ProperVal;
    assert s == key + p2 + [EQUALS] + rest;
  }

  lemma KeyIsProper(s: Text, k: nat) returns (pad: Text)
    requires 0 < k <= |s| && EQUALS !in s[..k] && s[0] != HASH && !White(s[0])
    ensures Padding(pad, false)
    ensures var key := DropBack(s[..k], false); ProperKey(key) && s[..k] == key + pad
  {
    hide DropBack;
    var key := DropBack(s[..k], false);
    pad := BackIsPadding(s[..k], false);
    assert s[..k][0] == s[0];
    assert EQUALS !in key;
  }

  lemma ValueIsProper(rest: Text) returns (p3: Text, p4: Text)
    ensures Padding(p3, false) && Padding(p4, true)
    ensures var val := DropBack(DropFront(rest, false), true); ProperVal(val) && rest == p3 + (val + p4)
  {
    hide DropBack, DropFront;
    p3 := FrontIsPadding(rest, false);
    p4 := BackIsPadding(DropFront(rest, false), true);
  }

  /** What counts as padding, and what makes a line a comment or no pair at all, in ASCII. */
  lemma Characters(line: Text)
    ensures forall c: byte :: Pads(c, true) <==> c in {9, 10, 13, 32}
    ensures forall c: byte :: Pads(c, false) <==> c in {9, 32}
    ensures line != [] && line[0] == 35 ==> Parse(line).Ignored?
    ensures 61 !in line ==> Parse(line).Ignored?
  {
    hide Find;
    assert Pads(9, true) && Pads(10, true) && Pads(13, true) && Pads(32, true);
    if line != [] && line[0] == 35 { NothingToDrop(line, true); }
    if 61 !in line {
      var pad := FrontIsPadding(line, true);
      assert EQUALS !in DropFront(line, true);
    }
  }

  // ---- comma-separated lists ----

  const M16: nat := 0x1_0000

  /** The 16-bit count of entries: c commas and one, on top of the count there was. */
  function Counted(before: nat, c: nat): (n: nat)
    ensures n < M16
  {
    (before + c + 1) % M16
  }

  function Commas(s: Text): nat {
    if s == [] then 0 else (if s[0] == COMMA then 1 else 0) + Commas(s[1..])
  }

  /** The entries joined by commas. */
  function Join(entries: seq<Text>): Text {
    if entries == [] then [] else if |entries| == 1 then entries[0]
    else entries[0] + [COMMA] + Join(entries[1..])
  }

  /** What the filling pass makes of the text from a position on; past the end it finds nothing. */
  function Fill(s: Text, n: nat): (entries: seq<Text>)
    ensures |entries| == n
    decreases n
  {
    if n == 0 then [] else
      var k := Find(s, COMMA);
      [s[..k]] + Fill(if k < |s| then s[k + 1..] else [], n - 1)
  }

  class AddressList {
    var entries: seq<Text>
    var count: nat               // kept in 16 bits

    constructor ()
      ensures entries == [] && count == 0
    {
      entries, count := [], 0;
    }

    /** Count the commas after the first character on top of the count there was. */
    method CountEntries(val: Text) returns (n: nat)
      requires val != []
      ensures n == Counted(count, Commas(val[1..]))
    {
      n := count % M16;
      ghost var seen := 0;
      for i := 1 to |val|
        invariant n == (count + seen) % M16 && seen + Commas(val[i..]) == Commas(val[1..])
      {
        assert val[i..][1..] == val[i + 1..];
        if val[i] == COMMA {
          OneMore(count + seen);
          n := (n + 1) % M16;
          seen := seen + 1;
        }
      }
      OneMore(count + seen);
      n := (n + 1) % M16;
    }

    /** Set the list from a value. */
    method Set(val: Text)
      modifies this
      ensures val == [] ==> entries == [] && count == 0
      ensures val != [] ==> count == Counted(old(count), Commas(val[1..])) && entries == Fill(val, count)
    {
      hide Fill, Commas;
      if val == [] {
        entries, count := [], 0;
        return;
      }
      count := CountEntries(val);
      entries := FillEntries(val, count);
    }
  }

  lemma OneMore(a: nat)
    ensures (a % M16 + 1) % M16 == (a + 1) % M16
  {
  }

  /** The filling pass. */
  method FillEntries(val: Text, n: nat) returns (entries: seq<Text>)
    ensures entries == Fill(val, n)
  {
    hide Fill, Filling, EntryEnds, EntryAt;
    entries := [];
    var i: nat, j: nat := 0, 0;
    FillingStarts(val, n);
    while i < n
      invariant i <= n && Filling(entries, val, j, n - i, n)
    {
      var k := j;
      j := NextComma(val, k);
      FillingSteps(entries, val, k, j, n - i, n);
      entries := entries + [EntryAt(val, k, j)];
      j := j + 1;
      i := i + 1;
    }
    FillingEnds(entries, val, j, n);
  }

  /** Of n entries, all but m are done and the next begins at j. */
  ghost predicate Filling(entries: seq<Text>, val: Text, j: nat, m: nat, n: nat) {
    entries + Fill(From(val, j), m) == Fill(val, n)
  }

  lemma FillingStarts(val: Text, n: nat)
    ensures Filling([], val, 0, n, n)
  {
    hide Fill;
    assert From(val, 0) == val;
  }

  lemma FillingSteps(entries: seq<Text>, val: Text, k: nat, j: nat, m: nat, n: nat)
    requires m > 0 && Filling(entries, val, k, m, n) && EntryEnds(val, k, j)
    ensures Filling(entries + [EntryAt(val, k, j)], val, j + 1, m - 1, n)
  {
    hide Fill, EntryEnds, EntryAt, From;
    FillStep(val, k, j, m);
    Reassociate(entries, [EntryAt(val, k, j)], Fill(From(val, j + 1), m - 1));
  }

  lemma FillingEnds(entries: seq<Text>, val: Text, j: nat, n: nat)
    requires Filling(entries, val, j, 0, n)
    ensures entries == Fill(val, n)
  {
    assert Fill(From(val, j), 0) == [];
  }

  /** The entry at k ends at j. */
  predicate EntryEnds(val: Text, k: nat, j: nat) {
    if k < |val| then k <= j <= |val| && COMMA !in val[k..j] && (j < |val| ==> val[j] == COMMA) else j == k
  }

  function EntryAt(val: Text, k: nat, j: nat): Text { if k < |val| && k <= j <= |val| then val[k..j] else [] }

  method NextComma(val: Text, k: nat) returns (j: nat)
    ensures EntryEnds(val, k, j)
  {
    j := k;
    while j < |val| && val[j] != COMMA
      invariant if k < |val| then k <= j <= |val| && COMMA !in val[k..j] else j == k
    {
      assert val[k..j + 1] == val[k..j] + [val[j]];
      j := j + 1;
    }
  }

  function From(val: Text, j: nat): Text { if j <= |val| then val[j..] else [] }

  lemma FillStep(val: Text, k: nat, j: nat, n: nat)
    requires n > 0 && EntryEnds(val, k, j)
    ensures Fill(From(val, k), n) == [EntryAt(val, k, j)] + Fill(From(val, j + 1), n - 1)
  {
    hide Fill, Find, EntryEnds, From, EntryAt;
    FillNext(From(val, k), n - 1);
    EntryFound(val, k, j);
  }

  /** The entry that ends at j is the text before the first comma, and the rest lies behind it. */
  lemma EntryFound(val: Text, k: nat, j: nat)
    requires EntryEnds(val, k, j)
    ensures var s := From(val, k); var n := Find(s, COMMA);
      s[..n] == EntryAt(val, k, j) && (if n < |s| then s[n + 1..] else []) == From(val, j + 1)
  {
    hide Find;
    var s := From(val, k);
    if k < |val| {
      assert s[..j - k] == val[k..j];
      FindFirst(s, COMMA, j - k);
      if j < |val| { assert s[j - k + 1..] == val[j + 1..]; }
    }
  }

  lemma {:induction false} CommasAfter(a: Text, b: Text)
    ensures Commas(a + b) == Commas(a) + Commas(b)
  {
    if a == [] {
      assert a + b == b;
    } else {
      assert (a + b)[1..] == a[1..] + b;
      CommasAfter(a[1..], b);
    }
  }

  lemma {:induction false} NoCommas(s: Text)
    requires COMMA !in s
    ensures Commas(s) == 0
  {
    if s != [] { NoCommas(s[1..]); }
  }

  lemma CommasCut(front: Text, rest: Text)
    requires COMMA !in front
    ensures Commas(front + [COMMA] + rest) == 1 + Commas(rest)
  {
    var tail := [COMMA] + rest;
    assert tail[1..] == rest;
    assert Commas(tail) == 1 + Commas(rest);
    hide Commas;
    NoCommas(front);
    CommasAfter(front, tail);
    assert front + [COMMA] + rest == front + tail;
  }

  lemma CutAt(s: Text, k: nat)
    requires k < |s| && s[k] == COMMA && COMMA !in s[..k]
    ensures s == s[..k] + [COMMA] + s[k + 1..] && Commas(s) == 1 + Commas(s[k + 1..])
  {
    hide Commas;
    var front, rest := s[..k], s[k + 1..];
    assert s == front + [COMMA] + rest;
    CommasCut(front, rest);
  }

  lemma JoinCons(x: Text, entries: seq<Text>)
    requires entries != []
    ensures Join([x] + entries) == x + [COMMA] + Join(entries)
  {
    assert ([x] + entries)[1..] == entries;
  }

  /** With one entry more than there are commas, the entries are the value taken apart. */
  lemma {:induction false} FillRestores(s: Text)
    ensures Join(Fill(s, Commas(s) + 1)) == s
    decreases |s|
  {
    FillNext(s, Commas(s));
    hide Find, Fill, Commas;
    var k := Find(s, COMMA);
    var x, n := s[..k], Commas(s);
    if k < |s| {
      var rest := s[k + 1..];
      CutAt(s, k);
      FillRestores(rest);
      JoinCons(x, Fill(rest, n));
    } else {
      assert x == s;
      NoCommas(s);
      assert Fill([], 0) == [];
    }
  }

  lemma FillNext(s: Text, n: nat)
    ensures var k := Find(s, COMMA);
      Fill(s, n + 1) == [s[..k]] + Fill(if k < |s| then s[k + 1..] else [], n)
  {
  }

  /** The entries have no commas, so joining n of them gives n - 1. */
  lemma {:induction false} FillCommas(s: Text, n: nat)
    requires n > 0
    ensures Commas(Join(Fill(s, n))) == n - 1
    decreases n
  {
    FillNext(s, n - 1);
    hide Find, Fill, Commas;
    var k := Find(s, COMMA);
    var x := s[..k];
    NoCommas(x);
    if n > 1 {
      var rest := Fill(if k < |s| then s[k + 1..] else [], n - 1);
      FillCommas(if k < |s| then s[k + 1..] else [], n - 1);
      JoinCons(x, rest);
      CommasCut(x, Join(rest));
    } else {
      assert Join([x]) == x;
    }
  }

  /** Too few entries, or empty ones on top. */
  function Resized(entries: seq<Text>, n: nat): seq<Text> {
    if n <= |entries| then entries[..n] else entries + seq(n - |entries|, _ => [])
  }

  lemma ResizedMore(x: Text, entries: seq<Text>, n: nat)
    ensures Resized([x] + entries, n + 1) == [x] + Resized(entries, n)
  {
  }

  /** Counted too low, the last entries are missing; counted too high, empty ones follow. */
  lemma {:induction false} MiscountedFill(s: Text, n: nat)
    ensures Fill(s, n) == Resized(Fill(s, Commas(s) + 1), n)
    decreases n
  {
    hide Find, Fill, Commas, Resized;
    if n == 0 {
      NoneAtAll(s);
    } else {
      FillNext(s, n - 1);
      FillNext(s, Commas(s));
      var k := Find(s, COMMA);
      var rest := if k < |s| then s[k + 1..] else [];
      if k < |s| {
        CutAt(s, k);
        MiscountedFill(rest, n - 1);
      } else {
        NoCommas(s);
        FillNothing(n - 1);
        FillNothing(0);
      }
      ResizedMore(s[..k], Fill(rest, Commas(s)), n - 1);
    }
  }

  lemma NoneAtAll(s: Text)
    ensures Fill(s, 0) == [] && forall entries :: Resized(entries, 0) == []
  {
  }

  lemma {:induction false} FillNothing(n: nat)
    ensures Fill([], n) == Resized([], n)
  {
    if n > 0 {
      FillNothing(n - 1);
      ResizedMore([], [], n - 1);
    }
  }

  /**
   * The counting and the filling pass agree, and the entries joined give the value back,
   * exactly when the count already stood at one for a leading comma and at zero
   * otherwise, and there are fewer than 65536 entries.
   */
  lemma ListIffCounted(val: Text, before: nat)
    requires val != [] && before < M16
    ensures Join(Fill(val, Counted(before, Commas(val[1..])))) == val <==>
            before == (if val[0] == COMMA then 1 else 0) && Commas(val) + 1 < M16
  {
    var lead, c := if val[0] == COMMA then 1 else 0, Commas(val[1..]);
    assert Commas(val) == lead + c;
    hide Commas, Fill, Join;
    hide Counted;
    RestoredIff(val, Counted(before, c));
    CountedIff(before, lead, c);
  }

  lemma RestoredIff(val: Text, n: nat)
    requires val != []
    ensures Join(Fill(val, n)) == val <==> n == Commas(val) + 1
  {
    assert Join(Fill(val, 0)) == [];
    hide Commas, Fill, Join;
    FillRestores(val);
    if n > 0 { FillCommas(val, n); }
  }

  lemma CountedIff(before: nat, lead: nat, c: nat)
    requires before < M16 && lead <= 1
    ensures Counted(before, c) == lead + c + 1 <==> before == lead && lead + c + 1 < M16
  {
    if lead + c + 1 < M16 {
      var x := before + c + 1;
      assert x < 2 * M16;
      assert x % M16 == if x < M16 then x else x - M16;
    }
  }

  /**
   * A value set twice on a new list: the second count starts from the first, so the
   * entries give the value back exactly when its only comma is its first character.
   */
  method SetTwice(val: Text) returns (list: AddressList)
    requires val != []
    ensures Join(list.entries) == val <==> val[0] == COMMA && Commas(val) == 1
  {
    hide Join, Fill, Commas;
    list := new AddressList();
    list.Set(val);
    ghost var first := list.count;
    list.Set(val);
    TwiceIff(val, first, list.count);
  }

  lemma TwiceIff(val: Text, first: nat, second: nat)
    requires val != [] && first == Counted(0, Commas(val[1..])) && second == Counted(first, Commas(val[1..]))
    ensures Join(Fill(val, second)) == val <==> val[0] == COMMA && Commas(val) == 1
  {
    var lead, c := if val[0] == COMMA then 1 else 0, Commas(val[1..]);
    assert Commas(val) == lead + c;
    hide Join, Fill, Commas, Counted;
    ListIffCounted(val, first);
    CountedTwice(lead, c);
  }

  lemma CountedTwice(lead: nat, c: nat)
    requires lead <= 1
    ensures Counted(0, c) == lead && lead + c + 1 < M16 <==> lead == 1 && c == 0
  {
  }
}
