/** Strings and lines as cmd/nrlicense/header.go reads them: Go's string helpers on ASCII text, and the line scanner. */
module LicenseText {
  /** A longer line stops the scanner (Go's bufio.MaxScanTokenSize). */
  const MAX_TOKEN_SIZE := 65536

  predicate IsSpace(c: char) {
    c == ' ' || '\t' <= c <= '\r'
  }

  function TrimLeft(s: string): string {
    if s != [] && IsSpace(s[0]) then TrimLeft(s[1..]) else s
  }

  function TrimRight(s: string): string {
    if s != [] && IsSpace(s[|s| - 1]) then TrimRight(s[..|s| - 1]) else s
  }

  function TrimSpace(s: string): string {
    TrimRight(TrimLeft(s))
  }

  function TrimPrefix(s: string, prefix: string): string {
    if prefix <= s then s[|prefix|..] else s
  }

  function LowerChar(c: char): char {
    if 'A' <= c <= 'Z' then (c as int + 32) as char else c
  }

  function ToLower(s: string): string {
    seq(|s|, i requires 0 <= i < |s| => LowerChar(s[i]))
  }

  predicate OccursAt(s: string, part: string, i: nat) {
    i + |part| <= |s| && s[i..i + |part|] == part
  }

  predicate Contains(s: string, part: string) {
    exists i :: 0 <= i <= |s| && OccursAt(s, part, i)
  }

  lemma {:induction false} ContainsInPrefix(s: string, n: nat, part: string)
    requires n <= |s| && Contains(s[..n], part)
    ensures Contains(s, part)
  {
    var i :| 0 <= i <= n && OccursAt(s[..n], part, i);
    assert OccursAt(s, part, i);
  }

  lemma {:induction false} LowerOfPart(s: string, i: nat, j: nat)
    requires i <= j <= |s|
    ensures ToLower(s)[i..j] == ToLower(s[i..j])
  {
  }

  /** The first index of part, if any. */
  function Index(s: string, part: string): (r: int)
    ensures r == -1 || (0 <= r <= |s| && OccursAt(s, part, r))
    ensures r == -1 <==> !Contains(s, part)
    ensures forall k :: 0 <= k < r ==> !OccursAt(s, part, k)
  {
    IndexFrom(s, part, 0)
  }

  function IndexFrom(s: string, part: string, from: nat): (r: int)
    requires from <= |s| + 1
    ensures r == -1 || (from <= r <= |s| && OccursAt(s, part, r))
    ensures forall k :: from <= k <= |s| && (r == -1 || k < r) ==> !OccursAt(s, part, k)
    decreases |s| + 1 - from
  {
    if from > |s| then -1
    else if OccursAt(s, part, from) then from
    else IndexFrom(s, part, from + 1)
  }

  // -------------------------------------------------------------------- lines

  function FirstNewline(t: string): (i: nat)
    ensures i <= |t| && (i < |t| ==> t[i] == '\n') && '\n' !in t[..i]
  {
    if t == [] || t[0] == '\n' then 0 else FirstNewline(t[1..]) + 1
  }

  /** The pieces between newlines; a final newline ends the last line. */
  function RawLines(t: string): seq<string> {
    if t == [] then []
    else
      var i := FirstNewline(t);
      if i == |t| then [t] else [t[..i]] + RawLines(t[i + 1..])
  }

  /** Every line followed by a newline. */
  function Text(ls: seq<string>): string {
    if ls == [] then [] else ls[0] + "\n" + Text(ls[1..])
  }

  predicate OneLine(l: string) {
    '\n' !in l
  }

  predicate OneLiners(ls: seq<string>) {
    forall l :: l in ls ==> OneLine(l)
  }

  function Chomp(l: string): string {
    if l != [] && l[|l| - 1] == '\r' then l[..|l| - 1] else l
  }

  /** What a scanner yields: lines without their carriage return, up to the first one that is too long. */
  datatype Scan = Scan(lines: seq<string>, tooLong: bool)

  function ScanRaw(ls: seq<string>): Scan {
    if ls == [] then Scan([], false)
    else if |ls[0]| >= MAX_TOKEN_SIZE then Scan([], true)
    else
      var rest := ScanRaw(ls[1..]);
      Scan([Chomp(ls[0])] + rest.lines, rest.tooLong)
  }

  function Scanned(t: string): Scan {
    ScanRaw(RawLines(t))
  }

  lemma {:induction false} FirstNewlineAfter(l: string, t: string)
    requires OneLine(l)
    ensures FirstNewline(l + "\n" + t) == |l|
  {
    if l == [] {
      assert l + "\n" + t == "\n" + t;
    } else {
      assert l[0] in l && (l + "\n" + t)[1..] == l[1..] + "\n" + t;
      FirstNewlineAfter(l[1..], t);
    }
  }

  lemma {:induction false} LineAhead(l: string, t: string)
    requires OneLine(l)
    ensures RawLines(l + "\n" + t) == [l] + RawLines(t)
  {
    FirstNewlineAfter(l, t);
    var s := l + "\n" + t;
    assert s[..|l|] == l && s[|l| + 1..] == t;
  }

  lemma {:induction false} HeadAndTail<T>(a: seq<T>, b: seq<T>)
    requires a != []
    ensures [a[0]] + (a[1..] + b) == a + b
  {
  }

  /** Scanning undoes writing lines. */
  lemma {:induction false} LinesAhead(ls: seq<string>, t: string)
    requires OneLiners(ls)
    ensures RawLines(Text(ls) + t) == ls + RawLines(t)
  {
    if ls == [] {
      assert Text(ls) + t == t;
    } else {
      assert ls[0] in ls;
      var rest := Text(ls[1..]) + t;
      assert Text(ls) + t == ls[0] + "\n" + rest;
      calc {
        RawLines(ls[0] + "\n" + rest);
        { LineAhead(ls[0], rest); }
        [ls[0]] + RawLines(rest);
        { LinesAhead(ls[1..], t); }
        [ls[0]] + (ls[1..] + RawLines(t));
        { HeadAndTail(ls, RawLines(t)); }
        ls + RawLines(t);
      }
    }
  }

  lemma {:induction false} RawLinesOfText(ls: seq<string>)
    requires OneLiners(ls)
    ensures RawLines(Text(ls)) == ls
  {
    LinesAhead(ls, []);
    assert Text(ls) + [] == Text(ls);
  }

  lemma {:induction false} RawLinesAreOneLiners(t: string)
    ensures OneLiners(RawLines(t))
    decreases |t|
  {
    if t != [] {
      var i := FirstNewline(t);
      if i == |t| {
        assert t[..i] == t;
      } else {
        RawLinesAreOneLiners(t[i + 1..]);
      }
    }
  }

  lemma {:induction false} ScanRawAt(ls: seq<string>)
    ensures var s := ScanRaw(ls);
      && |s.lines| <= |ls| && (s.tooLong <==> |s.lines| < |ls|)
      && (forall k :: 0 <= k < |s.lines| ==> s.lines[k] == Chomp(ls[k]) && |ls[k]| < MAX_TOKEN_SIZE)
      && (s.tooLong ==> |ls[|s.lines|]| >= MAX_TOKEN_SIZE)
  {
    if ls != [] {
      ScanRawAt(ls[1..]);
    }
  }

  lemma {:induction false} ScanRawConcat(a: seq<string>, b: seq<string>)
    requires !ScanRaw(a).tooLong
    ensures ScanRaw(a + b) == Scan(ScanRaw(a).lines + ScanRaw(b).lines, ScanRaw(b).tooLong)
  {
    if a == [] {
      assert a + b == b;
    } else {
      assert (a + b)[0] == a[0] && (a + b)[1..] == a[1..] + b;
      ScanRawConcat(a[1..], b);
    }
  }

  /** Lines the scanner gives back as they are. */
  predicate Plain(l: string) {
    OneLine(l) && Chomp(l) == l && |l| < MAX_TOKEN_SIZE
  }

  predicate AllPlain(ls: seq<string>) {
    forall l :: l in ls ==> Plain(l)
  }

  lemma {:induction false} ScanPlain(ls: seq<string>)
    requires AllPlain(ls)
    ensures ScanRaw(ls) == Scan(ls, false)
  {
    if ls != [] {
      assert ls[0] in ls;
      ScanPlain(ls[1..]);
    }
  }

  /** Lines the scanner gives back but for a carriage return. */
  predicate AllShort(ls: seq<string>) {
    forall l :: l in ls ==> OneLine(l) && |l| < MAX_TOKEN_SIZE
  }

  function ChompAll(ls: seq<string>): seq<string> {
    if ls == [] then [] else [Chomp(ls[0])] + ChompAll(ls[1..])
  }

  lemma {:induction false} ChompAllAt(ls: seq<string>)
    ensures |ChompAll(ls)| == |ls| && forall k :: 0 <= k < |ls| ==> ChompAll(ls)[k] == Chomp(ls[k])
  {
    if ls != [] {
      ChompAllAt(ls[1..]);
    }
  }

  lemma {:induction false} ScanShort(ls: seq<string>)
    requires AllShort(ls)
    ensures ScanRaw(ls) == Scan(ChompAll(ls), false)
  {
    if ls != [] {
      assert ls[0] in ls;
      ScanShort(ls[1..]);
    }
  }

  lemma {:induction false} ChompAllStaysShort(ls: seq<string>)
    requires AllShort(ls)
    ensures AllShort(ChompAll(ls))
  {
    ChompAllAt(ls);
    forall k | 0 <= k < |ls| ensures OneLine(ChompAll(ls)[k]) && |ChompAll(ls)[k]| < MAX_TOKEN_SIZE {
      assert ls[k] in ls;
    }
  }

  lemma {:induction false} ChompAllOfRest(ls: seq<string>, n: nat)
    requires n <= |ls|
    ensures n <= |ChompAll(ls)| && ChompAll(ls[n..]) == ChompAll(ls)[n..]
  {
    ChompAllAt(ls);
    ChompAllAt(ls[n..]);
  }

  /** The raw lines the scanner gets through. */
  function ReadLines(t: string): seq<string> {
    RawLines(t)[..NumberRead(RawLines(t))]
  }

  function NumberRead(ls: seq<string>): (n: nat)
    ensures n <= |ls|
  {
    if ls == [] || |ls[0]| >= MAX_TOKEN_SIZE then 0 else 1 + NumberRead(ls[1..])
  }

  lemma {:induction false} ScanIsPrefix(ls: seq<string>)
    ensures var n := NumberRead(ls);
      ScanRaw(ls) == Scan(ChompAll(ls[..n]), n < |ls|) && forall l :: l in ls[..n] ==> |l| < MAX_TOKEN_SIZE
  {
    if ls != [] && |ls[0]| < MAX_TOKEN_SIZE {
      ScanIsPrefix(ls[1..]);
      var n := NumberRead(ls[1..]);
      assert ls[..n + 1] == [ls[0]] + ls[1..][..n];
    }
  }

  lemma {:induction false} ReadLinesAreShort(t: string)
    ensures AllShort(ReadLines(t))
    ensures Scanned(t) == Scan(ChompAll(ReadLines(t)), |ReadLines(t)| < |RawLines(t)|)
  {
    RawLinesAreOneLiners(t);
    ScanIsPrefix(RawLines(t));
    assert forall l :: l in ReadLines(t) ==> l in RawLines(t);
  }

  // ---------------------------------------------------------- carriage returns

  /** How many carriage returns end the line. */
  function Returns(l: string): nat {
    if l != [] && l[|l| - 1] == '\r' then 1 + Returns(l[..|l| - 1]) else 0
  }

  ghost predicate AtMost(ls: seq<string>, k: nat) {
    forall l :: l in ls ==> Returns(l) <= k
  }

  lemma {:induction false} ReturnsOfChomped(l: string)
    ensures Returns(Chomp(l)) == (if Returns(l) == 0 then 0 else Returns(l) - 1) && (Chomp(l) == l <==> Returns(l) == 0)
  {
  }

  /** Chomping takes one return from each line that has any. */
  lemma {:induction false} AtMostOfChomped(ls: seq<string>, k: nat)
    ensures AtMost(ChompAll(ls), k) <==> AtMost(ls, k + 1)
  {
    ChompAllAt(ls);
    if AtMost(ls, k + 1) {
      forall i | 0 <= i < |ls| ensures Returns(ChompAll(ls)[i]) <= k {
        assert ls[i] in ls;
        ReturnsOfChomped(ls[i]);
      }
    }
    if AtMost(ChompAll(ls), k) {
      forall i | 0 <= i < |ls| ensures Returns(ls[i]) <= k + 1 {
        assert ChompAll(ls)[i] in ChompAll(ls);
        ReturnsOfChomped(ls[i]);
      }
    }
  }

  lemma {:induction false} ChompAllStaysIff(ls: seq<string>)
    ensures ChompAll(ls) == ls <==> AtMost(ls, 0)
  {
    ChompAllAt(ls);
    if AtMost(ls, 0) {
      forall i | 0 <= i < |ls| ensures ChompAll(ls)[i] == ls[i] {
        assert ls[i] in ls;
        ReturnsOfChomped(ls[i]);
      }
    }
    if ChompAll(ls) == ls {
      forall i | 0 <= i < |ls| ensures Returns(ls[i]) <= 0 {
        ReturnsOfChomped(ls[i]);
      }
    }
  }

  lemma {:induction false} TextConcat(a: seq<string>, b: seq<string>)
    ensures Text(a + b) == Text(a) + Text(b)
  {
    if a == [] {
      assert a + b == b;
    } else {
      assert (a + b)[1..] == a[1..] + b;
      TextConcat(a[1..], b);
    }
  }

  lemma {:induction false} TextSnoc(a: seq<string>, l: string)
    ensures Text(a + [l]) == Text(a) + l + "\n"
  {
    TextConcat(a, [l]);
    assert Text([l]) == l + "\n" + Text([]);
  }
}
