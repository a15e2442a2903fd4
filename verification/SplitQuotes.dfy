/** Both kinds of quotes: they work alike, a quoted part joins what is around it, and an open one is an error. */
module SplitQuotes {
  import opened SplitStrings
  import opened SplitRoundTrip

  // ------------------------------------------------------ exchanging the quotes

  function Other(b: byte): byte {
    if b == 34 then 39 else if b == 39 then 34 else b
  }

  function Flip(s: seq<byte>): seq<byte> {
    seq(|s|, i requires 0 <= i < |s| => Other(s[i]))
  }

  function FlipAll(fields: seq<seq<byte>>): seq<seq<byte>> {
    seq(|fields|, i requires 0 <= i < |fields| => Flip(fields[i]))
  }

  function FlipResult(r: Result): Result {
    match r
    case NeverClosed => NeverClosed
    case Fields(fields) => Fields(FlipAll(fields))
  }

  function FlipScanner(st: Scanner): Scanner {
    Scanner(FlipAll(st.result), Flip(st.current),
      if st.quote == Outside then Outside else Inside(Other(st.quote.mark)), st.escaped)
  }

  lemma {:induction false} FlipEncoded(b: byte)
    ensures Flip(Encoded(b)) == Encoded(Other(b))
  {
  }

  lemma {:induction false} FlipTwice(s: seq<byte>)
    ensures Flip(Flip(s)) == s
  {
  }

  lemma {:induction false} FlipJoins(a: seq<byte>, b: seq<byte>)
    ensures Flip(a + b) == Flip(a) + Flip(b)
  {
  }

  lemma {:induction false} FlipPrefix(a: seq<byte>, s: seq<byte>)
    ensures Flip(a) <= Flip(s) <==> a <= s
  {
    if a <= s {
      assert s == a + s[|a|..];
      FlipJoins(a, s[|a|..]);
    } else if Flip(a) <= Flip(s) {
      forall i | 0 <= i < |a| ensures a[i] == s[i] {
        assert Flip(a)[i] == Flip(s)[i];
      }
    }
  }

  lemma {:induction false} FlipPush(result: seq<seq<byte>>, current: seq<byte>)
    ensures FlipAll(Push(result, current)) == Push(FlipAll(result), Flip(current))
  {
  }

  lemma {:induction false} FlipStep(st: Scanner, b: byte)
    ensures FlipScanner(Step(st, b)) == Step(FlipScanner(st), Other(b))
  {
    FlipEncoded(b);
    FlipJoins(st.current, Encoded(b));
  }

  lemma {:induction false} ScanFlips(rest: seq<byte>, delimiter: seq<byte>, st: Scanner)
    requires delimiter != []
    ensures Scan(Flip(rest), Flip(delimiter), FlipScanner(st)) == FlipResult(Scan(rest, delimiter, st))
    decreases |rest|
  {
    FlipPrefix(delimiter, rest);
    if rest == [] {
      FlipPush(st.result, st.current);
    } else if st.quote == Outside && delimiter <= rest {
      FlipDelimiter(st);
      assert Flip(rest)[|delimiter|..] == Flip(rest[|delimiter|..]);
      ScanFlips(rest[|delimiter|..], delimiter, AfterDelimiter(st));
    } else {
      FlipStep(st, rest[0]);
      assert Flip(rest)[0] == Other(rest[0]) && Flip(rest)[1..] == Flip(rest[1..]);
      ScanFlips(rest[1..], delimiter, Step(st, rest[0]));
    }
  }

  /** The scanner after a delimiter outside quotes. */
  function AfterDelimiter(st: Scanner): Scanner {
    st.(result := Push(st.result, st.current), current := [])
  }

  lemma {:induction false} FlipDelimiter(st: Scanner)
    ensures FlipScanner(AfterDelimiter(st)) == AfterDelimiter(FlipScanner(st))
  {
    FlipPush(st.result, st.current);
  }

  /** Exchanging the two quotes everywhere exchanges them in the fields; an error stays an error. */
  lemma QuotesAreAlike(input: seq<byte>, delimiter: seq<byte>)
    requires delimiter != []
    ensures Split(Flip(input), Flip(delimiter)) == FlipResult(Split(input, delimiter))
  {
    assert FlipScanner(START) == START;
    ScanFlips(input, delimiter, START);
  }

  // ------------------------------------------------------- single-quoted fields

  /** Each field in single quotes, joined with the delimiter. */
  function SingleQuoted(fields: seq<seq<byte>>, delimiter: seq<byte>): seq<byte> {
    if fields == [] then []
    else
      var rest := if |fields| == 1 then [] else delimiter + SingleQuoted(fields[1..], delimiter);
      [SINGLE_QUOTE] + fields[0] + [SINGLE_QUOTE] + rest
  }

  lemma {:induction false} FlipQuoted(fields: seq<seq<byte>>, delimiter: seq<byte>)
    ensures SingleQuoted(fields, delimiter) == Flip(Quoted(FlipAll(fields), Flip(delimiter)))
    decreases |fields|
  {
    if fields != [] {
      var more := fields[1..];
      var rest := if |fields| == 1 then [] else Flip(delimiter) + Quoted(FlipAll(more), Flip(delimiter));
      FlipQuoted(more, delimiter);
      assert FlipAll(fields)[1..] == FlipAll(more);
      FlipTwice(delimiter);
      FlipJoins(Flip(delimiter), Quoted(FlipAll(more), Flip(delimiter)));
      FlipField(fields[0], rest);
    }
  }

  lemma {:induction false} FlipField(f: seq<byte>, rest: seq<byte>)
    ensures Flip([DOUBLE_QUOTE] + Flip(f) + [DOUBLE_QUOTE] + rest) == [SINGLE_QUOTE] + f + [SINGLE_QUOTE] + Flip(rest)
  {
  }

  /** Every such quote in s is escaped. */
  predicate MarkEscaped(mark: byte, s: seq<byte>, escaped: bool) {
    s == [] || ((s[0] == mark ==> escaped) && MarkEscaped(mark, s[1..], !escaped && s[0] == BACKSLASH))
  }

  lemma {:induction false} FlippedEscapes(s: seq<byte>, escaped: bool)
    ensures QuotesEscaped(Flip(s), escaped) == MarkEscaped(SINGLE_QUOTE, s, escaped)
    ensures EscapedAfter(Flip(s), escaped) == EscapedAfter(s, escaped)
    ensures Ascii(Flip(s)) == Ascii(s)
  {
    if s != [] {
      assert Flip(s)[1..] == Flip(s[1..]);
      FlippedEscapes(s[1..], !escaped && s[0] == BACKSLASH);
      assert s == [s[0]] + s[1..] && Flip(s) == [Other(s[0])] + Flip(s[1..]);
    }
  }

  predicate SurvivesSingle(f: seq<byte>) {
    Unchanged(f) && MarkEscaped(SINGLE_QUOTE, f, false) && !EscapedAfter(f, false)
  }

  /** The round trip of the printer with single quotes. */
  lemma SingleRoundTripExactly(fields: seq<seq<byte>>, delimiter: seq<byte>)
    requires delimiter != [] && delimiter[0] != SINGLE_QUOTE
    requires
      || (forall f :: f in fields ==> MarkEscaped(SINGLE_QUOTE, f, false))
      || (DOUBLE_QUOTE !in delimiter && forall f :: f in fields ==> DOUBLE_QUOTE !in f)
    ensures Split(SingleQuoted(fields, delimiter), delimiter) == Fields(fields) <==>
      forall f :: f in fields ==> SurvivesSingle(f)
  {
    var flipped, d := FlipAll(fields), Flip(delimiter);
    forall i | 0 <= i < |fields|
      ensures Survives(flipped[i]) == SurvivesSingle(fields[i])
      ensures QuotesEscaped(flipped[i], false) == MarkEscaped(SINGLE_QUOTE, fields[i], false)
      ensures Flip(flipped[i]) == fields[i]
    {
      FlippedEscapes(fields[i], false);
      FlipTwice(fields[i]);
    }
    forall f | f in flipped ensures Flip(f) in fields &&
      QuotesEscaped(f, false) == MarkEscaped(SINGLE_QUOTE, Flip(f), false) {
      var i :| 0 <= i < |flipped| && flipped[i] == f;
    }
    FlipTwice(delimiter);
    assert OneKindOfQuote(flipped, d) by {
      if DOUBLE_QUOTE !in delimiter {
        assert SINGLE_QUOTE !in d;
      }
    }
    RoundTripExactly(flipped, d);
    FlipQuoted(fields, delimiter);
    QuotesAreAlike(Quoted(flipped, d), d);
    FlipTwice(delimiter);
    FlippedBack(fields, Split(Quoted(flipped, d), d));
  }

  lemma {:induction false} FlippedBack(fields: seq<seq<byte>>, r: Result)
    ensures FlipResult(r) == Fields(fields) <==> r == Fields(FlipAll(fields))
  {
    forall s: seq<byte> ensures Flip(Flip(s)) == s {
      FlipTwice(s);
    }
    assert FlipAll(FlipAll(fields)) == fields;
    if r.Fields? {
      assert FlipAll(FlipAll(r.fields)) == r.fields;
    }
  }

  // ------------------------------------------------------------ one quoted part

  predicate IsQuote(b: byte) {
    b == 34 || b == 39
  }

  predicate Plain(s: seq<byte>) {
    34 !in s && 39 !in s
  }

  /** Inside either quote, bytes among which that quote is escaped are taken over one by one. */
  lemma {:induction false} ScanInsideMark(mark: byte, s: seq<byte>, tail: seq<byte>, delimiter: seq<byte>,
                                          result: seq<seq<byte>>, current: seq<byte>, escaped: bool)
    requires delimiter != [] && MarkEscaped(mark, s, escaped)
    ensures Scan(s + tail, delimiter, Scanner(result, current, Inside(mark), escaped)) ==
            Scan(tail, delimiter, Scanner(result, current + EncodedAll(s), Inside(mark), EscapedAfter(s, escaped)))
    decreases |s|
  {
    if s == [] {
      assert s + tail == tail && current + [] == current;
    } else {
      var b := s[0];
      assert (s + tail)[0] == b && (s + tail)[1..] == s[1..] + tail;
      ScanInsideMark(mark, s[1..], tail, delimiter, result, current + Encoded(b), !escaped && b == BACKSLASH);
      EncodedAllCons(current, s);
    }
  }

  /** How far the scanner has come after these pieces of plain bytes: pushed fields and the current one. */
  datatype Reached = Reached(result: seq<seq<byte>>, current: seq<byte>)

  function After(result: seq<seq<byte>>, current: seq<byte>, pieces: seq<seq<byte>>): Reached
    requires pieces != []
    decreases |pieces|
  {
    var now := current + EncodedAll(pieces[0]);
    if |pieces| == 1 then Reached(result, now) else After(Push(result, now), [], pieces[1..])
  }

  lemma {:induction false} AfterByte(result: seq<seq<byte>>, current: seq<byte>, b: byte, pieces: seq<seq<byte>>)
    requires pieces != []
    ensures After(result, current, [[b] + pieces[0]] + pieces[1..]) == After(result, current + Encoded(b), pieces)
  {
    var grown := [[b] + pieces[0]] + pieces[1..];
    assert grown[0] == [b] + pieces[0] && grown[1..] == pieces[1..];
    assert ([b] + pieces[0])[1..] == pieces[0];
    EncodedAllCons(current, grown[0]);
  }

  lemma {:induction false} AfterDelimiterPieces(result: seq<seq<byte>>, current: seq<byte>, pieces: seq<seq<byte>>)
    requires pieces != []
    ensures After(result, current, [[]] + pieces) == After(Push(result, current), [], pieces)
  {
    assert ([[]] + pieces)[1..] == pieces && current + [] == current;
  }

  lemma {:induction false} DelimiterEndsBefore(a: seq<byte>, rest: seq<byte>, delimiter: seq<byte>)
    requires rest != [] && rest[0] !in delimiter
    ensures delimiter <= a + rest <==> delimiter <= a
  {
    if |delimiter| > |a| {
      assert (a + rest)[|a|] == rest[0] && delimiter[|a|] in delimiter;
    }
  }

  /** Plain bytes without backslashes, up to a quote that the delimiter does not contain. */
  lemma {:induction false} ScanPlain(a: seq<byte>, rest: seq<byte>, delimiter: seq<byte>,
                                     result: seq<seq<byte>>, current: seq<byte>)
    requires delimiter != [] && rest != [] && rest[0] !in delimiter && Plain(a) && BACKSLASH !in a
    ensures var r := After(result, current, PlainSplit(a, delimiter));
      Scan(a + rest, delimiter, Scanner(result, current, Outside, false)) ==
      Scan(rest, delimiter, Scanner(r.result, r.current, Outside, false))
    decreases |a|
  {
    DelimiterEndsBefore(a, rest, delimiter);
    if a == [] {
      assert a + rest == rest && PlainSplit(a, delimiter) == [[]] && current + [] == current;
    } else if delimiter <= a {
      var tail := a[|delimiter|..];
      assert (a + rest)[|delimiter|..] == tail + rest;
      PlainSplitAtDelimiter(a, delimiter);
      AfterDelimiterPieces(result, current, PlainSplit(tail, delimiter));
      ScanPlain(tail, rest, delimiter, Push(result, current), []);
    } else {
      assert a[0] in a && (a + rest)[1..] == a[1..] + rest;
      PlainSplitStep(a, delimiter);
      AfterByte(result, current, a[0], PlainSplit(a[1..], delimiter));
      ScanPlain(a[1..], rest, delimiter, result, current + Encoded(a[0]));
    }
  }

  /** Up to and inside a quote of either kind. */
  lemma {:induction false} ScanToInside(a: seq<byte>, mark: byte, t: seq<byte>, rest: seq<byte>, delimiter: seq<byte>)
    requires delimiter != [] && IsQuote(mark) && mark !in delimiter && Plain(a) && BACKSLASH !in a
    requires MarkEscaped(mark, t, false)
    ensures var r := After([], [], PlainSplit(a, delimiter));
      Split(a + ([mark] + (t + rest)), delimiter) ==
      Scan(rest, delimiter, Scanner(r.result, r.current + EncodedAll(t), Inside(mark), EscapedAfter(t, false)))
  {
    var r := After([], [], PlainSplit(a, delimiter));
    ScanPlain(a, [mark] + (t + rest), delimiter, [], []);
    assert ([mark] + (t + rest))[1..] == t + rest;
    assert !(delimiter <= [mark] + (t + rest));
    ScanInsideMark(mark, t, rest, delimiter, r.result, r.current, false);
  }

  /** An input that ends inside a quote of either kind is an error. */
  lemma OpenQuoteIsAnError(a: seq<byte>, mark: byte, t: seq<byte>, delimiter: seq<byte>)
    requires delimiter != [] && IsQuote(mark) && mark !in delimiter && Plain(a) && BACKSLASH !in a
    requires MarkEscaped(mark, t, false)
    ensures Split(a + ([mark] + t), delimiter) == NeverClosed
  {
    assert t + [] == t;
    ScanToInside(a, mark, t, [], delimiter);
  }

  /**
   * A part in quotes of either kind keeps its delimiters and joins the last piece before it to the first piece after
   * it; all around is split plainly.
   */
  lemma {:induction false} QuotedPartJoins(a: seq<byte>, mark: byte, t: seq<byte>, c: seq<byte>, delimiter: seq<byte>)
    requires delimiter != [] && IsQuote(mark) && mark !in delimiter && Plain(a) && BACKSLASH !in a && Plain(c)
    requires MarkEscaped(mark, t, false) && !EscapedAfter(t, false)
    ensures var before, after := PlainSplit(a, delimiter), PlainSplit(c, delimiter);
      var last := |before| - 1;
      Split(a + ([mark] + (t + ([mark] + c))), delimiter) ==
      Fields(Kept(before[..last] + [before[last] + t + after[0]] + after[1..]))
  {
    var before := PlainSplit(a, delimiter);
    SplitAtQuotes(a, mark, t, c, delimiter);
    AfterPieces([], [], before);
    NothingInFront(Kept(before[..|before| - 1]));
    Joined(before, t, PlainSplit(c, delimiter));
  }

  lemma {:induction false} NothingInFront(s: seq<seq<byte>>)
    ensures [] + s == s
  {
  }

  lemma {:induction false} SplitAtQuotes(a: seq<byte>, mark: byte, t: seq<byte>, c: seq<byte>, delimiter: seq<byte>)
    requires delimiter != [] && IsQuote(mark) && mark !in delimiter && Plain(a) && BACKSLASH !in a && Plain(c)
    requires MarkEscaped(mark, t, false) && !EscapedAfter(t, false)
    ensures var r := After([], [], PlainSplit(a, delimiter));
      Split(a + ([mark] + (t + ([mark] + c))), delimiter) ==
      Fields(Continued(r.result, r.current + EncodedAll(t), PlainSplit(c, delimiter)))
  {
    var r := After([], [], PlainSplit(a, delimiter));
    ScanToInside(a, mark, t, [mark] + c, delimiter);
    ScanClosed(mark, c, delimiter, r.result, r.current + EncodedAll(t));
  }

  lemma {:induction false} ScanClosed(mark: byte, c: seq<byte>, delimiter: seq<byte>, result: seq<seq<byte>>,
                                      current: seq<byte>)
    requires delimiter != [] && Plain(c)
    ensures Scan([mark] + c, delimiter, Scanner(result, current, Inside(mark), false)) ==
            Fields(Continued(result, current, PlainSplit(c, delimiter)))
  {
    assert ([mark] + c)[1..] == c;
    ScanWithoutQuotes(c, delimiter, Scanner(result, current, Outside, false));
  }

  lemma {:induction false} EncodedJoins(a: seq<byte>, b: seq<byte>)
    ensures EncodedAll(a + b) == EncodedAll(a) + EncodedAll(b)
    decreases |a|
  {
    if a == [] {
      assert a + b == b;
    } else {
      assert (a + b)[1..] == a[1..] + b;
      EncodedJoins(a[1..], b);
    }
  }

  lemma {:induction false} KeptJoins(a: seq<seq<byte>>, b: seq<seq<byte>>)
    ensures Kept(a + b) == Kept(a) + Kept(b)
    decreases |a|
  {
    if a == [] {
      assert a + b == b;
    } else {
      assert (a + b)[1..] == a[1..] + b;
      KeptJoins(a[1..], b);
    }
  }

  /** After pieces: all but the last are kept, and the last one is current. */
  lemma {:induction false} AfterPieces(result: seq<seq<byte>>, current: seq<byte>, pieces: seq<seq<byte>>)
    requires pieces != [] && current == []
    ensures After(result, current, pieces) ==
      Reached(result + Kept(pieces[..|pieces| - 1]), EncodedAll(pieces[|pieces| - 1]))
    decreases |pieces|
  {
    var now := EncodedAll(pieces[0]);
    assert current + now == now;
    if |pieces| == 1 {
      assert pieces[..0] == [] && result + [] == result;
    } else {
      var more := pieces[1..];
      AfterPieces(Push(result, now), [], more);
      assert pieces[..|pieces| - 1] == [pieces[0]] + more[..|more| - 1];
      PushThenKept(result, pieces[0], more[..|more| - 1]);
    }
  }

  lemma {:induction false} Joined(before: seq<seq<byte>>, t: seq<byte>, after: seq<seq<byte>>)
    requires before != [] && after != []
    ensures var last := |before| - 1;
      Continued(Kept(before[..last]), EncodedAll(before[last]) + EncodedAll(t), after) ==
      Kept(before[..last] + [before[last] + t + after[0]] + after[1..])
  {
    var last := |before| - 1;
    var middle := before[last] + t + after[0];
    EncodedJoins(before[last], t);
    EncodedJoins(before[last] + t, after[0]);
    KeptJoins(before[..last], [middle] + after[1..]);
    assert before[..last] + [middle] + after[1..] == before[..last] + ([middle] + after[1..]);
    PushThenKept(Kept(before[..last]), middle, after[1..]);
  }

  // ---------------------------------------------------------------- the encoding

  /**
   * The bytes that a UTF-8 text of code points below 256 stands for (section 3 of RFC 3629); anything else is cut off.
   */
  function Decoded(s: seq<byte>): seq<byte>
    decreases |s|
  {
    if s == [] then []
    else if s[0] < 0x80 then [s[0]] + Decoded(s[1..])
    else if |s| >= 2 && 0xC2 <= s[0] <= 0xC3 && 0x80 <= s[1] < 0xC0 then
      [(s[0] - 0xC0) * 64 + (s[1] - 0x80)] + Decoded(s[2..])
    else []
  }

  /** The fields carry their bytes as code points: no two fields are encoded alike. */
  lemma {:induction false} EncodingDecodes(s: seq<byte>)
    ensures Decoded(EncodedAll(s)) == s
  {
    if s != [] {
      var rest := EncodedAll(s[1..]);
      EncodingDecodes(s[1..]);
      assert EncodedAll(s) == Encoded(s[0]) + rest;
      assert (Encoded(s[0]) + rest)[|Encoded(s[0])|..] == rest;
    }
  }
}
