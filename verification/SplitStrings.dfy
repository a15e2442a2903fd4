/** Quote-aware splitting (internal/coreinternal/parseutils/parser.go, SplitString) over bytes. */
module SplitStrings {
  type byte = x: int | 0 <= x < 256

  const DOUBLE_QUOTE: byte := 34
  const SINGLE_QUOTE: byte := 39
  const BACKSLASH: byte := 92

  /** The outcome: the fields, or the error for a quote that never closes. */
  datatype Result = Fields(fields: seq<seq<byte>>) | NeverClosed

  /** The quote the scanner is inside of, if any. */
  datatype Quote = Outside | Inside(mark: byte)

  /** The loop variables of the scanner. */
  datatype Scanner = Scanner(result: seq<seq<byte>>, current: seq<byte>, quote: Quote, escaped: bool)

  const START := Scanner([], [], Outside, false)

  /** What Go's string(b) appends for one byte: the UTF-8 encoding of that code point (section 3 of RFC 3629). */
  function Encoded(b: byte): seq<byte> {
    if b < 0x80 then [b] else if b < 0xC0 then [0xC2, b] else [0xC3, b - 0x40]
  }

  function EncodedAll(s: seq<byte>): seq<byte> {
    if s == [] then [] else Encoded(s[0]) + EncodedAll(s[1..])
  }

  /** A nonempty current field joins the result; an empty one is ignored. */
  function Push(result: seq<seq<byte>>, current: seq<byte>): seq<seq<byte>> {
    if current == [] then result else result + [current]
  }

  /** The scanner after one byte that does not start a delimiter outside quotes. */
  function Step(st: Scanner, b: byte): Scanner {
    if !st.escaped && st.quote == Outside && (b == DOUBLE_QUOTE || b == SINGLE_QUOTE) then st.(quote := Inside(b))
    else if !st.escaped && st.quote == Inside(b) then st.(quote := Outside)
    else st.(current := st.current + Encoded(b), escaped := !st.escaped && b == BACKSLASH)
  }

  /** The outcome of scanning the rest of the input. */
  function Scan(rest: seq<byte>, delimiter: seq<byte>, st: Scanner): Result
    requires delimiter != []
    decreases |rest|
  {
    if rest == [] then
      if st.quote != Outside then NeverClosed else Fields(Push(st.result, st.current))
    else if st.quote == Outside && delimiter <= rest then
      Scan(rest[|delimiter|..], delimiter, st.(result := Push(st.result, st.current), current := []))
    else Scan(rest[1..], delimiter, Step(st, rest[0]))
  }

  function Split(input: seq<byte>, delimiter: seq<byte>): Result
    requires delimiter != []
  {
    Scan(input, delimiter, START)
  }

  predicate DelimiterAt(input: seq<byte>, i: nat, delimiter: seq<byte>) {
    i + |delimiter| <= |input| && input[i..i + |delimiter|] == delimiter
  }

  /** What the scanner does at index i of the input. */
  lemma {:induction false} ScanAt(input: seq<byte>, i: nat, delimiter: seq<byte>, st: Scanner)
    requires delimiter != [] && i < |input|
    ensures Scan(input[i..], delimiter, st) ==
      if st.quote == Outside && DelimiterAt(input, i, delimiter) then
        Scan(input[i + |delimiter|..], delimiter, st.(result := Push(st.result, st.current), current := []))
      else Scan(input[i + 1..], delimiter, Step(st, input[i]))
  {
    var rest := input[i..];
    assert DelimiterAt(input, i, delimiter) ==> rest[..|delimiter|] == delimiter;
    assert delimiter <= rest ==> input[i..i + |delimiter|] == rest[..|delimiter|];
    assert delimiter <= rest ==> rest[|delimiter|..] == input[i + |delimiter|..];
    assert rest[1..] == input[i + 1..];
  }

  method SplitString(input: seq<byte>, delimiter: seq<byte>) returns (r: Result)
    requires delimiter != []
    ensures r == Split(input, delimiter)
  {
    var result: seq<seq<byte>>, current: seq<byte> := [], [];
    var delimiterLength := |delimiter|;
    var quoteChar, escaped := Outside, false;
    var i := 0;
    while i < |input|
      invariant 0 <= i <= |input|
      invariant Split(input, delimiter) == Scan(input[i..], delimiter, Scanner(result, current, quoteChar, escaped))
    {
      ScanAt(input, i, delimiter, Scanner(result, current, quoteChar, escaped));
      if quoteChar == Outside && i + delimiterLength <= |input| && input[i..i + delimiterLength] == delimiter {
        if current != [] {
          result := result + [current];
          current := [];
        }
        i := i + delimiterLength;
        continue;
      }
      var b := input[i];
      if !escaped {
        if quoteChar == Outside && (b == DOUBLE_QUOTE || b == SINGLE_QUOTE) {
          quoteChar := Inside(b);
          i := i + 1;
          continue;
        }
        if quoteChar == Inside(b) {
          quoteChar := Outside;
          i := i + 1;
          continue;
        }
        escaped := b == BACKSLASH;
      } else {
        escaped := false;
      }
      current := current + Encoded(b);
      i := i + 1;
    }
    if quoteChar != Outside {
      return NeverClosed;
    }
    if current != [] {
      return Fields(result + [current]);
    }
    return Fields(result);
  }

  // -------------------------------------------------------------- round trip

  /** Each field in double quotes, joined with the delimiter. */
  function Quoted(fields: seq<seq<byte>>, delimiter: seq<byte>): seq<byte> {
    if fields == [] then []
    else
      var rest := if |fields| == 1 then [] else delimiter + Quoted(fields[1..], delimiter);
      [DOUBLE_QUOTE] + fields[0] + [DOUBLE_QUOTE] + rest
  }

  /** The nonempty fields, encoded. */
  function Kept(fields: seq<seq<byte>>): seq<seq<byte>> {
    if fields == [] then [] else Push([], EncodedAll(fields[0])) + Kept(fields[1..])
  }

  /** Whether an escape is pending after the bytes of s. */
  function EscapedAfter(s: seq<byte>, escaped: bool): bool {
    if s == [] then escaped else EscapedAfter(s[1..], !escaped && s[0] == BACKSLASH)
  }

  /** Every double quote in s is escaped. */
  predicate QuotesEscaped(s: seq<byte>, escaped: bool) {
    s == [] || ((s[0] == DOUBLE_QUOTE ==> escaped) && QuotesEscaped(s[1..], !escaped && s[0] == BACKSLASH))
  }

  /** A field that survives between double quotes: its own quotes are escaped and it leaves no escape pending. */
  predicate Quotable(s: seq<byte>) {
    QuotesEscaped(s, false) && !EscapedAfter(s, false)
  }

  lemma {:induction false} EncodedIsEmptyOnlyForEmpty(s: seq<byte>)
    ensures EncodedAll(s) == [] <==> s == []
  {
  }

  lemma {:induction false} ScanInsideByte(b: byte, rest: seq<byte>, delimiter: seq<byte>, result: seq<seq<byte>>,
                                          current: seq<byte>, escaped: bool)
    requires delimiter != [] && (b == DOUBLE_QUOTE ==> escaped)
    ensures Scan([b] + rest, delimiter, Scanner(result, current, Inside(DOUBLE_QUOTE), escaped)) ==
            Scan(rest, delimiter,
                 Scanner(result, current + Encoded(b), Inside(DOUBLE_QUOTE), !escaped && b == BACKSLASH))
  {
    assert ([b] + rest)[1..] == rest;
  }

  lemma EncodedAllCons(current: seq<byte>, s: seq<byte>)
    requires s != []
    ensures current + Encoded(s[0]) + EncodedAll(s[1..]) == current + EncodedAll(s)
  {
  }

  /** Inside double quotes, bytes whose quotes are escaped are taken over one by one. */
  lemma {:induction false} ScanInside(s: seq<byte>, tail: seq<byte>, delimiter: seq<byte>,
                                      result: seq<seq<byte>>, current: seq<byte>, escaped: bool)
    requires delimiter != [] && QuotesEscaped(s, escaped)
    ensures Scan(s + tail, delimiter, Scanner(result, current, Inside(DOUBLE_QUOTE), escaped)) ==
            Scan(tail, delimiter,
                 Scanner(result, current + EncodedAll(s), Inside(DOUBLE_QUOTE), EscapedAfter(s, escaped)))
    decreases |s|
  {
    if s == [] {
      assert s + tail == tail && current + [] == current;
    } else {
      assert s + tail == [s[0]] + (s[1..] + tail);
      ScanInsideByte(s[0], s[1..] + tail, delimiter, result, current, escaped);
      ScanInside(s[1..], tail, delimiter, result, current + Encoded(s[0]), !escaped && s[0] == BACKSLASH);
      EncodedAllCons(current, s);
    }
  }

  /** A quoted field that leaves no escape pending is taken over whole. */
  lemma ScanQuotedField(f: seq<byte>, tail: seq<byte>, delimiter: seq<byte>, result: seq<seq<byte>>)
    requires delimiter != [] && delimiter[0] != DOUBLE_QUOTE && Quotable(f)
    ensures Scan([DOUBLE_QUOTE] + f + [DOUBLE_QUOTE] + tail, delimiter, Scanner(result, [], Outside, false)) ==
            Scan(tail, delimiter, Scanner(result, EncodedAll(f), Outside, false))
  {
    var input := [DOUBLE_QUOTE] + f + [DOUBLE_QUOTE] + tail;
    assert input[1..] == f + ([DOUBLE_QUOTE] + tail);
    assert !(delimiter <= input);
    ScanInside(f, [DOUBLE_QUOTE] + tail, delimiter, result, [], false);
    assert ([DOUBLE_QUOTE] + tail)[1..] == tail;
    assert [] + EncodedAll(f) == EncodedAll(f);
  }

  lemma {:induction false} ScanDelimiter(tail: seq<byte>, delimiter: seq<byte>, result: seq<seq<byte>>,
                                         current: seq<byte>)
    requires delimiter != []
    ensures Scan(delimiter + tail, delimiter, Scanner(result, current, Outside, false)) ==
            Scan(tail, delimiter, Scanner(Push(result, current), [], Outside, false))
  {
    assert (delimiter + tail)[|delimiter|..] == tail;
  }

  lemma {:induction false} KeptCons(f: seq<byte>, more: seq<seq<byte>>)
    ensures Kept([f] + more) == Push([], EncodedAll(f)) + Kept(more)
  {
    assert ([f] + more)[1..] == more;
  }

  lemma PushThen(result: seq<seq<byte>>, current: seq<byte>, later: seq<seq<byte>>)
    ensures Push(result, current) + later == result + (Push([], current) + later)
  {
    assert [] + later == later && result + ([current] + later) == result + [current] + later;
  }

  lemma {:induction false} PushThenKept(result: seq<seq<byte>>, f: seq<byte>, more: seq<seq<byte>>)
    ensures Push(result, EncodedAll(f)) + Kept(more) == result + Kept([f] + more)
  {
    KeptCons(f, more);
    PushThen(result, EncodedAll(f), Kept(more));
  }

  /** Splitting what the printer made gives back the nonempty fields, encoded. */
  lemma {:induction false} SplitOfQuoted(fields: seq<seq<byte>>, delimiter: seq<byte>, result: seq<seq<byte>>)
    requires delimiter != [] && delimiter[0] != DOUBLE_QUOTE
    requires forall f :: f in fields ==> Quotable(f)
    ensures Scan(Quoted(fields, delimiter), delimiter, Scanner(result, [], Outside, false)) ==
      Fields(result + Kept(fields))
    decreases |fields|
  {
    if fields == [] {
      assert result + [] == result;
    } else {
      var f, more := fields[0], fields[1..];
      assert fields == [f] + more;
      PushThenKept(result, f, more);
      if |fields| == 1 {
        assert Quoted(fields, delimiter) == [DOUBLE_QUOTE] + f + [DOUBLE_QUOTE] + [];
        ScanQuotedField(f, [], delimiter, result);
        assert Push(result, EncodedAll(f)) + [] == Push(result, EncodedAll(f));
      } else {
        ScanQuotedField(f, delimiter + Quoted(more, delimiter), delimiter, result);
        ScanDelimiter(Quoted(more, delimiter), delimiter, result, EncodedAll(f));
        SplitOfQuoted(more, delimiter, Push(result, EncodedAll(f)));
      }
    }
  }

  predicate Ascii(s: seq<byte>) {
    forall i :: 0 <= i < |s| ==> s[i] < 128
  }

  lemma {:induction false} EncodingGrows(s: seq<byte>)
    ensures |EncodedAll(s)| >= |s|
    ensures EncodedAll(s) == s <==> Ascii(s)
  {
    if s != [] {
      EncodingGrows(s[1..]);
      if s[0] < 128 {
        AsciiCons(s);
        SameTail(s[0], EncodedAll(s[1..]), s[1..]);
        assert s == [s[0]] + s[1..];
      }
    }
  }

  lemma AsciiCons(s: seq<byte>)
    requires s != [] && s[0] < 128
    ensures Ascii(s) <==> Ascii(s[1..])
  {
    assert s == [s[0]] + s[1..];
  }

  lemma SameTail(b: byte, x: seq<byte>, y: seq<byte>)
    ensures [b] + x == [b] + y <==> x == y
  {
    assert ([b] + x)[1..] == x && ([b] + y)[1..] == y;
  }

  /** A field that comes back as it was. */
  predicate Unchanged(f: seq<byte>) {
    f != [] && Ascii(f)
  }

  predicate AllUnchanged(fields: seq<seq<byte>>) {
    fields == [] || (Unchanged(fields[0]) && AllUnchanged(fields[1..]))
  }

  lemma {:induction false} AllUnchangedMeansEach(fields: seq<seq<byte>>)
    ensures AllUnchanged(fields) <==> forall f :: f in fields ==> Unchanged(f)
  {
    if fields != [] {
      AllUnchangedMeansEach(fields[1..]);
      assert fields == [fields[0]] + fields[1..];
    }
  }

  lemma {:induction false} KeptIsIdentity(fields: seq<seq<byte>>)
    ensures |Kept(fields)| <= |fields|
    ensures Kept(fields) == fields <==> AllUnchanged(fields)
  {
    if fields != [] {
      var f, more := fields[0], fields[1..];
      KeptIsIdentity(more);
      EncodingGrows(f);
      EncodedIsEmptyOnlyForEmpty(f);
      if f != [] {
        HeadAndTail(Kept(fields), fields);
        assert Kept(fields) == [EncodedAll(f)] + Kept(more);
        assert Kept(fields)[1..] == Kept(more);
      }
    }
  }

  lemma HeadAndTail(a: seq<seq<byte>>, b: seq<seq<byte>>)
    requires a != [] && b != []
    ensures a == b <==> a[0] == b[0] && a[1..] == b[1..]
  {
    assert a == [a[0]] + a[1..] && b == [b[0]] + b[1..];
  }

  // ------------------------------------------------- when the round trip fails

  predicate HasQuote(s: seq<byte>) {
    DOUBLE_QUOTE in s
  }

  /** Once a double quote is part of the current field or of the result, it never goes away. */
  lemma {:induction false} QuoteStays(rest: seq<byte>, delimiter: seq<byte>, st: Scanner)
    requires delimiter != []
    requires HasQuote(st.current) || exists f :: f in st.result && HasQuote(f)
    ensures var r := Scan(rest, delimiter, st); r.NeverClosed? || exists f :: f in r.fields && HasQuote(f)
    decreases |rest|
  {
    assert exists f :: f in Push(st.result, st.current) && HasQuote(f) by {
      if HasQuote(st.current) {
        assert Push(st.result, st.current)[|st.result|] == st.current;
        assert st.current in Push(st.result, st.current);
      } else {
        var f :| f in st.result && HasQuote(f);
        assert f in Push(st.result, st.current);
      }
    }
    if rest != [] {
      if st.quote == Outside && delimiter <= rest {
        QuoteStays(rest[|delimiter|..], delimiter, st.(result := Push(st.result, st.current), current := []));
      } else {
        QuoteStays(rest[1..], delimiter, Step(st, rest[0]));
      }
    }
  }

  /** A field that leaves an escape pending swallows its closing quote. */
  lemma PendingEscapeTaints(f: seq<byte>, tail: seq<byte>, delimiter: seq<byte>, result: seq<seq<byte>>)
    requires delimiter != [] && delimiter[0] != DOUBLE_QUOTE && !HasQuote(f) && EscapedAfter(f, false)
    ensures var r := Scan([DOUBLE_QUOTE] + f + [DOUBLE_QUOTE] + tail, delimiter, Scanner(result, [], Outside, false));
      r.NeverClosed? || exists g :: g in r.fields && HasQuote(g)
  {
    var input := [DOUBLE_QUOTE] + f + [DOUBLE_QUOTE] + tail;
    assert input[1..] == f + ([DOUBLE_QUOTE] + tail);
    assert !(delimiter <= input);
    NoQuoteIsEscaped(f, false);
    ScanInside(f, [DOUBLE_QUOTE] + tail, delimiter, result, [], false);
    var st := Scanner(result, [] + EncodedAll(f), Inside(DOUBLE_QUOTE), true);
    assert ([DOUBLE_QUOTE] + tail)[1..] == tail;
    var next := Step(st, DOUBLE_QUOTE);
    assert next.current == st.current + [DOUBLE_QUOTE];
    QuoteStays(tail, delimiter, next);
  }

  lemma {:induction false} NoQuoteIsEscaped(s: seq<byte>, escaped: bool)
    requires !HasQuote(s)
    ensures QuotesEscaped(s, escaped)
  {
    if s != [] {
      assert s == [s[0]] + s[1..];
      NoQuoteIsEscaped(s[1..], !escaped && s[0] == BACKSLASH);
    }
  }

  /** One field with a pending escape spoils the whole list. */
  lemma {:induction false} PendingEscapeSpoils(fields: seq<seq<byte>>, delimiter: seq<byte>, result: seq<seq<byte>>)
    requires delimiter != [] && delimiter[0] != DOUBLE_QUOTE
    requires forall f :: f in fields ==> !HasQuote(f)
    requires exists f :: f in fields && EscapedAfter(f, false)
    ensures var r := Scan(Quoted(fields, delimiter), delimiter, Scanner(result, [], Outside, false));
      r.NeverClosed? || exists g :: g in r.fields && HasQuote(g)
    decreases |fields|
  {
    var f, more := fields[0], fields[1..];
    var tail := if |fields| == 1 then [] else delimiter + Quoted(more, delimiter);
    assert fields == [f] + more;
    assert Quoted(fields, delimiter) == [DOUBLE_QUOTE] + f + [DOUBLE_QUOTE] + tail;
    if EscapedAfter(f, false) {
      PendingEscapeTaints(f, tail, delimiter, result);
    } else {
      NoQuoteIsEscaped(f, false);
      ScanQuotedField(f, tail, delimiter, result);
      assert tail[|delimiter|..] == Quoted(more, delimiter);
      PendingEscapeSpoils(more, delimiter, Push(result, EncodedAll(f)));
    }
  }

  /** How many backslashes s ends in. */
  function TrailingBackslashes(s: seq<byte>): nat {
    if s == [] || s[|s| - 1] != BACKSLASH then 0 else 1 + TrailingBackslashes(s[..|s| - 1])
  }

  lemma {:induction false} EscapedAfterSnoc(s: seq<byte>, b: byte, escaped: bool)
    ensures EscapedAfter(s + [b], escaped) == (!EscapedAfter(s, escaped) && b == BACKSLASH)
  {
    if s == [] {
      assert s + [b] == [b] && [b][1..] == [];
    } else {
      assert (s + [b])[1..] == s[1..] + [b];
      EscapedAfterSnoc(s[1..], b, !escaped && s[0] == BACKSLASH);
    }
  }

  /** An escape is pending exactly after an odd number of trailing backslashes. */
  lemma {:induction false} PendingMeansOddBackslashes(s: seq<byte>)
    ensures EscapedAfter(s, false) <==> TrailingBackslashes(s) % 2 == 1
  {
    if s != [] {
      var init, last := s[..|s| - 1], s[|s| - 1];
      assert s == init + [last];
      EscapedAfterSnoc(init, last, false);
      PendingMeansOddBackslashes(init);
    }
  }

  /**
   * For fields without double quotes, splitting undoes the printer exactly when every field is
   * nonempty, is ASCII, and does not end in an odd number of backslashes.
   */
  lemma RoundTrip(fields: seq<seq<byte>>, delimiter: seq<byte>)
    requires delimiter != [] && delimiter[0] != DOUBLE_QUOTE
    requires forall f :: f in fields ==> !HasQuote(f)
    ensures Split(Quoted(fields, delimiter), delimiter) == Fields(fields) <==>
      forall f :: f in fields ==> Unchanged(f) && TrailingBackslashes(f) % 2 == 0
  {
    forall f | f in fields
      ensures EscapedAfter(f, false) <==> TrailingBackslashes(f) % 2 == 1
      ensures QuotesEscaped(f, false)
    {
      PendingMeansOddBackslashes(f);
      NoQuoteIsEscaped(f, false);
    }
    if exists f :: f in fields && EscapedAfter(f, false) {
      PendingEscapeSpoils(fields, delimiter, []);
    } else {
      SplitOfQuoted(fields, delimiter, []);
      assert [] + Kept(fields) == Kept(fields);
      KeptIsIdentity(fields);
      AllUnchangedMeansEach(fields);
    }
  }

  // ------------------------------------------------------- input without quotes

  /** Where the delimiter first occurs, if it does. */
  datatype Place = Nowhere | Here(i: nat)

  function FirstOccurrence(s: seq<byte>, delimiter: seq<byte>): (p: Place)
    requires delimiter != []
    ensures p.Here? ==> p.i + |delimiter| <= |s|
  {
    if delimiter <= s then Here(0)
    else if s == [] then Nowhere
    else
      var p := FirstOccurrence(s[1..], delimiter);
      if p.Nowhere? then Nowhere else Here(p.i + 1)
  }

  /** The place found is an occurrence and the first one. */
  lemma {:induction false} FirstOccurrenceIsFirst(s: seq<byte>, delimiter: seq<byte>, k: nat)
    requires delimiter != [] && k <= |s|
    ensures var p := FirstOccurrence(s, delimiter);
      if p.Here? then delimiter <= s[p.i..] && (k < p.i ==> !(delimiter <= s[k..])) else !(delimiter <= s[k..])
  {
    assert s[0..] == s;
    if !(delimiter <= s) && s != [] {
      FirstOccurrenceIsFirst(s[1..], delimiter, if k == 0 then 0 else k - 1);
      assert k > 0 ==> s[k..] == s[1..][k - 1..];
      var p := FirstOccurrence(s[1..], delimiter);
      assert p.Here? ==> s[p.i + 1..] == s[1..][p.i..];
    }
  }

  /** Plain left-to-right splitting at every occurrence of the delimiter. */
  function PlainSplit(s: seq<byte>, delimiter: seq<byte>): (pieces: seq<seq<byte>>)
    requires delimiter != []
    ensures pieces != []
    decreases |s|
  {
    var p := FirstOccurrence(s, delimiter);
    if p.Nowhere? then [s] else [s[..p.i]] + PlainSplit(s[p.i + |delimiter|..], delimiter)
  }

  lemma {:induction false} FirstOccurrenceStep(s: seq<byte>, delimiter: seq<byte>)
    requires delimiter != [] && s != [] && !(delimiter <= s)
    ensures var p := FirstOccurrence(s[1..], delimiter);
      FirstOccurrence(s, delimiter) == if p.Nowhere? then Nowhere else Here(p.i + 1)
  {
  }

  lemma {:induction false} PlainSplitAt(s: seq<byte>, delimiter: seq<byte>)
    requires delimiter != []
    ensures var p := FirstOccurrence(s, delimiter);
      PlainSplit(s, delimiter) == if p.Nowhere? then [s] else [s[..p.i]] + PlainSplit(s[p.i + |delimiter|..], delimiter)
  {
  }

  lemma {:induction false} PlainSplitShifted(s: seq<byte>, delimiter: seq<byte>, i: nat)
    requires delimiter != [] && s != [] && FirstOccurrence(s[1..], delimiter) == Here(i)
    requires FirstOccurrence(s, delimiter) == Here(i + 1)
    ensures var pieces := PlainSplit(s[1..], delimiter);
      PlainSplit(s, delimiter) == [[s[0]] + pieces[0]] + pieces[1..]
  {
    var rest := s[1..];
    PlainSplitAt(s, delimiter);
    PlainSplitAt(rest, delimiter);
    SlicesShift(s, i, |delimiter|);
    HeadGrows(s[0], rest[..i], PlainSplit(rest[i + |delimiter|..], delimiter));
  }

  lemma HeadGrows(b: byte, head: seq<byte>, later: seq<seq<byte>>)
    ensures var pieces := [head] + later; [[b] + head] + later == [[b] + pieces[0]] + pieces[1..]
  {
    assert ([head] + later)[1..] == later;
  }

  lemma SlicesShift(s: seq<byte>, i: nat, n: nat)
    requires i + n < |s|
    ensures s[..i + 1] == [s[0]] + s[1..][..i]
    ensures s[i + 1 + n..] == s[1..][i + n..]
  {
  }

  lemma {:induction false} PlainSplitStep(s: seq<byte>, delimiter: seq<byte>)
    requires delimiter != [] && s != [] && !(delimiter <= s)
    ensures var pieces := PlainSplit(s[1..], delimiter);
      PlainSplit(s, delimiter) == [[s[0]] + pieces[0]] + pieces[1..]
  {
    FirstOccurrenceStep(s, delimiter);
    var p := FirstOccurrence(s[1..], delimiter);
    if p.Here? {
      PlainSplitShifted(s, delimiter, p.i);
    } else {
      assert s == [s[0]] + s[1..];
    }
  }

  lemma {:induction false} PlainSplitAtDelimiter(s: seq<byte>, delimiter: seq<byte>)
    requires delimiter != [] && s != [] && delimiter <= s
    ensures PlainSplit(s, delimiter) == [[]] + PlainSplit(s[|delimiter|..], delimiter)
  {
    assert s[..0] == [];
  }

  /** The fields that come of pieces when the first continues the current field. */
  function Continued(result: seq<seq<byte>>, current: seq<byte>, pieces: seq<seq<byte>>): seq<seq<byte>>
    requires pieces != []
  {
    Push(result, current + EncodedAll(pieces[0])) + Kept(pieces[1..])
  }

  lemma ContinuedAfterPush(result: seq<seq<byte>>, current: seq<byte>, pieces: seq<seq<byte>>)
    requires pieces != []
    ensures Continued(result, current, [[]] + pieces) == Continued(Push(result, current), [], pieces)
  {
    assert current + [] == current && [] + EncodedAll(pieces[0]) == EncodedAll(pieces[0]);
    assert ([[]] + pieces)[0] == [] && ([[]] + pieces)[1..] == pieces;
    PushThenKept(Push(result, current), pieces[0], pieces[1..]);
    assert [pieces[0]] + pieces[1..] == pieces;
  }

  lemma ContinuedByByte(result: seq<seq<byte>>, current: seq<byte>, b: byte, pieces: seq<seq<byte>>)
    requires pieces != []
    ensures Continued(result, current, [[b] + pieces[0]] + pieces[1..]) ==
      Continued(result, current + Encoded(b), pieces)
  {
    assert ([b] + pieces[0])[1..] == pieces[0];
    assert current + (Encoded(b) + EncodedAll(pieces[0])) == current + Encoded(b) + EncodedAll(pieces[0]);
    assert ([[b] + pieces[0]] + pieces[1..])[1..] == pieces[1..];
  }

  lemma {:induction false} ScanWithoutQuotes(rest: seq<byte>, delimiter: seq<byte>, st: Scanner)
    requires delimiter != [] && st.quote == Outside && DOUBLE_QUOTE !in rest && SINGLE_QUOTE !in rest
    ensures Scan(rest, delimiter, st) == Fields(Continued(st.result, st.current, PlainSplit(rest, delimiter)))
    decreases |rest|
  {
    if rest == [] {
      assert PlainSplit(rest, delimiter) == [[]] && st.current + [] == st.current;
      assert Push(st.result, st.current) + [] == Push(st.result, st.current);
    } else if delimiter <= rest {
      var tail := rest[|delimiter|..];
      PlainSplitAtDelimiter(rest, delimiter);
      ScanWithoutQuotes(tail, delimiter, st.(result := Push(st.result, st.current), current := []));
      ContinuedAfterPush(st.result, st.current, PlainSplit(tail, delimiter));
    } else {
      assert rest[0] in rest;
      PlainSplitStep(rest, delimiter);
      ScanWithoutQuotes(rest[1..], delimiter, Step(st, rest[0]));
      ContinuedByByte(st.result, st.current, rest[0], PlainSplit(rest[1..], delimiter));
    }
  }

  /** Without quotes in the input, splitting gives the nonempty pieces of a plain split, encoded. */
  lemma SplitWithoutQuotes(input: seq<byte>, delimiter: seq<byte>)
    requires delimiter != [] && DOUBLE_QUOTE !in input && SINGLE_QUOTE !in input
    ensures Split(input, delimiter) == Fields(Kept(PlainSplit(input, delimiter)))
  {
    ScanWithoutQuotes(input, delimiter, START);
    var pieces := PlainSplit(input, delimiter);
    assert [] + EncodedAll(pieces[0]) == EncodedAll(pieces[0]);
  }
}
