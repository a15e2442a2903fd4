/** Exactly which lists of fields survive being quoted, joined and split again. */
module SplitRoundTrip {
  import opened SplitStrings

  /** The result so far heads these fields, and a nonempty current field begins the next one. */
  predicate Carries(fields: seq<seq<byte>>, result: seq<seq<byte>>, current: seq<byte>) {
    result <= fields && (current != [] ==> |result| < |fields| && current <= fields[|result|])
  }

  lemma {:induction false} ScanCarries(rest: seq<byte>, delimiter: seq<byte>, st: Scanner)
    requires delimiter != []
    ensures var r := Scan(rest, delimiter, st); r.NeverClosed? || Carries(r.fields, st.result, st.current)
    decreases |rest|
  {
    if rest != [] {
      if st.quote == Outside && delimiter <= rest {
        ScanCarries(rest[|delimiter|..], delimiter, st.(result := Push(st.result, st.current), current := []));
      } else {
        ScanCarries(rest[1..], delimiter, Step(st, rest[0]));
      }
    }
  }

  /** Splitting never adds an empty field. */
  lemma {:induction false} NoEmptyFields(rest: seq<byte>, delimiter: seq<byte>, st: Scanner)
    requires delimiter != []
    ensures var r := Scan(rest, delimiter, st);
      r.NeverClosed? || forall k :: |st.result| <= k < |r.fields| ==> r.fields[k] != []
    decreases |rest|
  {
    if rest != [] {
      if st.quote == Outside && delimiter <= rest {
        var next := st.(result := Push(st.result, st.current), current := []);
        NoEmptyFields(rest[|delimiter|..], delimiter, next);
        ScanCarries(rest[|delimiter|..], delimiter, next);
      } else {
        NoEmptyFields(rest[1..], delimiter, Step(st, rest[0]));
      }
    }
  }

  /** Where no single quote follows and no escape is pending, the current field is never continued by a double quote. */
  lemma {:induction false} NoQuoteNext(rest: seq<byte>, delimiter: seq<byte>, st: Scanner)
    requires delimiter != [] && SINGLE_QUOTE !in rest && !st.escaped
    requires st.quote == Outside || st.quote == Inside(DOUBLE_QUOTE)
    ensures var r := Scan(rest, delimiter, st);
      r.NeverClosed? || |r.fields| <= |st.result| || !(st.current + [DOUBLE_QUOTE] <= r.fields[|st.result|])
    decreases |rest|
  {
    if rest != [] {
      if st.quote == Outside && delimiter <= rest {
        var next := st.(result := Push(st.result, st.current), current := []);
        if st.current == [] {
          NoQuoteNext(rest[|delimiter|..], delimiter, next);
        } else {
          ScanCarries(rest[|delimiter|..], delimiter, next);
        }
      } else if rest[0] == DOUBLE_QUOTE {
        NoQuoteNext(rest[1..], delimiter, Step(st, rest[0]));
      } else {
        assert rest[0] in rest;
        var next := Step(st, rest[0]);
        assert next.current[|st.current|] != DOUBLE_QUOTE;
        ScanCarries(rest[1..], delimiter, next);
      }
    }
  }

  predicate High(s: seq<byte>) {
    forall i :: 0 <= i < |s| ==> s[i] >= 128
  }

  lemma EncodingShifts(p: seq<byte>, s: seq<byte>)
    requires s != []
    ensures (p + EncodedAll(s))[1..] == (p + Encoded(s[0]))[1..] + EncodedAll(s[1..])
  {
    EncodedAllCons(p, s);
  }

  /** If encoding s, behind some high bytes, begins with s, then s is ASCII or a high byte follows s. */
  lemma {:induction false} EncodingBehind(p: seq<byte>, s: seq<byte>, whole: seq<byte>)
    requires High(p) && whole == p + EncodedAll(s) && s <= whole
    ensures (p == [] && Ascii(s)) || (|whole| > |s| && whole[|s|] >= 128)
    decreases |s|
  {
    if s != [] {
      EncodingShifts(p, s);
      var p', rest := (p + Encoded(s[0]))[1..], s[1..];
      assert s[0] == whole[0] == (p + Encoded(s[0]))[0];
      EncodingBehind(p', rest, whole[1..]);
      assert s == [s[0]] + rest;
    } else {
      assert whole == p;
    }
  }

  /** The first double quote that is not escaped. */
  lemma {:induction false} FirstUnescaped(s: seq<byte>, escaped: bool) returns (i: nat)
    requires !QuotesEscaped(s, escaped)
    ensures i < |s| && s[i] == DOUBLE_QUOTE && QuotesEscaped(s[..i], escaped) && !EscapedAfter(s[..i], escaped)
  {
    if s[0] == DOUBLE_QUOTE && !escaped {
      i := 0;
    } else {
      i := FirstUnescaped(s[1..], !escaped && s[0] == BACKSLASH);
      i := i + 1;
      assert s[..i][1..] == s[1..][..i - 1];
    }
  }

  /** The first unescaped double quote of a field closes it. */
  lemma ScanToUnescaped(u: seq<byte>, v: seq<byte>, delimiter: seq<byte>, result: seq<seq<byte>>)
    requires delimiter != [] && delimiter[0] != DOUBLE_QUOTE && QuotesEscaped(u, false) && !EscapedAfter(u, false)
    ensures Scan([DOUBLE_QUOTE] + (u + ([DOUBLE_QUOTE] + v)), delimiter, Scanner(result, [], Outside, false)) ==
            Scan(v, delimiter, Scanner(result, EncodedAll(u), Outside, false))
  {
    var input := [DOUBLE_QUOTE] + (u + ([DOUBLE_QUOTE] + v));
    assert input[1..] == u + ([DOUBLE_QUOTE] + v) && ([DOUBLE_QUOTE] + v)[1..] == v;
    ScanInside(u, [DOUBLE_QUOTE] + v, delimiter, result, [], false);
    assert [] + EncodedAll(u) == EncodedAll(u);
  }

  lemma Regrouped(f: seq<byte>, i: nat, tail: seq<byte>)
    requires i < |f| && f[i] == DOUBLE_QUOTE
    ensures [DOUBLE_QUOTE] + f + [DOUBLE_QUOTE] + tail ==
            [DOUBLE_QUOTE] + (f[..i] + ([DOUBLE_QUOTE] + (f[i + 1..] + [DOUBLE_QUOTE] + tail)))
  {
    assert f == f[..i] + [DOUBLE_QUOTE] + f[i + 1..];
  }

  /** An unescaped double quote closes its field early, and what comes back does not go on with a double quote. */
  lemma UnescapedQuoteSpoils(f: seq<byte>, tail: seq<byte>, delimiter: seq<byte>, result: seq<seq<byte>>,
                             more: seq<seq<byte>>)
    requires delimiter != [] && delimiter[0] != DOUBLE_QUOTE && !QuotesEscaped(f, false)
    requires SINGLE_QUOTE !in f && SINGLE_QUOTE !in tail
    ensures Scan([DOUBLE_QUOTE] + f + [DOUBLE_QUOTE] + tail, delimiter, Scanner(result, [], Outside, false)) !=
            Fields(result + [f] + more)
  {
    var i := FirstUnescaped(f, false);
    var u, v := f[..i], f[i + 1..] + [DOUBLE_QUOTE] + tail;
    Regrouped(f, i, tail);
    ScanToUnescaped(u, v, delimiter, result);
    assert SINGLE_QUOTE !in v;
    ClosedEarly(f, i, v, delimiter, result);
    assert (result + [f] + more)[|result|] == f;
  }

  lemma ClosedEarly(f: seq<byte>, i: nat, v: seq<byte>, delimiter: seq<byte>, result: seq<seq<byte>>)
    requires delimiter != [] && i < |f| && f[i] == DOUBLE_QUOTE && SINGLE_QUOTE !in v
    ensures var r := Scan(v, delimiter, Scanner(result, EncodedAll(f[..i]), Outside, false));
      r.NeverClosed? || |r.fields| <= |result| || r.fields[|result|] != f
  {
    var closed := Scanner(result, EncodedAll(f[..i]), Outside, false);
    NoQuoteNext(v, delimiter, closed);
    ScanCarries(v, delimiter, closed);
    if EncodedAll(f[..i]) <= f {
      CannotBe(f, i);
    }
  }

  lemma CannotBe(f: seq<byte>, i: nat)
    requires i < |f| && f[i] == DOUBLE_QUOTE && EncodedAll(f[..i]) <= f
    ensures EncodedAll(f[..i]) + [DOUBLE_QUOTE] <= f
  {
    var u := f[..i];
    EncodingGrows(u);
    assert [] + EncodedAll(u) == EncodedAll(u);
    EncodingBehind([], u, EncodedAll(u));
  }

  /** A field whose quotes are escaped comes back longer when it leaves an escape pending or holds a high byte. */
  lemma LongerFieldSpoils(f: seq<byte>, tail: seq<byte>, delimiter: seq<byte>, result: seq<seq<byte>>,
                          more: seq<seq<byte>>)
    requires delimiter != [] && delimiter[0] != DOUBLE_QUOTE && QuotesEscaped(f, false)
    requires EscapedAfter(f, false) || !Ascii(f)
    ensures Scan([DOUBLE_QUOTE] + f + [DOUBLE_QUOTE] + tail, delimiter, Scanner(result, [], Outside, false)) !=
            Fields(result + [f] + more)
  {
    EncodingGrows(f);
    if EscapedAfter(f, false) {
      var input := [DOUBLE_QUOTE] + f + [DOUBLE_QUOTE] + tail;
      assert input[1..] == f + ([DOUBLE_QUOTE] + tail) && ([DOUBLE_QUOTE] + tail)[1..] == tail;
      ScanInside(f, [DOUBLE_QUOTE] + tail, delimiter, result, [], false);
      var st := Scanner(result, [] + EncodedAll(f), Inside(DOUBLE_QUOTE), true);
      ScanCarries(tail, delimiter, Step(st, DOUBLE_QUOTE));
    } else {
      ScanQuotedField(f, tail, delimiter, result);
      EncodedIsEmptyOnlyForEmpty(f);
      ScanCarries(tail, delimiter, Scanner(result, EncodedAll(f), Outside, false));
    }
  }

  /** A field that comes back as it was when it is quoted. */
  predicate Survives(f: seq<byte>) {
    Unchanged(f) && Quotable(f)
  }

  /** Either no field has a double quote that is not escaped, or there are no single quotes around. */
  predicate OneKindOfQuote(fields: seq<seq<byte>>, delimiter: seq<byte>) {
    || (forall f :: f in fields ==> QuotesEscaped(f, false))
    || (SINGLE_QUOTE !in delimiter && forall f :: f in fields ==> SINGLE_QUOTE !in f)
  }

  lemma {:induction false} QuotedHasNoSingleQuote(fields: seq<seq<byte>>, delimiter: seq<byte>)
    requires SINGLE_QUOTE !in delimiter && forall f :: f in fields ==> SINGLE_QUOTE !in f
    ensures SINGLE_QUOTE !in Quoted(fields, delimiter)
  {
    if fields != [] {
      QuotedHasNoSingleQuote(fields[1..], delimiter);
    }
  }

  /** One field that does not survive spoils the whole list. */
  lemma {:induction false} Spoilt(fields: seq<seq<byte>>, delimiter: seq<byte>, result: seq<seq<byte>>)
    requires delimiter != [] && delimiter[0] != DOUBLE_QUOTE && OneKindOfQuote(fields, delimiter)
    requires exists f :: f in fields && !Survives(f)
    ensures Scan(Quoted(fields, delimiter), delimiter, Scanner(result, [], Outside, false)) != Fields(result + fields)
    decreases |fields|
  {
    var f, more := fields[0], fields[1..];
    var tail := if |fields| == 1 then [] else delimiter + Quoted(more, delimiter);
    assert fields == [f] + more && result + fields == result + [f] + more;
    assert Quoted(fields, delimiter) == [DOUBLE_QUOTE] + f + [DOUBLE_QUOTE] + tail;
    if f == [] {
      NoEmptyFields(Quoted(fields, delimiter), delimiter, Scanner(result, [], Outside, false));
      assert (result + fields)[|result|] == [];
    } else if !QuotesEscaped(f, false) {
      QuotedHasNoSingleQuote(more, delimiter);
      UnescapedQuoteSpoils(f, tail, delimiter, result, more);
    } else if EscapedAfter(f, false) || !Ascii(f) {
      LongerFieldSpoils(f, tail, delimiter, result, more);
    } else {
      EncodingGrows(f);
      ScanQuotedField(f, tail, delimiter, result);
      ScanDelimiter(Quoted(more, delimiter), delimiter, result, f);
      Spoilt(more, delimiter, result + [f]);
    }
  }

  /**
   * Splitting undoes the printer exactly when every field is nonempty ASCII, has its double quotes
   * escaped and leaves no escape pending.
   */
  lemma RoundTripExactly(fields: seq<seq<byte>>, delimiter: seq<byte>)
    requires delimiter != [] && delimiter[0] != DOUBLE_QUOTE && OneKindOfQuote(fields, delimiter)
    ensures Split(Quoted(fields, delimiter), delimiter) == Fields(fields) <==> forall f :: f in fields ==> Survives(f)
  {
    assert [] + fields == fields;
    if exists f :: f in fields && !Survives(f) {
      Spoilt(fields, delimiter, []);
    } else {
      SplitOfQuoted(fields, delimiter, []);
      KeptIsIdentity(fields);
      AllUnchangedMeansEach(fields);
      assert [] + Kept(fields) == Kept(fields);
    }
  }
}
