/** What applying a licence header does to a file, whatever the file's comment style. */
module LicenseLaws {
  import opened LicenseText
  import opened LicenseHeader

  /**
   * A header whose lines are all comments, whose first line carries the copyright, and whose licence identifier comes
   * last but for empty comments.
   */
  ghost predicate GoodHeader(h: seq<string>, look: Reader) {
    && h != [] && AllPlain(h) && !("#!" <= h[0]) && h[|h| - 1] != ""
    && (forall l :: l in h ==> look(l).comment)
    && look(h[0]).copyright.Of? && look(h[0]).copyright.value != ""
    && exists m :: 0 < m < |h| && IdentifierAt(h, look, m)
  }

  ghost predicate IdentifierAt(h: seq<string>, look: Reader, m: nat)
    requires 0 < m < |h|
  {
    && look(h[m]).license.Of? && look(h[m]).license.value != ""
    && (forall i :: 0 < i < m ==> look(h[i]).license.Absent?)
    && (forall i :: m < i < |h| ==> look(h[i]).Skippable())
  }

  /** The identifier the header carries. */
  function Identifier(h: seq<string>, look: Reader): string
    requires h != []
  {
    LicenseOf(h[1..], look)
  }

  /** Blank lines and empty comments that come first; the code takes them for a part of the header above them. */
  function EmptyRun(ls: seq<string>, look: Reader): (n: nat)
    ensures n <= |ls|
  {
    if ls == [] || look(ls[0]).Code() || !look(ls[0]).Skippable() then 0 else 1 + EmptyRun(ls[1..], look)
  }

  lemma {:induction false} AfterEmptyRun(ls: seq<string>, look: Reader)
    ensures EmptyRun(ls[EmptyRun(ls, look)..], look) == 0
  {
    if ls != [] && !look(ls[0]).Code() && look(ls[0]).Skippable() {
      AfterEmptyRun(ls[1..], look);
      var n := EmptyRun(ls[1..], look);
      assert ls[1 + n..] == ls[1..][n..];
    } else {
      assert ls[0..] == ls;
    }
  }

  // ------------------------------------------------- the header found again

  lemma {:induction false} BodyAfterIdentifier(ls: seq<string>, look: Reader, license: string)
    requires license != ""
    ensures BodyLength(ls, look, license) == EmptyRun(ls, look)
  {
    if ls != [] && !EndsHeader(look(ls[0]), license) {
      BodyAfterIdentifier(ls[1..], look, license);
    }
  }

  lemma {:induction false} SkippablesRun(a: seq<string>, b: seq<string>, look: Reader)
    requires forall i :: 0 <= i < |a| ==> look(a[i]).Skippable() && !look(a[i]).Code()
    ensures EmptyRun(a + b, look) == |a| + EmptyRun(b, look)
  {
    if a == [] {
      assert a + b == b;
    } else {
      assert (a + b)[0] == a[0] && (a + b)[1..] == a[1..] + b;
      SkippablesRun(a[1..], b, look);
    }
  }

  /** The header's lines after the first, up to and with the identifier, do not end it. */
  lemma {:induction false} BodyToIdentifier(a: seq<string>, line: string, b: seq<string>, look: Reader)
    requires forall i :: 0 <= i < |a| ==> look(a[i]).comment && look(a[i]).license.Absent?
    requires look(line).comment && look(line).license.Of? && look(line).license.value != ""
    ensures BodyLength(a + [line] + b, look, "") == |a| + 1 + EmptyRun(b, look)
  {
    if a == [] {
      assert a + [line] + b == [line] + b && ([line] + b)[1..] == b;
      BodyAfterIdentifier(b, look, look(line).license.value);
    } else {
      assert (a + [line] + b)[0] == a[0] && (a + [line] + b)[1..] == a[1..] + [line] + b;
      BodyToIdentifier(a[1..], line, b, look);
    }
  }

  lemma {:induction false} BodyOfGoodHeader(h: seq<string>, look: Reader, x: seq<string>)
    requires GoodHeader(h, look) && look("").blank
    ensures BodyLength(h[1..] + [""] + x, look, "") == |h| + EmptyRun(x, look)
  {
    var m :| 0 < m < |h| && IdentifierAt(h, look, m);
    var a, c := h[1..m], h[m + 1..] + [""];
    assert forall i :: 0 <= i < |h| ==> h[i] in h;
    assert h[1..] + [""] + x == a + [h[m]] + (c + x);
    BodyToIdentifier(a, h[m], c + x, look);
    SkippablesRun(c, x, look);
  }

  lemma {:induction false} LicenseKept(a: seq<string>, b: seq<string>, look: Reader)
    requires LicenseOf(a, look) != ""
    ensures LicenseOf(a + b, look) == LicenseOf(a, look)
    decreases |b|
  {
    if b == [] {
      assert a + b == a;
    } else {
      assert (a + b)[..|a + b| - 1] == a + b[..|b| - 1];
      LicenseKept(a, b[..|b| - 1], look);
    }
  }

  lemma {:induction false} CopyrightKept(line: string, b: seq<string>, look: Reader)
    requires look(line).copyright.Of? && look(line).copyright.value != ""
    ensures CopyrightOf([line] + b, look) == look(line).copyright.value
    decreases |b|
  {
    if b == [] {
      assert [line] + b == [line] && [line][..0] == [];
    } else {
      assert ([line] + b)[..|b|] == [line] + b[..|b| - 1];
      CopyrightKept(line, b[..|b| - 1], look);
    }
  }

  lemma {:induction false} NoLicenseBefore(a: seq<string>, look: Reader)
    requires forall i :: 0 <= i < |a| ==> look(a[i]).license.Absent?
    ensures LicenseOf(a, look) == ""
    decreases |a|
  {
    if a != [] {
      NoLicenseBefore(a[..|a| - 1], look);
    }
  }

  lemma {:induction false} IdentifierIs(h: seq<string>, look: Reader, m: nat)
    requires 0 < m < |h| && IdentifierAt(h, look, m)
    ensures Identifier(h, look) == look(h[m]).license.value
  {
    NoLicenseBefore(h[1..m], look);
    assert h[1..m + 1][..m - 1] == h[1..m];
    assert h[1..] == h[1..m + 1] + h[m + 1..];
    LicenseKept(h[1..m + 1], h[m + 1..], look);
  }

  lemma {:induction false} IdentifierIsFound(h: seq<string>, look: Reader)
    requires GoodHeader(h, look)
    ensures Identifier(h, look) != ""
  {
    var m :| 0 < m < |h| && IdentifierAt(h, look, m);
    IdentifierIs(h, look, m);
  }

  /** Lines that neither start a header nor are code leave the search going. */
  lemma {:induction false} PreambleAhead(f: seq<string>, ls: seq<string>, look: Reader)
    requires forall i :: 0 <= i < |f| ==> !look(f[i]).StartsHeader() && !look(f[i]).Code()
    ensures Preamble(f + ls, look) == |f| + Preamble(ls, look)
  {
    if f == [] {
      assert f + ls == ls;
    } else {
      assert (f + ls)[0] == f[0] && (f + ls)[1..] == f[1..] + ls;
      PreambleAhead(f[1..], ls, look);
    }
  }

  lemma {:induction false} TopShape<T>(h: seq<T>, one: T, x: seq<T>, e: nat)
    requires h != [] && e <= |x|
    ensures var all, end := h + [one] + x, 1 + |h| + e;
      && all[0] == h[0] && all[1..] == h[1..] + [one] + x
      && all[..end] == [h[0]] + (h[1..] + [one] + x[..e])
      && all[1..end] == h[1..] + ([one] + x[..e])
  {
  }

  /** What the lines of a good header say, with one blank line and e more lines after it. */
  lemma {:induction false} TopSays(h: seq<string>, x: seq<string>, e: nat, look: Reader)
    requires GoodHeader(h, look) && e <= |x|
    ensures CopyrightOf((h + [""] + x)[..1 + |h| + e], look) == look(h[0]).copyright.value
    ensures LicenseOf((h + [""] + x)[1..1 + |h| + e], look) == Identifier(h, look)
  {
    TopShape(h, "", x, e);
    CopyrightKept(h[0], h[1..] + [""] + x[..e], look);
    IdentifierIsFound(h, look);
    LicenseKept(h[1..], [""] + x[..e], look);
  }

  lemma {:induction false} Shifted<T>(f: seq<T>, all: seq<T>, n: nat)
    requires n < |all|
    ensures (f + all)[|f|] == all[0] && (f + all)[|f| + 1..] == all[1..]
    ensures (f + all)[|f|..|f| + 1 + n] == all[..1 + n] && (f + all)[|f| + 1..|f| + 1 + n] == all[1..1 + n]
  {
  }

  /** A header after lines that are neither header nor code. */
  lemma {:induction false} HeaderInAs(f: seq<string>, all: seq<string>, look: Reader, n: nat, copyright: string,
                                      license: string)
    requires forall i :: 0 <= i < |f| ==> !look(f[i]).StartsHeader() && !look(f[i]).Code()
    requires all != [] && look(all[0]).StartsHeader() && BodyLength(all[1..], look, "") == n
    requires CopyrightOf(all[..1 + n], look) == copyright && LicenseOf(all[1..1 + n], look) == license
    ensures HeaderIn(f + all, look) == HeaderInfo(true, false, copyright, license, all[..1 + n], |f| + n + 2)
  {
    PreambleAhead(f, all, look);
    Shifted(f, all, n);
  }

  lemma {:induction false} GoodHeaderStarts(h: seq<string>, look: Reader)
    requires GoodHeader(h, look)
    ensures look(h[0]).StartsHeader()
  {
    assert h[0] in h;
  }

  /** The header's own lines, the blank line after it and the empty run below, after k other lines. */
  function FoundInfo(k: nat, h: seq<string>, x: seq<string>, look: Reader): HeaderInfo
    requires h != [] && look(h[0]).copyright.Of?
  {
    var e := EmptyRun(x, look);
    HeaderInfo(true, false, look(h[0]).copyright.value, Identifier(h, look), (h + [""] + x)[..1 + |h| + e],
               k + |h| + e + 2)
  }

  /** A good header with one blank line after it is found again, with what it says. */
  lemma {:induction false} HeaderFoundAgain(f: seq<string>, h: seq<string>, x: seq<string>, look: Reader)
    requires GoodHeader(h, look) && look("").blank
    requires forall i :: 0 <= i < |f| ==> !look(f[i]).StartsHeader() && !look(f[i]).Code()
    ensures HeaderIn(f + (h + [""] + x), look) == FoundInfo(|f|, h, x, look)
  {
    GoodTop(h, x, look);
    HeaderInAs(f, h + [""] + x, look, |h| + EmptyRun(x, look), look(h[0]).copyright.value, Identifier(h, look));
  }

  /** What the lines from a good header on say. */
  lemma {:induction false} GoodTop(h: seq<string>, x: seq<string>, look: Reader)
    requires GoodHeader(h, look) && look("").blank
    ensures var all, n := h + [""] + x, |h| + EmptyRun(x, look);
      && all != [] && look(all[0]).StartsHeader() && BodyLength(all[1..], look, "") == n && 1 + n <= |all|
      && CopyrightOf(all[..1 + n], look) == look(h[0]).copyright.value
      && LicenseOf(all[1..1 + n], look) == Identifier(h, look)
  {
    GoodHeaderStarts(h, look);
    BodyBelowFirst(h, x, look);
    TopSays(h, x, EmptyRun(x, look), look);
  }

  lemma {:induction false} BodyBelowFirst(h: seq<string>, x: seq<string>, look: Reader)
    requires GoodHeader(h, look) && look("").blank
    ensures BodyLength((h + [""] + x)[1..], look, "") == |h| + EmptyRun(x, look)
  {
    TopShape(h, "", x, 0);
    BodyOfGoodHeader(h, look, x);
  }

  // ------------------------------------------------------- rewritten files

  /** Nothing, or a first line that starts a script. */
  ghost predicate ShebangLine(sb: string) {
    sb == "" || ("#!" <= sb && sb[|sb| - 1] == '\n' && OneLine(sb[..|sb| - 1]) && |sb| <= MAX_TOKEN_SIZE)
  }

  /** The scanned shebang line, if there is one. */
  function ShebangLines(sb: string): seq<string> {
    if sb == "" then [] else [Chomp(sb[..|sb| - 1])]
  }

  function Front(sb: string, h: seq<string>): string {
    sb + Text(h) + "\n"
  }

  lemma {:induction false} SpacerAfter(t: string, last: string)
    requires last != "" && OneLine(last)
    ensures Spacer(t + last + "\n") == "\n"
  {
    var all := t + last + "\n";
    var c := last[|last| - 1];
    assert c in last;
    assert all[|all| - 2..] == [c, '\n'];
  }

  lemma {:induction false} TextEnds(h: seq<string>)
    requires h != [] && AllPlain(h) && h[|h| - 1] != ""
    ensures Spacer(Text(h)) == "\n"
  {
    var init, last := h[..|h| - 1], h[|h| - 1];
    assert h == init + [last] && last in h;
    TextSnoc(init, last);
    SpacerAfter(Text(init), last);
  }

  lemma {:induction false} BlankAhead(body: string)
    ensures RawLines("\n" + body) == [""] + RawLines(body)
  {
    LineAhead("", body);
    assert "" + "\n" + body == "\n" + body;
  }

  lemma {:induction false} InnerLines(h: seq<string>, body: string)
    requires OneLiners(h)
    ensures RawLines(Text(h) + "\n" + body) == h + [""] + RawLines(body)
  {
    BlankAhead(body);
    LinesAhead(h, "\n" + body);
    Assoc(Text(h), "\n", body);
    Assoc(h, [""], RawLines(body));
  }

  lemma {:induction false} Assoc<T>(a: seq<T>, b: seq<T>, c: seq<T>)
    ensures a + b + c == a + (b + c)
  {
  }

  lemma {:induction false} Regroup<T>(a: seq<T>, b: seq<T>, c: seq<T>, d: seq<T>)
    ensures a + b + c + d == a + (b + c + d)
  {
  }

  /** The raw shebang line, if there is one. */
  function RawShebang(sb: string): seq<string> {
    if sb == "" then [] else [sb[..|sb| - 1]]
  }

  lemma {:induction false} FrontLines(sb: string, h: seq<string>, body: string)
    requires ShebangLine(sb) && OneLiners(h)
    ensures RawLines(Front(sb, h) + body) == RawShebang(sb) + (h + [""] + RawLines(body))
  {
    var inner := Text(h) + "\n" + body;
    InnerLines(h, body);
    Regroup(sb, Text(h), "\n", body);
    if sb == "" {
      assert sb + inner == inner;
    } else {
      var line := sb[..|sb| - 1];
      assert sb == line + "\n";
      LineAhead(line, inner);
    }
  }

  lemma {:induction false} FrontScanned(sb: string, h: seq<string>, body: string)
    requires ShebangLine(sb) && AllPlain(h)
    ensures Scanned(Front(sb, h) + body) ==
      Scan(ShebangLines(sb) + (h + [""] + Scanned(body).lines), Scanned(body).tooLong)
  {
    var rest := h + [""] + RawLines(body);
    FrontLines(sb, h, body);
    InnerScanned(h, RawLines(body));
    ShebangScanned(sb);
    ScanRawConcat(RawShebang(sb), rest);
  }

  lemma {:induction false} InnerScanned(h: seq<string>, rest: seq<string>)
    requires AllPlain(h)
    ensures ScanRaw(h + [""] + rest) == Scan(h + [""] + ScanRaw(rest).lines, ScanRaw(rest).tooLong)
  {
    ScanPlain(h + [""]);
    ScanRawConcat(h + [""], rest);
  }

  lemma {:induction false} ShebangScanned(sb: string)
    requires ShebangLine(sb)
    ensures ScanRaw(RawShebang(sb)) == Scan(ShebangLines(sb), false)
  {
    if sb != "" {
      assert RawShebang(sb)[1..] == [];
    }
  }

  lemma {:induction false} FrontShebang(sb: string, h: seq<string>, body: string)
    requires ShebangLine(sb) && h != [] && OneLiners(h) && !("#!" <= h[0])
    ensures Shebang(Front(sb, h) + body) == sb
  {
    var inner := Text(h) + "\n" + body;
    Regroup(sb, Text(h), "\n", body);
    if sb == "" {
      assert sb + inner == inner && h[0] in h;
      Regroup(h[0], "\n", Text(h[1..]), "\n" + body);
      Regroup(h[0] + "\n", Text(h[1..]), "\n", body);
      ShebangOfLine(h[0], Text(h[1..]) + "\n" + body);
    } else {
      var line := sb[..|sb| - 1];
      assert sb == line + "\n";
      ShebangOfLine(line, inner);
    }
  }

  /** After a header that ends its last line a blank line follows, written only if the header does not bring it. */
  lemma {:induction false} SpacerMakesBlankLine(header: string)
    requires header != "" && header[|header| - 1] == '\n'
    ensures var front := header + Spacer(header);
      && |front| >= 2 && front[|front| - 2] == '\n' && front[|front| - 1] == '\n'
      && (front == header <==> |header| >= 2 && header[|header| - 2] == '\n')
  {
    if |header| >= 2 {
      assert header[|header| - 2..] == [header[|header| - 2], header[|header| - 1]];
    }
  }

  /** A shebang may be the whole file. */
  lemma {:induction false} ShebangIsWholeFile(t: string)
    requires OneLine(t)
    ensures Shebang(t) == if |t| >= 2 && t[0] == '#' && t[1] == '!' then t else ""
  {
    assert FirstNewline(t) == |t| by {
      NoNewlineFound(t);
    }
  }

  lemma {:induction false} NoNewlineFound(t: string)
    requires OneLine(t)
    ensures FirstNewline(t) == |t|
  {
    if t != "" {
      assert t == [t[0]] + t[1..];
      NoNewlineFound(t[1..]);
    }
  }

  lemma {:induction false} ShebangOfLine(line: string, rest: string)
    requires OneLine(line)
    ensures Shebang(line + "\n" + rest) == if "#!" <= line then line + "\n" else ""
  {
    FirstNewlineAfter(line, rest);
    var t := line + "\n" + rest;
    assert t[..|line| + 1] == line + "\n";
    if "#!" <= line {
      assert (line + "\n")[..2] == line[..2];
    }
  }

  lemma {:induction false} LicenseInFront(sb: string, h: seq<string>, body: string)
    requires HasLicenseHeader(sb + Text(h))
    ensures HasLicenseHeader(Front(sb, h) + body)
  {
    var s, t := sb + Text(h), Front(sb, h) + body;
    var a, b := if |s| < 1000 then s else s[..1000], if |t| < 1000 then t else t[..1000];
    assert a == b[..|a|];
    MentionsInPrefix(b, |a|);
  }

  lemma {:induction false} MentionsInPrefix(s: string, n: nat)
    requires n <= |s| && MentionsLicense(s[..n])
    ensures MentionsLicense(s)
  {
    var low := ToLower(s);
    assert ToLower(s[..n]) == low[..n];
    if Contains(low[..n], "copyright") {
      ContainsInPrefix(low, n, "copyright");
    } else if Contains(low[..n], "mozilla public") {
      ContainsInPrefix(low, n, "mozilla public");
    } else {
      ContainsInPrefix(low, n, "spdx-license-identifier");
    }
  }

  /** The shebang neither mentions a licence nor counts as code. */
  ghost predicate CommentShebang(sb: string, look: Reader) {
    forall l :: l in ShebangLines(sb) ==> !look(l).StartsHeader() && !look(l).Code()
  }

  /** The body lines a second application keeps: those below the empty run. */
  function KeptBelow(body: string, look: Reader): seq<string> {
    var ls := Scanned(body).lines;
    ls[EmptyRun(ls, look)..]
  }

  /** The scanner gives up on the body before any content is found. */
  predicate NothingBelow(body: string, look: Reader) {
    Scanned(body).tooLong && KeptBelow(body, look) == []
  }

  /** What a file with the header in front says about itself. */
  lemma {:induction false} FrontParsed(sb: string, h: seq<string>, body: string, look: Reader)
    requires ShebangLine(sb) && CommentShebang(sb, look) && GoodHeader(h, look) && look("").blank
    ensures ParsedLines(Scanned(Front(sb, h) + body), look) ==
      if NothingBelow(body, look) then Failed
      else Parsed(FoundInfo(|ShebangLines(sb)|, h, Scanned(body).lines, look))
  {
    FrontScanned(sb, h, body);
    HeaderFoundAgain(ShebangLines(sb), h, Scanned(body).lines, look);
  }

  /**
   * Applying the header to a file that carries it in front: the header is recognised and written again, and only
   * blank lines and empty comments right below it are lost.
   */
  lemma {:induction false} Reapplied(sb: string, h: seq<string>, body: string, look: Reader)
    requires ShebangLine(sb) && CommentShebang(sb, look) && GoodHeader(h, look) && look("").blank
    ensures Exchanged(Front(sb, h) + body, Text(h), look) ==
      if NothingBelow(body, look) then Unreadable else Applied(Front(sb, h) + Text(KeptBelow(body, look)))
  {
    var ls := Scanned(body).lines;
    FrontParsed(sb, h, body, look);
    FrontReplaced(sb, h, body, look);
    ExchangedAs(Front(sb, h) + body, Text(h), look, NothingBelow(body, look),
      FoundInfo(|ShebangLines(sb)|, h, ls, look), Front(sb, h) + Text(KeptBelow(body, look)));
  }

  lemma {:induction false} ExchangedAs(t: string, header: string, look: Reader, failed: bool, info: HeaderInfo,
                                       out: string)
    requires ParsedLines(Scanned(t), look) == if failed then Failed else Parsed(info)
    requires !failed ==> Replaced(t, header, info.contentStartLine) == out
    ensures Exchanged(t, header, look) == if failed then Unreadable else Applied(out)
  {
  }

  lemma {:induction false} FrontReplaced(sb: string, h: seq<string>, body: string, look: Reader)
    requires ShebangLine(sb) && h != [] && AllPlain(h) && h[|h| - 1] != "" && !("#!" <= h[0]) &&
      look(h[0]).copyright.Of?
    ensures Replaced(Front(sb, h) + body, Text(h),
                     FoundInfo(|ShebangLines(sb)|, h, Scanned(body).lines, look).contentStartLine) ==
      Front(sb, h) + Text(KeptBelow(body, look))
  {
    var ls := Scanned(body).lines;
    FrontScanned(sb, h, body);
    FrontShebang(sb, h, body);
    TextEnds(h);
    FrontKept(sb, h, ls, look);
    ReplacedAs(Front(sb, h) + body, Text(h), FoundInfo(|ShebangLines(sb)|, h, ls, look).contentStartLine, sb,
               KeptBelow(body, look));
  }

  lemma {:induction false} ReplacedAs(t: string, header: string, start: nat, sb: string, kept: seq<string>)
    requires Shebang(t) == sb && Spacer(header) == "\n" && Kept(Scanned(t).lines, start, sb != "") == kept
    ensures Replaced(t, header, start) == sb + header + "\n" + Text(kept)
  {
  }

  lemma {:induction false} FrontKept(sb: string, h: seq<string>, x: seq<string>, look: Reader)
    requires h != [] && look(h[0]).copyright.Of?
    ensures var ls := ShebangLines(sb) + (h + [""] + x);
      Kept(ls, FoundInfo(|ShebangLines(sb)|, h, x, look).contentStartLine, sb != "") == x[EmptyRun(x, look)..]
  {
    DropFront(ShebangLines(sb), h + [""], x, EmptyRun(x, look));
  }

  lemma {:induction false} DropFront<T>(a: seq<T>, b: seq<T>, x: seq<T>, e: nat)
    requires e <= |x|
    ensures (a + (b + x))[|a| + |b| + e..] == x[e..]
  {
  }
}
