/** Applying a header again and again, checking what was applied, and what a rewrite keeps. */
module LicenseFixpoint {
  import opened LicenseText
  import opened LicenseHeader
  import opened LicenseLaws

  /** The file after applying; a file that cannot be read stays as it is. */
  function Apply(t: string, h: seq<string>, look: Reader): string {
    match WithHeader(t, Text(h), look)
    case Applied(x) => x
    case Unreadable => t
  }

  /** The shebang line as a rewritten file starts with it. */
  function StartOf(t: string): string {
    var s := Shebang(t);
    if s != "" && s[|s| - 1] != '\n' then s + "\n" else s
  }

  /** The shebang, if any, is a short comment without a licence, so that the header below it is found. */
  ghost predicate Ready(t: string, h: seq<string>, look: Reader) {
    var sb := StartOf(t);
    && |sb| <= MAX_TOKEN_SIZE && CommentShebang(sb, look) && !MentionsLicense(sb)
    && HasLicenseHeader(sb + Text(h))
  }

  lemma {:induction false} StartIsShebangLine(t: string)
    requires |StartOf(t)| <= MAX_TOKEN_SIZE
    ensures ShebangLine(StartOf(t))
    ensures Shebang(t) == StartOf(t) || Shebang(t) == t
  {
    var i := FirstNewline(t);
    var sb := StartOf(t);
    if sb != "" {
      if i < |t| {
        assert sb == t[..i + 1] && sb[..|sb| - 1] == t[..i];
      } else {
        assert t[..i] == t;
        assert Shebang(t) == t && sb[..|sb| - 1] == t;
      }
    }
  }

  /** A file is its shebang line and the rest. */
  lemma {:induction false} LinesBelowShebang(t: string)
    requires Shebang(t) == StartOf(t) && ShebangLine(Shebang(t))
    ensures var sb := Shebang(t);
      sb <= t && RawLines(t) == RawShebang(sb) + RawLines(t[|sb|..])
  {
    var sb := Shebang(t);
    if sb == "" {
      assert t[0..] == t;
    } else {
      var line, rest := sb[..|sb| - 1], t[|sb|..];
      assert sb == line + "\n" && t == sb + rest;
      LineAhead(line, rest);
    }
  }

  // --------------------------------------------- the shape of a rewritten file

  /** What follows the header and its blank line. */
  function BodyAfter(t: string, look: Reader): string {
    if !HasLicenseHeader(t) then t[|Shebang(t)|..]
    else Text(Kept(Scanned(t).lines, HeaderIn(Scanned(t).lines, look).contentStartLine, Shebang(t) != ""))
  }

  lemma {:induction false} PrependedForm(t: string, h: seq<string>)
    requires GoodText(h)
    ensures Prepended(t, Text(h)) == Front(StartOf(t), h) + t[|Shebang(t)|..]
  {
    var shebang := Shebang(t);
    var sep := if shebang != "" && shebang[|shebang| - 1] != '\n' then "\n" else "";
    assert shebang + sep == StartOf(t);
    TextEnds(h);
  }

  ghost predicate GoodText(h: seq<string>) {
    h != [] && AllPlain(h) && h[|h| - 1] != ""
  }

  lemma {:induction false} MentionBeforeNewline(t: string)
    requires HasLicenseHeader(t)
    ensures MentionsLicense(t + "\n")
  {
    var n := if |t| < 1000 then |t| else 1000;
    assert (if |t| < 1000 then t else t[..1000]) == (t + "\n")[..n];
    MentionsInPrefix(t + "\n", n);
  }

  lemma {:induction false} ReplacedForm(t: string, h: seq<string>, look: Reader, start: nat)
    requires GoodText(h) && HasLicenseHeader(t) && !MentionsLicense(StartOf(t))
    ensures Shebang(t) == StartOf(t)
    ensures Replaced(t, Text(h), start) == Front(StartOf(t), h) + Text(Kept(Scanned(t).lines, start, Shebang(t) != ""))
  {
    TextEnds(h);
    if Shebang(t) != StartOf(t) {
      MentionBeforeNewline(t);
    }
  }

  /** Whatever was applied, the result is the shebang, the header, a blank line and the body. */
  lemma {:induction false} AppliedForm(t: string, h: seq<string>, look: Reader)
    requires GoodText(h) && !MentionsLicense(StartOf(t)) && !IsGeneratedFile(t)
    requires WithHeader(t, Text(h), look).Applied?
    ensures Apply(t, h, look) == Front(StartOf(t), h) + BodyAfter(t, look)
  {
    if HasLicenseHeader(t) {
      ReplacedForm(t, h, look, HeaderIn(Scanned(t).lines, look).contentStartLine);
    } else {
      PrependedForm(t, h);
    }
  }

  // ------------------------------------------------ the body, line by line

  /** Whether a line belongs to the run below a header does not depend on carriage returns at its end. */
  ghost predicate IgnoresReturns(look: Reader) {
    forall l: string :: look(Chomp(l)).Skippable() == look(l).Skippable() && look(Chomp(l)).Code() == look(l).Code()
  }

  lemma {:induction false} RunOfChomped(ls: seq<string>, look: Reader)
    requires IgnoresReturns(look)
    ensures EmptyRun(ChompAll(ls), look) == EmptyRun(ls, look)
  {
    if ls != [] {
      RunOfChomped(ls[1..], look);
    }
  }

  lemma {:induction false} KeptOfChomped(ls: seq<string>, start: nat, shebang: bool)
    ensures Kept(ChompAll(ls), start, shebang) == ChompAll(Kept(ls, start, shebang))
  {
    ChompAllAt(ls);
    ChompAllOfRest(ls, KeptFrom(ls, start, shebang));
  }

  /** The file's own lines that the first application writes below the header. */
  function BodyRaw(t: string, look: Reader): seq<string> {
    if !HasLicenseHeader(t) then ReadLines(t[|Shebang(t)|..])
    else Kept(ReadLines(t), HeaderIn(Scanned(t).lines, look).contentStartLine, Shebang(t) != "")
  }

  /** As they stand in the file after it: rewriting reads them once, putting a header in front does not. */
  function BodyOnce(t: string, look: Reader): seq<string> {
    if HasLicenseHeader(t) then ChompAll(BodyRaw(t, look)) else BodyRaw(t, look)
  }

  lemma {:induction false} KeptIsShort(ls: seq<string>, start: nat, shebang: bool)
    requires AllShort(ls)
    ensures AllShort(Kept(ls, start, shebang))
  {
  }

  lemma {:induction false} TextScanned(ls: seq<string>)
    requires AllShort(ls)
    ensures Scanned(Text(ls)) == Scan(ChompAll(ls), false)
  {
    RawLinesOfText(ls);
    ScanShort(ls);
  }

  lemma {:induction false} BodyReads(t: string, look: Reader)
    ensures AllShort(BodyRaw(t, look)) && AllShort(BodyOnce(t, look))
    ensures Scanned(BodyAfter(t, look)).lines == ChompAll(BodyOnce(t, look))
    ensures HasLicenseHeader(t) ==>
      BodyAfter(t, look) == Text(BodyOnce(t, look)) && !Scanned(BodyAfter(t, look)).tooLong
  {
    ReadLinesAreShort(t);
    ReadLinesAreShort(t[|Shebang(t)|..]);
    var start, shebang := HeaderIn(Scanned(t).lines, look).contentStartLine, Shebang(t) != "";
    KeptIsShort(ReadLines(t), start, shebang);
    ChompAllStaysShort(BodyRaw(t, look));
    if HasLicenseHeader(t) {
      KeptOfChomped(ReadLines(t), start, shebang);
      TextScanned(BodyOnce(t, look));
    }
  }

  lemma {:induction false} RestTooLong(t: string)
    requires Shebang(t) == StartOf(t) && ShebangLine(Shebang(t))
    ensures Scanned(t[|Shebang(t)|..]).tooLong ==> Scanned(t).tooLong
  {
    var sb := Shebang(t);
    LinesBelowShebang(t);
    ShebangScanned(sb);
    ScanRawConcat(RawShebang(sb), RawLines(t[|sb|..]));
  }

  /** A line of the body is too long for the scanner only if the file has such a line. */
  lemma {:induction false} BodyTooLong(t: string, look: Reader)
    requires |StartOf(t)| <= MAX_TOKEN_SIZE
    ensures Scanned(BodyAfter(t, look)).tooLong ==> Scanned(t).tooLong
  {
    if HasLicenseHeader(t) {
      BodyReads(t, look);
    } else {
      StartIsShebangLine(t);
      if Shebang(t) == StartOf(t) {
        RestTooLong(t);
      } else {
        assert t[|t|..] == "";
      }
    }
  }

  lemma {:induction false} AppliedAs(t: string, h: seq<string>, look: Reader, out: string)
    requires !IsGeneratedFile(t) && HasLicenseHeader(t) && Exchanged(t, Text(h), look) == Applied(out)
    ensures Apply(t, h, look) == out
  {
  }

  // ------------------------------------------------------------- the fixpoint

  /** Applying leaves the file alone: it is generated or cannot be read. */
  predicate Inert(t: string, h: seq<string>, look: Reader) {
    IsGeneratedFile(t) || WithHeader(t, Text(h), look).Unreadable?
  }

  /** What the laws of this section ask of the header, the reader and the shebang. */
  ghost predicate Suits(sb: string, h: seq<string>, look: Reader) {
    && ShebangLine(sb) && CommentShebang(sb, look) && HasLicenseHeader(sb + Text(h))
    && GoodHeader(h, look) && look("").blank && IgnoresReturns(look)
  }

  /** Every application strips one carriage return from the end of every line, if nothing precedes the content. */
  lemma {:induction false} ReturnsAreStripped(sb: string, h: seq<string>, content: seq<string>, look: Reader)
    requires Suits(sb, h, look) && AllShort(content) && EmptyRun(content, look) == 0
    requires !IsGeneratedFile(Front(sb, h) + Text(content))
    ensures Apply(Front(sb, h) + Text(content), h, look) == Front(sb, h) + Text(ChompAll(content))
  {
    var body := Text(content);
    TextScanned(content);
    RunOfChomped(content, look);
    LicenseInFront(sb, h, body);
    Reapplied(sb, h, body, look);
    assert ChompAll(content)[0..] == ChompAll(content);
    AppliedAs(Front(sb, h) + body, h, look, Front(sb, h) + Text(ChompAll(content)));
  }

  lemma {:induction false} SameFront(front: string, a: seq<string>, b: seq<string>)
    requires OneLiners(a) && OneLiners(b) && front + Text(a) == front + Text(b)
    ensures a == b
  {
    assert (front + Text(a))[|front|..] == Text(a) && (front + Text(b))[|front|..] == Text(b);
    RawLinesOfText(a);
    RawLinesOfText(b);
  }

  /** Such a file is a fixpoint exactly when no line of its content ends in a return. */
  lemma {:induction false} FixpointIff(sb: string, h: seq<string>, content: seq<string>, look: Reader)
    requires Suits(sb, h, look) && AllShort(content) && EmptyRun(content, look) == 0
    requires !IsGeneratedFile(Front(sb, h) + Text(content))
    ensures var t := Front(sb, h) + Text(content); Apply(t, h, look) == t <==> AtMost(content, 0)
  {
    ReturnsAreStripped(sb, h, content, look);
    ChompAllStaysShort(content);
    ChompAllStaysIff(content);
    if Front(sb, h) + Text(ChompAll(content)) == Front(sb, h) + Text(content) {
      SameFront(Front(sb, h), ChompAll(content), content);
    }
  }

  lemma {:induction false} ReadySuits(t: string, h: seq<string>, look: Reader)
    requires Ready(t, h, look) && GoodHeader(h, look) && look("").blank && IgnoresReturns(look)
    ensures Suits(StartOf(t), h, look)
  {
    StartIsShebangLine(t);
  }

  lemma {:induction false} OneLineContent(line: string, look: Reader)
    requires OneLine(line) && |line| < MAX_TOKEN_SIZE && look(line).Code()
    ensures AllShort([line]) && EmptyRun([line], look) == 0
    ensures AtMost([line], 0) <==> Returns(line) == 0
  {
    assert line in [line];
  }

  lemma {:induction false} OneLineFixpoint(line: string, h: seq<string>, look: Reader)
    requires Suits("", h, look) && OneLine(line) && |line| < MAX_TOKEN_SIZE && look(line).Code()
    requires !IsGeneratedFile(Front("", h) + Text([line]))
    ensures var t := Front("", h) + Text([line]); Apply(t, h, look) == t <==> Returns(line) == 0
  {
    OneLineContent(line, look);
    FixpointIff("", h, [line], look);
  }

  /** The file's own lines that are still there after the second application: the run below the header is gone. */
  function StillKept(t: string, look: Reader): seq<string> {
    BodyRaw(t, look)[EmptyRun(BodyRaw(t, look), look)..]
  }

  /** A file that had a header has been rewritten twice by then, one that had none once. */
  function Rewrites(t: string): nat {
    if HasLicenseHeader(t) then 2 else 1
  }

  function OnceKept(t: string, look: Reader): seq<string> {
    BodyOnce(t, look)[EmptyRun(BodyOnce(t, look), look)..]
  }

  lemma {:induction false} OnceKeptReturns(t: string, look: Reader)
    requires IgnoresReturns(look)
    ensures EmptyRun(OnceKept(t, look), look) == 0 && AllShort(OnceKept(t, look))
    ensures KeptBelow(BodyAfter(t, look), look) == ChompAll(OnceKept(t, look))
    ensures AtMost(ChompAll(OnceKept(t, look)), 0) <==> AtMost(StillKept(t, look), Rewrites(t))
  {
    var raw, once := BodyRaw(t, look), BodyOnce(t, look);
    var e := EmptyRun(once, look);
    BodyReads(t, look);
    RunOfChomped(raw, look);
    RunOfChomped(once, look);
    AfterEmptyRun(once, look);
    ChompAllOfRest(once, e);
    AtMostOfChomped(OnceKept(t, look), 0);
    if HasLicenseHeader(t) {
      ChompAllOfRest(raw, e);
      AtMostOfChomped(StillKept(t, look), 1);
    }
  }

  /** The second application of a file that is neither generated nor unreadable. */
  lemma {:induction false} SecondForm(t: string, h: seq<string>, look: Reader)
    requires Ready(t, h, look) && GoodHeader(h, look) && look("").blank && IgnoresReturns(look)
    requires !Inert(t, h, look) && !Inert(Apply(t, h, look), h, look)
    ensures Suits(StartOf(t), h, look)
    ensures Apply(Apply(t, h, look), h, look) == Front(StartOf(t), h) + Text(ChompAll(OnceKept(t, look)))
  {
    var sb, body := StartOf(t), BodyAfter(t, look);
    StartIsShebangLine(t);
    AppliedForm(t, h, look);
    OnceKeptReturns(t, look);
    LicenseInFront(sb, h, body);
    Reapplied(sb, h, body, look);
  }

  /** Without a header before, the lines still kept are the file's own. */
  lemma {:induction false} SecondWithoutHeader(t: string, h: seq<string>, look: Reader, line: string)
    requires Ready(t, h, look) && GoodHeader(h, look) && look("").blank && IgnoresReturns(look)
    requires !Inert(t, h, look) && !Inert(Apply(t, h, look), h, look)
    requires !HasLicenseHeader(t) && StillKept(t, look) == [line]
    ensures Apply(Apply(t, h, look), h, look) == Front(StartOf(t), h) + Text([Chomp(line)])
  {
    SecondForm(t, h, look);
    ChompAllAt([line]);
    assert ChompAll([line]) == [Chomp(line)];
  }

  /** A third application changes nothing after the second. */
  predicate Settles(t: string, h: seq<string>, look: Reader) {
    var twice := Apply(Apply(t, h, look), h, look);
    Apply(twice, h, look) == twice
  }

  /**
   * Every line that is still there after the second application ends in at most two carriage returns, or one if the
   * file had no header; or some result on the way is generated or unreadable.
   */
  ghost predicate FewReturns(t: string, h: seq<string>, look: Reader) {
    var once := Apply(t, h, look);
    || Inert(t, h, look) || Inert(once, h, look) || IsGeneratedFile(Apply(once, h, look))
    || AtMost(StillKept(t, look), Rewrites(t))
  }

  lemma {:induction false} SettlesAfterTwo(t: string, h: seq<string>, look: Reader)
    requires Ready(t, h, look) && GoodHeader(h, look) && look("").blank && IgnoresReturns(look)
    ensures Settles(t, h, look) <==> FewReturns(t, h, look)
  {
    var once := Apply(t, h, look);
    var twice := Apply(once, h, look);
    if !Inert(t, h, look) && !Inert(once, h, look) && !IsGeneratedFile(twice) {
      SecondForm(t, h, look);
      OnceKeptReturns(t, look);
      ChompAllStaysShort(OnceKept(t, look));
      RunOfChomped(OnceKept(t, look), look);
      FixpointIff(StartOf(t), h, ChompAll(OnceKept(t, look)), look);
    }
  }

  /**
   * If a header was found, the first application is already the last exactly when the content has at most one return a
   * line.
   */
  lemma {:induction false} ExchangeSettlesAtOnce(t: string, h: seq<string>, look: Reader)
    requires Ready(t, h, look) && GoodHeader(h, look) && look("").blank && IgnoresReturns(look)
    requires HasLicenseHeader(t) && !Inert(t, h, look)
    requires HeaderIn(Scanned(t).lines, look).hasHeader && (Shebang(t) != "" ==> Preamble(Scanned(t).lines, look) > 0)
    ensures var once := Apply(t, h, look);
      Apply(once, h, look) == once <==> IsGeneratedFile(once) || AtMost(BodyRaw(t, look), 1)
  {
    var once := Apply(t, h, look);
    StartIsShebangLine(t);
    AppliedForm(t, h, look);
    BodyReads(t, look);
    ExchangedContentIsReal(t, look);
    AtMostOfChomped(BodyRaw(t, look), 0);
    if !IsGeneratedFile(once) {
      FixpointIff(StartOf(t), h, BodyOnce(t, look), look);
    }
  }

  lemma {:induction false} ExchangedContentIsReal(t: string, look: Reader)
    requires HasLicenseHeader(t) && HeaderIn(Scanned(t).lines, look).hasHeader
    requires Shebang(t) != "" ==> Preamble(Scanned(t).lines, look) > 0
    ensures EmptyRun(BodyOnce(t, look), look) == 0
  {
    var ls := Scanned(t).lines;
    var start := HeaderIn(ls, look).contentStartLine;
    ReadLinesAreShort(t);
    KeptOfChomped(ReadLines(t), start, Shebang(t) != "");
    ContentStartsReal(ls, look);
    assert Kept(ls, start, Shebang(t) != "") == ls[start - 1..];
  }

  /** What comes after a header that was found is code, a real comment, or nothing. */
  lemma {:induction false} ContentStartsReal(ls: seq<string>, look: Reader)
    requires HeaderIn(ls, look).hasHeader
    ensures var start := HeaderIn(ls, look).contentStartLine;
      0 < start <= |ls| + 1 && EmptyRun(ls[start - 1..], look) == 0
  {
    var k := Preamble(ls, look);
    BodyStops(ls[k + 1..], look, "");
    var n := BodyLength(ls[k + 1..], look, "");
    assert ls[k + 1..][n..] == ls[k + 1 + n..];
  }

  lemma {:induction false} BodyStops(ls: seq<string>, look: Reader, license: string)
    ensures EmptyRun(ls[BodyLength(ls, look, license)..], look) == 0
  {
    if ls != [] && !EndsHeader(look(ls[0]), license) {
      var next := First(license, look(ls[0]).license);
      BodyStops(ls[1..], look, next);
      var n := BodyLength(ls[1..], look, next);
      assert ls[1 + n..] == ls[1..][n..];
    } else {
      assert ls[0..] == ls;
    }
  }

  // --------------------------------------------------------- fix, then check

  /** The header is right for files of that status. */
  ghost predicate RightFor(h: seq<string>, look: Reader, status: FileStatus)
    requires h != []
  {
    && look(h[0]).copyright.Of? && Contains(Identifier(h, look), APACHE)
    && match status
       case Unmodified => false
       case Modified => exists l :: l in h && Contains(l, NEW_RELIC)
       case New => Contains(look(h[0]).copyright.value, NEW_RELIC)
  }

  lemma {:induction false} FoundFits(k: nat, h: seq<string>, x: seq<string>, look: Reader, status: FileStatus)
    requires GoodHeader(h, look) && RightFor(h, look, status)
    ensures Fits(FoundInfo(k, h, x, look), status)
  {
    if status == Modified {
      var l :| l in h && Contains(l, NEW_RELIC);
      var j :| 0 <= j < |h| && h[j] == l;
      var lines := FoundInfo(k, h, x, look).headerLines;
      assert lines[j] == l;
    }
  }

  /**
   * A file with the right header in front passes the check unless its shebang is code, as in a Go file. It is not
   * judged at all when the content right below the header is a line that is too long.
   */
  lemma {:induction false} AcceptedUnlessShebangIsCode(sb: string, h: seq<string>, body: string, look: Reader,
                                                       status: FileStatus)
    requires ShebangLine(sb) && GoodHeader(h, look) && look("").blank && RightFor(h, look, status)
    requires forall l :: l in ShebangLines(sb) ==> !look(l).StartsHeader()
    requires !IsGeneratedFile(Front(sb, h) + body)
    ensures var r := CheckedHeader(Front(sb, h) + body, look, status);
      && (r == Verdict(false) <==> !CommentShebang(sb, look))
      && (r == CheckFailed ==> Scanned(body).tooLong)
  {
    if CommentShebang(sb, look) {
      FrontParsed(sb, h, body, look);
      FoundFits(|ShebangLines(sb)|, h, Scanned(body).lines, look, status);
    } else {
      CodeShebangHides(sb, h, body, look);
    }
  }

  /** Below a shebang that counts as code no header is looked for. */
  lemma {:induction false} CodeShebangHides(sb: string, h: seq<string>, body: string, look: Reader)
    requires ShebangLine(sb) && AllPlain(h) && !CommentShebang(sb, look)
    requires forall l :: l in ShebangLines(sb) ==> !look(l).StartsHeader()
    ensures ParsedLines(Scanned(Front(sb, h) + body), look) == Parsed(NOTHING.(contentStartLine := 1))
  {
    FrontScanned(sb, h, body);
    var ls := ShebangLines(sb) + (h + [""] + Scanned(body).lines);
    assert ls[0] == ShebangLines(sb)[0];
  }

  /** There every application adds one more header. */
  lemma {:induction false} CodeShebangPilesUpHeaders(sb: string, h: seq<string>, body: string, look: Reader)
    requires ShebangLine(sb) && !CommentShebang(sb, look) && GoodHeader(h, look)
    requires forall l :: l in ShebangLines(sb) ==> !look(l).StartsHeader()
    requires HasLicenseHeader(sb + Text(h)) && !IsGeneratedFile(Front(sb, h) + body)
    ensures Apply(Front(sb, h) + body, h, look) == Front(sb, h) + Text(h + [""] + Scanned(body).lines)
  {
    var t := Front(sb, h) + body;
    LicenseInFront(sb, h, body);
    CodeShebangHides(sb, h, body, look);
    FrontScanned(sb, h, body);
    FrontShebang(sb, h, body);
    TextEnds(h);
    ExchangedAs(t, Text(h), look, false, NOTHING.(contentStartLine := 1),
                Front(sb, h) + Text(h + [""] + Scanned(body).lines));
  }

  /** Fixing a file makes the check pass. */
  lemma {:induction false} FixThenCheck(t: string, h: seq<string>, look: Reader, status: FileStatus)
    requires GoodHeader(h, look) && look("").blank && RightFor(h, look, status) && Ready(t, h, look)
    requires WithHeader(t, Text(h), look).Applied?
    ensures var r := CheckedHeader(Apply(t, h, look), look, status);
      r != Verdict(false) && (r == CheckFailed ==> Scanned(t).tooLong)
  {
    if !IsGeneratedFile(t) {
      var sb, body := StartOf(t), BodyAfter(t, look);
      StartIsShebangLine(t);
      AppliedForm(t, h, look);
      BodyTooLong(t, look);
      if !IsGeneratedFile(Front(sb, h) + body) {
        AcceptedUnlessShebangIsCode(sb, h, body, look, status);
      }
    }
  }

  // ------------------------------------------------------------ what survives

  /**
   * Reading the rewritten file gives the shebang, the header, a blank line and the kept lines in order, each without
   * one more carriage return; these are all lines from the content's start on exactly when none is too long for the
   * scanner.
   */
  lemma {:induction false} ContentSurvives(t: string, h: seq<string>, look: Reader)
    requires GoodHeader(h, look) && !IsGeneratedFile(t) && HasLicenseHeader(t)
    requires |StartOf(t)| <= MAX_TOKEN_SIZE && !MentionsLicense(StartOf(t))
    requires WithHeader(t, Text(h), look).Applied?
    ensures var start, shebang := HeaderIn(Scanned(t).lines, look).contentStartLine, Shebang(t) != "";
      var content := Kept(Scanned(t).lines, start, shebang);
      && Scanned(Apply(t, h, look)) == Scan(ShebangLines(StartOf(t)) + (h + [""] + ChompAll(content)), false)
      && (content == Kept(ChompAll(RawLines(t)), start, shebang) <==> !Scanned(t).tooLong)
  {
    StartIsShebangLine(t);
    AppliedForm(t, h, look);
    ReadLinesAreShort(t);
    BodyReads(t, look);
    KeptOfChomped(ReadLines(t), HeaderIn(Scanned(t).lines, look).contentStartLine, Shebang(t) != "");
    FrontScanned(StartOf(t), h, BodyAfter(t, look));
    KeptIffAllScanned(t, look);
  }

  lemma {:induction false} StartWithinLines(ls: seq<string>, look: Reader)
    ensures HeaderIn(ls, look).contentStartLine <= |ls| + 1
    ensures HeaderIn(ls, look).contentStartLine == 0 ==> Undecided(ls, look)
  {
  }

  lemma {:induction false} KeptIffAllScanned(t: string, look: Reader)
    requires ParsedLines(Scanned(t), look).Parsed?
    ensures var start, shebang := HeaderIn(Scanned(t).lines, look).contentStartLine, Shebang(t) != "";
      Kept(Scanned(t).lines, start, shebang) == Kept(ChompAll(RawLines(t)), start, shebang) <==> !Scanned(t).tooLong
  {
    ReadLinesAreShort(t);
    ChompAllAt(RawLines(t));
    ChompAllAt(ReadLines(t));
    StartWithinLines(Scanned(t).lines, look);
    if !Scanned(t).tooLong {
      assert ReadLines(t) == RawLines(t);
    }
  }

  /** The lines a rewrite leaves out, besides the shebang. */
  function Dropped(ls: seq<string>, start: nat, shebang: bool): seq<string>
    requires shebang ==> ls != []
  {
    var first := if shebang then 1 else 0;
    var from := KeptFrom(ls, start, shebang);
    if from < first then [] else ls[first..from]
  }

  /**
   * Only the header makes way exactly when the header is the first thing after the shebang. Otherwise comments before
   * it, such as build constraints, are lost; without any header, so are the comments before the first line of code.
   */
  lemma {:induction false} OnlyTheHeaderIsDropped(ls: seq<string>, look: Reader, shebang: bool)
    requires shebang ==> ls != [] && !look(ls[0]).StartsHeader()
    ensures var info, k, first := HeaderIn(ls, look), Preamble(ls, look), if shebang then 1 else 0;
      Dropped(ls, info.contentStartLine, shebang) == info.headerLines <==>
        if info.hasHeader then k == first else k == |ls| || k <= first
  {
    var info, k, first := HeaderIn(ls, look), Preamble(ls, look), if shebang then 1 else 0;
    if info.hasHeader {
      FoundHeaderShape(ls, look);
      assert |Dropped(ls, info.contentStartLine, shebang)| == k + |info.headerLines| - first;
    }
  }

  lemma {:induction false} FoundHeaderShape(ls: seq<string>, look: Reader)
    requires HeaderIn(ls, look).hasHeader
    ensures var info, k := HeaderIn(ls, look), Preamble(ls, look);
      && 0 < |info.headerLines| && k + |info.headerLines| <= |ls| && info.headerLines == ls[k..k + |info.headerLines|]
      && info.contentStartLine == k + |info.headerLines| + 1
  {
  }
}
