/** The comment styles and header templates of cmd/nrlicense/header.go. */
module LicenseTemplates {
  import opened LicenseText
  import opened LicenseHeader
  import opened LicenseLaws
  import opened LicenseFixpoint

  const SPDX := "SPDX-License-Identifier"

  predicate IsCommentLine(line: string, ext: string) {
    var trimmed := TrimSpace(line);
    if ext == ".go" || ext == ".proto" then "//" <= trimmed || "/*" <= trimmed || "*" <= trimmed
    else if ext == ".sh" || ext == ".yaml" || ext == ".yml" then "#" <= trimmed
    else "//" <= trimmed || "#" <= trimmed
  }

  function CommentStyle(ext: string): string {
    if ext == ".sh" || ext == ".bash" || ext == ".zsh" || ext == ".yaml" || ext == ".yml" then "#" else "//"
  }

  predicate IsEmptyOrEmptyComment(line: string, ext: string) {
    TrimPrefix(TrimSpace(line), CommentStyle(ext)) == ""
  }

  predicate ContainsCopyright(line: string) {
    Contains(ToLower(line), "copyright")
  }

  predicate ContainsLicenseIdentifier(line: string) {
    Contains(line, SPDX)
  }

  function RemoveCommentMarkers(line: string): string {
    TrimSpace(TrimPrefix(TrimPrefix(TrimPrefix(TrimPrefix(TrimSpace(line), "//"), "/*"), "*"), "#"))
  }

  function ExtractCopyright(line: string): string {
    var bare := RemoveCommentMarkers(line);
    var idx := Index(ToLower(bare), "copyright");
    if idx >= 0 then TrimSpace(bare[idx + 9..]) else bare
  }

  function ExtractSPDXIdentifier(line: string): string {
    TrimSpace(TrimPrefix(RemoveCommentMarkers(line), SPDX + ":"))
  }

  function LookAt(line: string, ext: string): Look {
    Look(IsCommentLine(line, ext), TrimSpace(line) == "", IsEmptyOrEmptyComment(line, ext),
      if ContainsCopyright(line) then Of(ExtractCopyright(line)) else Absent,
      if ContainsLicenseIdentifier(line) then Of(ExtractSPDXIdentifier(line)) else Absent)
  }

  /** How lines are read in files with that extension. */
  function ReaderFor(ext: string): Reader {
    line => LookAt(line, ext)
  }

  // ----------------------------------------------------------- the templates

  function CopyrightOfHolder(holder: string): string {
    "Copyright " + holder
  }

  function Identified(license: string): string {
    (SPDX + ":") + (" " + license)
  }

  /** The template for new files. */
  function NewFileTemplate(): seq<string> {
    [CopyrightOfHolder(NEW_RELIC + ", Inc. All rights reserved."), Identified(APACHE)]
  }

  function Commented(comment: string, line: string): string {
    if line == "" then comment else comment + " " + line
  }

  /** A template as a header of a file with that extension. */
  function CommentedLines(template: seq<string>, ext: string): seq<string> {
    seq(|template|, i requires 0 <= i < |template| => Commented(CommentStyle(ext), template[i]))
  }

  method GenerateHeader(template: seq<string>, ext: string) returns (header: string)
    ensures header == Text(CommentedLines(template, ext))
  {
    var comment := CommentStyle(ext);
    ghost var all := CommentedLines(template, ext);
    header := "";
    var i := 0;
    while i < |template|
      invariant 0 <= i <= |template| && header == Text(all[..i])
    {
      TextSnoc(all[..i], all[i]);
      assert all[..i + 1] == all[..i] + [all[i]];
      var line := template[i];
      if line == "" {
        header := header + comment + "\n";
      } else {
        header := header + (comment + " " + line) + "\n";
      }
      i := i + 1;
    }
    assert all[..i] == all;
  }

  // ------------------------------------------------ reading a commented line

  predicate Marker(c: string) {
    c == "//" || c == "#"
  }

  predicate Trimmed(s: string) {
    s != "" && !IsSpace(s[0]) && !IsSpace(s[|s| - 1])
  }

  lemma {:induction false} TrimRightKeepsPrefix(p: string, s: string)
    requires p <= s && p != "" && !IsSpace(p[|p| - 1])
    ensures p <= TrimRight(s)
    decreases |s|
  {
    if IsSpace(s[|s| - 1]) {
      assert |p| < |s| by {
        if |p| == |s| {
          assert p == s;
        }
      }
      TrimRightKeepsPrefix(p, s[..|s| - 1]);
    }
  }

  lemma {:induction false} MarkedLineIsComment(line: string, ext: string)
    requires CommentStyle(ext) <= line
    ensures IsCommentLine(line, ext)
  {
    TrimRightKeepsPrefix(CommentStyle(ext), line);
  }

  lemma {:induction false} TrimmedStays(s: string)
    requires Trimmed(s)
    ensures TrimSpace(s) == s
  {
  }

  /** The text of a commented line is what follows its marker. */
  lemma {:induction false} BareText(c: string, text: string)
    requires Marker(c) && Trimmed(text)
    ensures RemoveCommentMarkers(c + " " + text) == text
  {
    var line, rest := c + " " + text, " " + text;
    assert line[0] == c[0] && line[|line| - 1] == text[|text| - 1];
    TrimmedStays(line);
    assert line == c + rest && line[|c|..] == rest && rest[0] == ' ';
    if c == "//" {
      assert line[..2] == "//";
      assert TrimPrefix(line, "//") == rest;
    } else {
      assert line[0] == '#';
      assert TrimPrefix(line, "//") == line;
    }
    SpaceTrimmed(text);
  }

  lemma {:induction false} LowerStartsWithCopyright(holder: string)
    ensures OccursAt(ToLower(CopyrightOfHolder(holder)), "copyright", 0)
  {
    var text := CopyrightOfHolder(holder);
    assert text[..9] == "Copyright";
    LowerOfPart(text, 0, 9);
    assert ToLower("Copyright") == "copyright";
  }

  lemma {:induction false} FirstIndexAtStart(s: string, part: string)
    requires OccursAt(s, part, 0)
    ensures Index(s, part) == 0
  {
    assert Contains(s, part);
  }

  lemma {:induction false} SpaceTrimmed(s: string)
    requires Trimmed(s)
    ensures TrimSpace(" " + s) == s
  {
    assert (" " + s)[0] == ' ' && (" " + s)[1..] == s;
    assert TrimLeft(" " + s) == TrimLeft(s) == s;
  }

  lemma {:induction false} CopyrightInBareText(line: string, text: string, holder: string)
    requires RemoveCommentMarkers(line) == text && OccursAt(ToLower(text), "copyright", 0) && text[9..] == " " + holder
    requires Trimmed(holder)
    ensures ExtractCopyright(line) == holder
  {
    FirstIndexAtStart(ToLower(text), "copyright");
    SpaceTrimmed(holder);
  }

  lemma {:induction false} CopyrightLineShape(holder: string)
    requires Trimmed(holder)
    ensures Trimmed(CopyrightOfHolder(holder)) && CopyrightOfHolder(holder)[9..] == " " + holder
  {
    var text := CopyrightOfHolder(holder);
    assert text[0] == 'C' && text[|text| - 1] == holder[|holder| - 1];
  }

  lemma {:induction false} CopyrightExtracted(c: string, holder: string)
    requires Marker(c) && Trimmed(holder)
    ensures ContainsCopyright(c + " " + CopyrightOfHolder(holder))
    ensures ExtractCopyright(c + " " + CopyrightOfHolder(holder)) == holder
  {
    CopyrightLineShape(holder);
    BareText(c, CopyrightOfHolder(holder));
    LowerStartsWithCopyright(holder);
    CopyrightInBareText(c + " " + CopyrightOfHolder(holder), CopyrightOfHolder(holder), holder);
    CopyrightIsThere(c + " ", holder);
  }

  lemma {:induction false} CopyrightIsThere(front: string, holder: string)
    ensures ContainsCopyright(front + CopyrightOfHolder(holder))
  {
    LowerStartsWithCopyright(holder);
    OccursBehind(front, CopyrightOfHolder(holder), "copyright");
  }

  lemma {:induction false} OccursBehind(front: string, text: string, part: string)
    requires OccursAt(ToLower(text), part, 0)
    ensures Contains(ToLower(front + text), part)
  {
    assert ToLower(front + text)[|front|..|front| + |part|] == ToLower(text)[0..|part|];
    assert OccursAt(ToLower(front + text), part, |front|);
  }

  lemma {:induction false} ContainsBehind(front: string, part: string, back: string)
    ensures Contains(front + part + back, part)
  {
    assert OccursAt(front + part + back, part, |front|);
  }

  lemma {:induction false} IdentifierInBareText(line: string, license: string)
    requires RemoveCommentMarkers(line) == Identified(license) && Trimmed(license)
    ensures ExtractSPDXIdentifier(line) == license
  {
    PrefixTrimmed(SPDX + ":", " " + license);
    SpaceTrimmed(license);
  }

  lemma {:induction false} PrefixTrimmed(key: string, rest: string)
    ensures TrimPrefix(key + rest, key) == rest
  {
    assert key <= key + rest && (key + rest)[|key|..] == rest;
  }

  lemma {:induction false} IdentifiedIsTrimmed(license: string)
    requires Trimmed(license)
    ensures Trimmed(Identified(license))
  {
    var text := Identified(license);
    assert text[0] == 'S' && text[|text| - 1] == license[|license| - 1];
  }

  lemma {:induction false} IdentifierExtracted(c: string, license: string)
    requires Marker(c) && Trimmed(license)
    ensures var line := c + " " + Identified(license);
      ContainsLicenseIdentifier(line) && ExtractSPDXIdentifier(line) == license
  {
    IdentifiedIsTrimmed(license);
    BareText(c, Identified(license));
    IdentifierInBareText(c + " " + Identified(license), license);
    IdentifierIsThere(c + " ", license);
  }

  lemma {:induction false} IdentifierIsThere(front: string, license: string)
    ensures ContainsLicenseIdentifier(front + Identified(license))
  {
    var rest := ":" + (" " + license);
    Assoc(SPDX, ":", " " + license);
    Assoc(front, SPDX, rest);
    ContainsBehind(front, SPDX, rest);
  }

  lemma {:induction false} IdentifierBehindMarker(c: string, text: string, i: nat)
    requires Marker(c) && i <= |Commented(c, text)| && OccursAt(Commented(c, text), SPDX, i)
    ensures ContainsLicenseIdentifier(text)
  {
    var line := Commented(c, text);
    assert line[i] == line[i..i + |SPDX|][0] == 'S';
    assert i >= |c| + 1;
    var j := i - |c| - 1;
    assert text[j..j + |SPDX|] == line[i..i + |SPDX|];
    assert OccursAt(text, SPDX, j);
  }

  lemma {:induction false} NoIdentifierBehindMarker(c: string, text: string)
    requires Marker(c) && !ContainsLicenseIdentifier(text)
    ensures !ContainsLicenseIdentifier(Commented(c, text))
  {
    if ContainsLicenseIdentifier(Commented(c, text)) {
      var i :| 0 <= i <= |Commented(c, text)| && OccursAt(Commented(c, text), SPDX, i);
      IdentifierBehindMarker(c, text, i);
    }
  }

  // ------------------------------------------------- the templates are right

  lemma {:induction false} CommentedIsPlain(c: string, line: string)
    requires Marker(c) && OneLine(line) && Chomp(line) == line && |line| < MAX_TOKEN_SIZE - 3
    ensures Plain(Commented(c, line)) && c <= Commented(c, line)
  {
  }

  ghost predicate Short(l: string) {
    OneLine(l) && Chomp(l) == l && |l| < MAX_TOKEN_SIZE - 3
  }

  /** Lines that make a header under the Apache licence. */
  ghost predicate HeaderText(ls: seq<string>, holder: string) {
    TemplateText(ls, holder, APACHE)
  }

  /** Lines that make a header: a copyright first, a licence last, no other licence in between. */
  ghost predicate TemplateText(ls: seq<string>, holder: string, license: string) {
    && |ls| >= 2 && Trimmed(holder) && ls[0] == CopyrightOfHolder(holder)
    && Trimmed(license) && ls[|ls| - 1] == Identified(license)
    && (forall l :: l in ls ==> Short(l)) && forall i :: 0 < i < |ls| - 1 ==> !ContainsLicenseIdentifier(ls[i])
  }

  lemma {:induction false} CommentedLine(c: string, l: string, ext: string)
    requires c == CommentStyle(ext) && Short(l)
    ensures var line := Commented(c, l);
      && Plain(line) && line != "" && IsCommentLine(line, ext)
      && (!ContainsLicenseIdentifier(l) ==> !ContainsLicenseIdentifier(line))
  {
    CommentedIsPlain(c, l);
    MarkedLineIsComment(Commented(c, l), ext);
    if !ContainsLicenseIdentifier(l) {
      NoIdentifierBehindMarker(c, l);
    }
  }

  lemma {:induction false} MarkerIsNoShebang(c: string, text: string)
    requires Marker(c)
    ensures !("#!" <= c + " " + text)
  {
    var line := c + " " + text;
    assert line[0] == c[0] && line[1] == if c == "#" then ' ' else '/';
  }

  lemma {:induction false} FirstLineSays(c: string, holder: string)
    requires Marker(c) && Trimmed(holder)
    ensures var line := Commented(c, CopyrightOfHolder(holder));
      ContainsCopyright(line) && ExtractCopyright(line) == holder && !("#!" <= line)
  {
    CopyrightExtracted(c, holder);
    MarkerIsNoShebang(c, CopyrightOfHolder(holder));
  }

  lemma {:induction false} LastLineSays(c: string, license: string)
    requires Marker(c) && Trimmed(license)
    ensures var line := Commented(c, Identified(license));
      ContainsLicenseIdentifier(line) && ExtractSPDXIdentifier(line) == license != ""
  {
    IdentifierExtracted(c, license);
  }

  /** Every line reads as a comment, and between the first and the last no licence is named. */
  ghost predicate ReadsAsComments(h: seq<string>, look: Reader) {
    forall i :: 0 <= i < |h| ==>
      Plain(h[i]) && h[i] != "" && look(h[i]).comment && (0 < i < |h| - 1 ==> look(h[i]).license.Absent?)
  }

  ghost predicate StartsWithCopyright(h: seq<string>, look: Reader, holder: string) {
    h != [] && !("#!" <= h[0]) && look(h[0]).copyright == Of(holder) && holder != ""
  }

  ghost predicate EndsWithLicense(h: seq<string>, look: Reader, license: string) {
    |h| >= 2 && look(h[|h| - 1]).license == Of(license) && license != ""
  }

  lemma {:induction false} LinesRead(ls: seq<string>, holder: string, license: string, ext: string)
    requires TemplateText(ls, holder, license)
    ensures ReadsAsComments(CommentedLines(ls, ext), ReaderFor(ext))
  {
    var h, look := CommentedLines(ls, ext), ReaderFor(ext);
    forall i | 0 <= i < |h|
      ensures Plain(h[i]) && h[i] != "" && look(h[i]).comment && (0 < i < |h| - 1 ==> look(h[i]).license.Absent?)
    {
      assert ls[i] in ls;
      CommentedLine(CommentStyle(ext), ls[i], ext);
    }
  }

  lemma {:induction false} FirstLineRead(ls: seq<string>, holder: string, license: string, ext: string)
    requires TemplateText(ls, holder, license)
    ensures StartsWithCopyright(CommentedLines(ls, ext), ReaderFor(ext), holder)
  {
    FirstLineSays(CommentStyle(ext), holder);
  }

  lemma {:induction false} LicenseRead(line: string, ext: string, license: string)
    requires ContainsLicenseIdentifier(line) && ExtractSPDXIdentifier(line) == license
    ensures ReaderFor(ext)(line).license == Of(license)
  {
  }

  lemma {:induction false} LastLineRead(ls: seq<string>, holder: string, license: string, ext: string)
    requires TemplateText(ls, holder, license)
    ensures EndsWithLicense(CommentedLines(ls, ext), ReaderFor(ext), license)
  {
    var h, last := CommentedLines(ls, ext), Commented(CommentStyle(ext), Identified(license));
    assert h[|h| - 1] == last;
    LastLineSays(CommentStyle(ext), license);
    LicenseRead(last, ext, license);
  }

  /** Such lines, commented, are a good header that says what they say, in files of any type. */
  lemma {:induction false} CommentedHeaderIsGood(ls: seq<string>, holder: string, license: string, ext: string)
    requires TemplateText(ls, holder, license)
    ensures SaysWell(CommentedLines(ls, ext), ReaderFor(ext), holder, license)
  {
    LinesRead(ls, holder, license, ext);
    FirstLineRead(ls, holder, license, ext);
    LastLineRead(ls, holder, license, ext);
    AssembledHeader(CommentedLines(ls, ext), ReaderFor(ext), holder, license);
  }

  /** A good header with that copyright holder and that licence. */
  ghost predicate SaysWell(h: seq<string>, look: Reader, holder: string, license: string) {
    GoodHeader(h, look) && look(h[0]).copyright == Of(holder) && Identifier(h, look) == license
  }

  lemma {:induction false} AssembledHeader(h: seq<string>, look: Reader, holder: string, license: string)
    requires ReadsAsComments(h, look) && StartsWithCopyright(h, look, holder) && EndsWithLicense(h, look, license)
    ensures SaysWell(h, look, holder, license)
  {
    assert IdentifierAt(h, look, |h| - 1);
    IdentifierIs(h, look, |h| - 1);
  }

  lemma {:induction false} OwnerIsHolder(holder: string)
    requires holder == NEW_RELIC + ", Inc. All rights reserved."
    ensures Trimmed(holder) && Contains(holder, NEW_RELIC) && |holder| < 50 && '\n' !in holder
  {
    assert holder[0] == 'N';
    assert OccursAt(holder, NEW_RELIC, 0);
  }

  lemma {:induction false} HolderLineIsShort(holder: string)
    requires Trimmed(holder) && |holder| < 50 && '\n' !in holder
    ensures Short(CopyrightOfHolder(holder))
  {
    var line := CopyrightOfHolder(holder);
    assert line[|line| - 1] == holder[|holder| - 1];
  }

  lemma {:induction false} LicenseLineIsShort()
    ensures Short(Identified(APACHE)) && Trimmed(APACHE)
  {
    assert APACHE[0] == 'A' && APACHE[|APACHE| - 1] == '0';
  }

  lemma {:induction false} NewFileTemplateIsHeaderText(holder: string)
    requires holder == NEW_RELIC + ", Inc. All rights reserved."
    ensures HeaderText(NewFileTemplate(), holder) && Contains(holder, NEW_RELIC) && |holder| < 50
  {
    OwnerIsHolder(holder);
    HolderLineIsShort(holder);
    LicenseLineIsShort();
    assert NewFileTemplate() == [CopyrightOfHolder(holder), Identified(APACHE)];
  }

  // ------------------------------------------------------------- file types

  /** In Go and protobuf files a shebang is code; everywhere else it is a comment. */
  lemma {:induction false} ShebangIsCommentUnlessGo(sb: string, ext: string)
    requires ShebangLine(sb) && !MentionsLicense(sb)
    ensures CommentShebang(sb, ReaderFor(ext)) <==> sb == "" || !(ext == ".go" || ext == ".proto")
  {
    if sb != "" {
      var l := Chomp(sb[..|sb| - 1]);
      assert l == sb[..|l|] && "#!" <= l;
      if Contains(ToLower(l), "copyright") || ContainsLicenseIdentifier(l) {
        if ContainsLicenseIdentifier(l) {
          IdentifierLowered(l);
        }
        MentionsInPrefix(sb, |l|);
      }
      assert l[0] == '#' && TrimLeft(l) == l;
      TrimRightKeepsPrefix("#!", l);
      assert TrimSpace(l)[..1] == "#";
      assert l in ShebangLines(sb);
    }
  }

  lemma {:induction false} IdentifierLowered(l: string)
    requires ContainsLicenseIdentifier(l)
    ensures MentionsLicense(l)
  {
    var i :| 0 <= i <= |l| && OccursAt(l, SPDX, i);
    OccursLowered(l, SPDX, i);
    SpdxLowered();
  }

  lemma {:induction false} SpdxLowered()
    ensures ToLower(SPDX) == "spdx-license-identifier"
  {
  }

  lemma {:induction false} OccursLowered(l: string, part: string, i: nat)
    requires OccursAt(l, part, i)
    ensures Contains(ToLower(l), ToLower(part))
  {
    LowerOfPart(l, i, i + |part|);
    assert OccursAt(ToLower(l), ToLower(part), i);
  }

  /** The header's first line is within the characters that are looked at. */
  lemma {:induction false} HeaderIsNoticed(sb: string, ls: seq<string>, holder: string, ext: string)
    requires HeaderText(ls, holder) && |sb| + |holder| <= 900
    ensures HasLicenseHeader(sb + Text(CommentedLines(ls, ext)))
  {
    var h := CommentedLines(ls, ext);
    var rest := "\n" + Text(h[1..]);
    FirstLineSays(CommentStyle(ext), holder);
    assert h[0] == Commented(CommentStyle(ext), ls[0]);
    Regroup(sb, h[0], "\n", Text(h[1..]));
    Assoc(sb + h[0], "\n", Text(h[1..]));
    Assoc(sb, h[0] + "\n", Text(h[1..]));
    Assoc(h[0], "\n", Text(h[1..]));
    NoticedWithin(sb, h[0], rest);
  }

  lemma {:induction false} MiddleKept<T>(a: seq<T>, b: seq<T>, c: seq<T>, n: nat)
    requires |a| + |b| <= n <= |a + b + c|
    ensures (a + b + c)[..n][|a|..|a| + |b|] == b
  {
    var s := a + b + c;
    assert s[..n][|a|..|a| + |b|] == s[|a|..|a| + |b|];
    assert s[|a|..|a| + |b|] == b;
  }

  lemma {:induction false} SliceOfSlice<T>(s: seq<T>, from: nat, to: nat, i: nat, len: nat)
    requires from <= to <= |s| && i + len <= to - from
    ensures s[from..to][i..i + len] == s[from + i..from + i + len]
  {
    var a, b := s[from..to][i..i + len], s[from + i..from + i + len];
    forall k | 0 <= k < len ensures a[k] == b[k] {
      assert s[from..to][i + k] == s[from + (i + k)];
    }
    assert |a| == |b|;
  }

  lemma {:induction false} ContainsInMiddle(s: string, from: nat, to: nat, part: string)
    requires from <= to <= |s| && Contains(s[from..to], part)
    ensures Contains(s, part)
  {
    var i :| 0 <= i <= to - from && OccursAt(s[from..to], part, i);
    SliceOfSlice(s, from, to, i, |part|);
    assert OccursAt(s, part, from + i);
  }

  lemma {:induction false} NoticedWithin(sb: string, first: string, rest: string)
    requires ContainsCopyright(first) && |sb| + |first| <= 1000
    ensures HasLicenseHeader(sb + first + rest)
  {
    var t := sb + first + rest;
    var n := if |t| < 1000 then |t| else 1000;
    var seen := if |t| < 1000 then t else t[..1000];
    assert seen == t[..n];
    MiddleKept(sb, first, rest, n);
    LowerOfPart(seen, |sb|, |sb| + |first|);
    assert Contains(ToLower(seen)[|sb|..|sb| + |first|], "copyright");
    ContainsInMiddle(ToLower(seen), |sb|, |sb| + |first|, "copyright");
  }

  // ------------------------------------------------------------ carriage returns

  lemma {:induction false} TrimLeftOfReturn(s: string)
    ensures TrimLeft(s + "\r") == if TrimLeft(s) == "" then "" else TrimLeft(s) + "\r"
  {
    if s != "" && IsSpace(s[0]) {
      assert (s + "\r")[0] == s[0] && (s + "\r")[1..] == s[1..] + "\r";
      TrimLeftOfReturn(s[1..]);
    } else if s == "" {
      assert s + "\r" == "\r" && "\r"[1..] == "";
    } else {
      assert (s + "\r")[0] == s[0];
    }
  }

  lemma {:induction false} TrimRightOfReturn(s: string)
    ensures TrimRight(s + "\r") == TrimRight(s)
  {
    assert (s + "\r")[|s|] == '\r' && (s + "\r")[..|s|] == s;
  }

  lemma {:induction false} TrimSpaceOfReturn(s: string)
    ensures TrimSpace(s + "\r") == TrimSpace(s)
  {
    TrimLeftOfReturn(s);
    TrimRightOfReturn(TrimLeft(s));
  }

  /** What a line is does not depend on carriage returns at its end. */
  lemma {:induction false} ReadersIgnoreReturns(ext: string)
    ensures IgnoresReturns(ReaderFor(ext))
  {
    forall l: string ensures TrimSpace(Chomp(l)) == TrimSpace(l) {
      if Chomp(l) != l {
        assert l == Chomp(l) + "\r";
        TrimSpaceOfReturn(Chomp(l));
      }
    }
  }

  // ------------------------------------------------------------ the tool at work

  /** The check accepts the fixed file. */
  ghost predicate FixPasses(t: string, h: seq<string>, look: Reader, status: FileStatus) {
    WithHeader(t, Text(h), look).Applied? && !Scanned(t).tooLong ==>
      CheckedHeader(Apply(t, h, look), look, status) == Verdict(true)
  }

  lemma {:induction false} GoodHeadersPass(t: string, h: seq<string>, look: Reader, status: FileStatus)
    requires GoodHeader(h, look) && look("").blank && RightFor(h, look, status) && Ready(t, h, look)
    ensures FixPasses(t, h, look, status)
  {
    if WithHeader(t, Text(h), look).Applied? {
      FixThenCheck(t, h, look, status);
    }
  }

  /** The shebang, if there is one, is short, names no licence and is a comment. */
  ghost predicate GoodStart(t: string, holder: string, ext: string) {
    && |StartOf(t)| + |holder| <= 900 && !MentionsLicense(StartOf(t))
    && (StartOf(t) != "" ==> ext != ".go" && ext != ".proto")
  }

  lemma {:induction false} TemplateIsReady(t: string, ls: seq<string>, holder: string, ext: string)
    requires HeaderText(ls, holder) && GoodStart(t, holder, ext)
    ensures Ready(t, CommentedLines(ls, ext), ReaderFor(ext))
  {
    StartIsShebangLine(t);
    ShebangIsCommentUnlessGo(StartOf(t), ext);
    HeaderIsNoticed(StartOf(t), ls, holder, ext);
  }

  /**
   * The tool on any file whose shebang, if it has one, names no licence and fits with the copyright holder into 900
   * characters: a file fixed with such a template passes the check, and fixing settles exactly on the files with few
   * carriage returns. Left aside are files with a shebang in Go or protobuf.
   */
  lemma {:induction false} TemplatesWork(t: string, status: FileStatus, ls: seq<string>, holder: string, ext: string)
    requires HeaderText(ls, holder) && RightFor(CommentedLines(ls, ext), ReaderFor(ext), status) &&
      GoodStart(t, holder, ext)
    ensures FixPasses(t, CommentedLines(ls, ext), ReaderFor(ext), status)
    ensures var h, look := CommentedLines(ls, ext), ReaderFor(ext); Settles(t, h, look) <==> FewReturns(t, h, look)
  {
    CommentedHeaderIsGood(ls, holder, APACHE, ext);
    ReadersIgnoreReturns(ext);
    TemplateIsReady(t, ls, holder, ext);
    GoodHeadersPass(t, CommentedLines(ls, ext), ReaderFor(ext), status);
    SettlesAfterTwo(t, CommentedLines(ls, ext), ReaderFor(ext));
  }

  lemma {:induction false} RightForNewFiles(ls: seq<string>, holder: string, ext: string)
    requires HeaderText(ls, holder) && Contains(holder, NEW_RELIC)
    ensures RightFor(CommentedLines(ls, ext), ReaderFor(ext), New)
  {
    CommentedHeaderIsGood(ls, holder, APACHE, ext);
    ContainsItself(APACHE);
  }

  lemma {:induction false} ContainsItself(s: string)
    ensures Contains(s, s)
  {
    assert OccursAt(s, s, 0);
  }

  /** The header New Relic puts on new files. */
  function NewFileHeader(ext: string): seq<string> {
    CommentedLines(NewFileTemplate(), ext)
  }

  lemma {:induction false} NewFileHeaderWorks(t: string, ext: string)
    requires |StartOf(t)| <= 850 && !MentionsLicense(StartOf(t)) &&
      (StartOf(t) != "" ==> ext != ".go" && ext != ".proto")
    ensures FixPasses(t, NewFileHeader(ext), ReaderFor(ext), New)
    ensures Settles(t, NewFileHeader(ext), ReaderFor(ext)) <==> FewReturns(t, NewFileHeader(ext), ReaderFor(ext))
  {
    var holder := NEW_RELIC + ", Inc. All rights reserved.";
    NewFileTemplateIsHeaderText(holder);
    RightForNewFiles(NewFileTemplate(), holder, ext);
    TemplatesWork(t, New, NewFileTemplate(), holder, ext);
  }

  // ------------------------------------------ a file the third application changes

  lemma {:induction false} CommentIsNoMark(line: string)
    requires |line| < 6 || (line[1] != ' ' && line[3] != ' ' && line[5] != 'd')
    ensures !IsGeneratedMark(line)
  {
  }

  lemma {:induction false} NewFileHeaderIsNoMark()
    ensures forall l :: l in NewFileHeader(".go") ==> !IsGeneratedMark(l)
  {
    var h := NewFileHeader(".go");
    forall i | 0 <= i < |h| ensures !IsGeneratedMark(h[i]) {
      var text := NewFileTemplate()[i];
      assert h[i] == "//" + " " + text && h[i][1] == '/' && h[i][3] == text[0] && h[i][5] == text[2];
      CommentIsNoMark(h[i]);
    }
  }

  lemma {:induction false} NoMarksNotGenerated(t: string, a: seq<string>, line: string)
    requires RawLines(t) == a + [""] + [line]
    requires (forall l :: l in a ==> !IsGeneratedMark(l)) && !IsGeneratedMark("") && !IsGeneratedMark(line)
    ensures !IsGeneratedFile(t)
  {
  }

  /** Below that header a short line makes no generated file. */
  lemma {:induction false} ShortBodyIsNotGenerated(line: string)
    requires OneLine(line) && |line| < 6
    ensures !IsGeneratedFile(Front("", NewFileHeader(".go")) + Text([line]))
  {
    var h := NewFileHeader(".go");
    NewFileHeaderIsOneLiners();
    FrontLines("", h, Text([line]));
    RawLinesOfText([line]);
    NewFileHeaderIsNoMark();
    CommentIsNoMark("");
    CommentIsNoMark(line);
    assert [] + (h + [""] + [line]) == h + [""] + [line];
    NoMarksNotGenerated(Front("", h) + Text([line]), h, line);
  }

  lemma {:induction false} NewFileHeaderIsOneLiners()
    ensures OneLiners(NewFileHeader(".go"))
  {
    NewFileTemplateIsHeaderText(NEW_RELIC + ", Inc. All rights reserved.");
    LinesRead(NewFileTemplate(), NEW_RELIC + ", Inc. All rights reserved.", APACHE, ".go");
  }

  /** A line that ends in two carriage returns. */
  function TwoReturns(): string {
    "x\r\r"
  }

  lemma {:induction false} TwoReturnsIsCode()
    ensures ReaderFor(".go")(TwoReturns()).Code() && Chomp(TwoReturns()) == "x\r" && Returns(TwoReturns()) == 2
  {
    assert TwoReturns()[..2] == "x\r" && "x\r"[..1] == "x";
    assert TrimRight(TwoReturns()) == TrimRight("x\r") == TrimRight("x") == "x";
  }

  lemma {:induction false} ShortMentionsNothing(s: string)
    requires |s| < 9
    ensures !MentionsLicense(s)
  {
  }

  lemma {:induction false} OneLineRead(line: string)
    requires OneLine(line) && |line| < 6
    ensures RawLines(Text([line])) == [line] && ReadLines(Text([line])) == [line]
  {
    RawLinesOfText([line]);
    assert [line][1..] == [];
  }

  lemma {:induction false} OneLineShebang(line: string)
    requires OneLine(line) && !("#!" <= line)
    ensures Shebang(Text([line])) == "" && StartOf(Text([line])) == ""
  {
    assert Text([line]) == line + "\n" + "";
    ShebangOfLine(line, "");
  }

  /** A file of one short line of code. */
  lemma {:induction false} OneLineFile(line: string, look: Reader)
    requires OneLine(line) && |line| < 6 && !("#!" <= line) && look(line).Code()
    ensures StartOf(Text([line])) == "" && !HasLicenseHeader(Text([line])) && !IsGeneratedFile(Text([line]))
    ensures BodyAfter(Text([line]), look) == Text([line]) && StillKept(Text([line]), look) == [line]
  {
    var t := Text([line]);
    OneLineRead(line);
    OneLineShebang(line);
    assert |t| == |line| + 1;
    ShortMentionsNothing(t);
    CommentIsNoMark(line);
    assert t[0..] == t && [line][0..] == [line];
  }

  /** With the new header it stays readable and is not generated, now and after the second application. */
  lemma {:induction false} OneLineFileIsAlive(line: string)
    requires OneLine(line) && |line| < 6 && !("#!" <= line) && ReaderFor(".go")(line).Code()
    ensures var t, h, look := Text([line]), NewFileHeader(".go"), ReaderFor(".go");
      && Ready(t, h, look) && GoodHeader(h, look) && IgnoresReturns(look)
      && Apply(t, h, look) == Front("", h) + t && !Inert(t, h, look) && !Inert(Front("", h) + t, h, look)
  {
    var t, h, look := Text([line]), NewFileHeader(".go"), ReaderFor(".go");
    var holder := NEW_RELIC + ", Inc. All rights reserved.";
    OneLineFile(line, look);
    NewFileTemplateIsHeaderText(holder);
    CommentedHeaderIsGood(NewFileTemplate(), holder, APACHE, ".go");
    ReadersIgnoreReturns(".go");
    ShortMentionsNothing("");
    TemplateIsReady(t, NewFileTemplate(), holder, ".go");
    AppliedForm(t, h, look);
    ShortBodyIsNotGenerated(line);
    LicenseInFront("", h, t);
    TextScanned([line]);
    Reapplied("", h, t, look);
  }

  /** The third application changes it once more if two returns are left to strip. */
  lemma {:induction false} ThirdApplicationChanges()
    ensures !Settles(Text([TwoReturns()]), NewFileHeader(".go"), ReaderFor(".go"))
  {
    var t, h, look := Text([TwoReturns()]), NewFileHeader(".go"), ReaderFor(".go");
    TwoReturnsIsCode();
    OneLineFile(TwoReturns(), look);
    OneLineFileIsAlive(TwoReturns());
    SecondWithoutHeader(t, h, look, TwoReturns());
    ShortBodyIsNotGenerated("x\r");
    SettlesAfterTwo(t, h, look);
    assert TwoReturns() in StillKept(t, look);
  }

  predicate ShortCode(line: string) {
    OneLine(line) && |line| < 6 && !("#!" <= line) && ReaderFor(".go")(line).Code()
  }

  /** For a file of one short line of code one application is enough exactly when the line ends in no return. */
  lemma {:induction false} OneApplicationIsEnough(line: string)
    requires ShortCode(line)
    ensures var t, h, look := Text([line]), NewFileHeader(".go"), ReaderFor(".go");
      var once := Apply(t, h, look); Apply(once, h, look) == once <==> Returns(line) == 0
  {
    var t, h, look := Text([line]), NewFileHeader(".go"), ReaderFor(".go");
    OneLineFile(line, look);
    OneLineFileIsAlive(line);
    ShortBodyIsNotGenerated(line);
    ReadySuits(t, h, look);
    OneLineFixpoint(line, h, look);
  }

  /** Such a file passes the check once it is fixed. */
  lemma {:induction false} ShortCodePasses(line: string)
    requires ShortCode(line)
    ensures var h, look := NewFileHeader(".go"), ReaderFor(".go");
      CheckedHeader(Apply(Text([line]), h, look), look, New) == Verdict(true)
  {
    var t := Text([line]);
    OneLineFile(line, ReaderFor(".go"));
    OneLineFileIsAlive(line);
    ShortMentionsNothing("");
    NewFileHeaderWorks(t, ".go");
    TextScanned([line]);
  }
}
