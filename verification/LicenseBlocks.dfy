/** A licence header in a block comment is found, but exchanging it leaves the comment's last line behind. */
module LicenseBlocks {
  import opened LicenseText
  import opened LicenseHeader
  import opened LicenseLaws
  import opened LicenseFixpoint
  import opened LicenseTemplates

  function Starred(text: string): string {
    " * " + text
  }

  /** A block comment with a copyright and a licence. */
  function Block(holder: string, license: string): seq<string> {
    ["/*", Starred(CopyrightOfHolder(holder)), Starred(Identified(license)), " */"]
  }

  /** Without its blank in front. */
  lemma {:induction false} StarredTrimmed(text: string)
    requires Trimmed(text)
    ensures TrimSpace(Starred(text)) == "* " + text
  {
    var line := "* " + text;
    assert Starred(text) == " " + line && line[0] == '*' && line[|line| - 1] == text[|text| - 1];
    SpaceTrimmed(line);
  }

  /** The text of a starred line is what follows its star. */
  lemma {:induction false} StarredText(text: string)
    requires Trimmed(text)
    ensures RemoveCommentMarkers(Starred(text)) == text
  {
    var line, rest := "* " + text, " " + text;
    StarredTrimmed(text);
    assert line[0] == '*' && line == "*" + rest && line[1..] == rest && rest[0] == ' ';
    assert TrimPrefix(line, "//") == line && TrimPrefix(line, "/*") == line && TrimPrefix(line, "*") == rest;
    SpaceTrimmed(text);
  }

  lemma {:induction false} StarredIsComment(text: string)
    requires Trimmed(text)
    ensures var seen := ReaderFor(".go")(Starred(text)); seen.comment && !seen.blank && !seen.Code()
  {
    StarredTrimmed(text);
    assert ("* " + text)[0] == '*';
  }

  lemma {:induction false} CopyrightSeen(holder: string)
    requires Trimmed(holder)
    ensures ReaderFor(".go")(Starred(CopyrightOfHolder(holder))).copyright == Of(holder)
  {
    var text := CopyrightOfHolder(holder);
    CopyrightLineShape(holder);
    StarredText(text);
    LowerStartsWithCopyright(holder);
    CopyrightInBareText(Starred(text), text, holder);
    CopyrightIsThere(" * ", holder);
  }

  lemma {:induction false} LicenseSeen(license: string)
    requires Trimmed(license)
    ensures ReaderFor(".go")(Starred(Identified(license))).license == Of(license)
  {
    IdentifiedIsTrimmed(license);
    StarredText(Identified(license));
    IdentifierInBareText(Starred(Identified(license)), license);
    IdentifierIsThere(" * ", license);
  }

  /** The first line is a comment that starts no header, the last one ends the header. */
  lemma {:induction false} EndsSeen()
    ensures var open := ReaderFor(".go")("/*"); !open.StartsHeader() && !open.Code()
    ensures var close := ReaderFor(".go")(" */"); close.comment && !close.Skippable()
  {
    assert TrimSpace("/*") == "/*" by {
      assert Trimmed("/*");
    }
    NothingNamed("/*");
    SpaceTrimmed("*/");
    assert " " + "*/" == " */";
    assert "*/"[0] == '*' && TrimPrefix("*/", "//") == "*/";
  }

  lemma {:induction false} NothingNamed(s: string)
    requires |s| < 9
    ensures !ContainsCopyright(s) && !ContainsLicenseIdentifier(s)
  {
  }

  /** The header of the block is its two middle lines; the content starts at the line that closes the comment. */
  lemma {:induction false} BlockFound(holder: string, license: string, rest: seq<string>)
    requires Trimmed(holder) && Trimmed(license)
    ensures var info := HeaderIn(Block(holder, license) + rest, ReaderFor(".go"));
      && info.hasHeader && info.existingCopyright == holder && info.existingLicenseIdentifier == license
      && info.headerLines == [Starred(CopyrightOfHolder(holder)), Starred(Identified(license))]
      && info.contentStartLine == 4
  {
    var look := ReaderFor(".go");
    var first, second := Starred(CopyrightOfHolder(holder)), Starred(Identified(license));
    CopyrightSeen(holder);
    LicenseSeen(license);
    CopyrightLineShape(holder);
    IdentifiedIsTrimmed(license);
    StarredIsComment(CopyrightOfHolder(holder));
    StarredIsComment(Identified(license));
    EndsSeen();
    FourLines(first, second, rest, look, holder, license);
  }

  /** The same for any reader that sees the four lines so. */
  lemma {:induction false} FourLines(first: string, second: string, rest: seq<string>, look: Reader,
                                     holder: string, license: string)
    requires !look("/*").StartsHeader() && !look("/*").Code() && look(" */").comment && !look(" */").Skippable()
    requires look(first).comment && look(first).copyright == Of(holder) && holder != ""
    requires look(second).comment && look(second).license == Of(license) && license != ""
    ensures HeaderIn(["/*", first, second, " */"] + rest, look) ==
            HeaderInfo(true, false, holder, license, [first, second], 4)
  {
    var ls := ["/*", first, second, " */"] + rest;
    assert ls[0] == "/*" && ls[1] == first && ls[2] == second && ls[3] == " */";
    PreambleIsOne(ls, look);
    BodyIsOne(ls, look, license);
    assert ls[1..3] == [first, second] && ls[2..3] == [second];
    assert [first, second][..1] == [first] && [first][..0] == [] && [second][..0] == [];
    assert CopyrightOf([first], look) == First(CopyrightOf([], look), look(first).copyright);
    assert CopyrightOf([first, second], look) == First(CopyrightOf([first], look), look(second).copyright);
    assert LicenseOf([second], look) == First(LicenseOf([], look), look(second).license);
  }

  lemma {:induction false} PreambleIsOne(ls: seq<string>, look: Reader)
    requires |ls| > 1 && !look(ls[0]).StartsHeader() && !look(ls[0]).Code() && look(ls[1]).StartsHeader()
    ensures Preamble(ls, look) == 1
  {
    assert ls[1..][0] == ls[1];
  }

  lemma {:induction false} BodyIsOne(ls: seq<string>, look: Reader, license: string)
    requires |ls| > 3 && !look(ls[2]).Code() && look(ls[2]).license == Of(license) && license != ""
    requires !look(ls[3]).Skippable()
    ensures BodyLength(ls[2..], look, "") == 1
  {
    BodyLengthStep(ls, look, 2, "");
    BodyLengthStep(ls, look, 3, license);
  }

  // ---------------------------------------------------------------- the file

  predicate OneTrimmedLine(s: string) {
    Trimmed(s) && |s| < 900 && '\n' !in s
  }

  lemma {:induction false} StarredIsPlain(text: string)
    requires Trimmed(text) && |text| < 1000 && '\n' !in text
    ensures OneLine(Starred(text)) && |Starred(text)| < MAX_TOKEN_SIZE && Chomp(Starred(text)) == Starred(text)
  {
    assert Starred(text)[|Starred(text)| - 1] == text[|text| - 1];
  }

  lemma {:induction false} BlockIsPlain(holder: string, license: string)
    requires OneTrimmedLine(holder) && OneTrimmedLine(license)
    ensures AllShort(Block(holder, license)) && ChompAll(Block(holder, license)) == Block(holder, license)
  {
    CopyrightLineShape(holder);
    IdentifiedIsTrimmed(license);
    StarredIsPlain(CopyrightOfHolder(holder));
    StarredIsPlain(Identified(license));
    ChompAllAt(Block(holder, license));
    assert Chomp("/*") == "/*" && Chomp(" */") == " */";
  }

  /** The file, line by line: nothing marks it as generated, it has no shebang, and its licence is noticed. */
  lemma {:induction false} BlockFileSeen(holder: string, license: string, rest: seq<string>)
    requires OneTrimmedLine(holder) && OneTrimmedLine(license) && AllShort(rest)
    requires forall l :: l in rest ==> !IsGeneratedMark(l)
    ensures var t := Text(Block(holder, license) + rest);
      && Scanned(t) == Scan(Block(holder, license) + ChompAll(rest), false)
      && !IsGeneratedFile(t) && Shebang(t) == "" && HasLicenseHeader(t)
  {
    BlockIsPlain(holder, license);
    BlockHasNoMark(holder, license);
    FileScanned(Block(holder, license), rest);
    NoMarksInFile(Block(holder, license), rest);
    BlockStartNoticed(holder, license, rest);
  }

  lemma {:induction false} FileScanned(block: seq<string>, rest: seq<string>)
    requires AllShort(block) && AllShort(rest) && ChompAll(block) == block
    ensures Scanned(Text(block + rest)) == Scan(block + ChompAll(rest), false)
  {
    TextScanned(block + rest);
    ChompAllJoins(block, rest);
  }

  lemma {:induction false} NoMarksInFile(block: seq<string>, rest: seq<string>)
    requires AllShort(block) && AllShort(rest)
    requires (forall l :: l in block ==> !IsGeneratedMark(l)) && forall l :: l in rest ==> !IsGeneratedMark(l)
    ensures !IsGeneratedFile(Text(block + rest))
  {
    RawLinesOfText(block + rest);
  }

  lemma {:induction false} BlockStartNoticed(holder: string, license: string, rest: seq<string>)
    requires |holder| < 900
    ensures var t := Text(Block(holder, license) + rest); Shebang(t) == "" && HasLicenseHeader(t)
  {
    var first, second := Starred(CopyrightOfHolder(holder)), Starred(Identified(license));
    var more := [second, " */"] + rest;
    CopyrightIsThere(" * ", holder);
    BlockNoticed(first, more);
    assert Block(holder, license) + rest == ["/*", first] + more;
  }

  lemma {:induction false} BlockTail(holder: string, license: string, more: seq<string>)
    ensures (Block(holder, license) + more)[3..] == [" */"] + more && |Block(holder, license) + more| >= 4
  {
  }

  lemma {:induction false} BlockHasNoMark(holder: string, license: string)
    ensures forall l :: l in Block(holder, license) ==> !IsGeneratedMark(l)
  {
    CommentIsNoMark("/*");
    CommentIsNoMark(" */");
    StarredIsNoMark(CopyrightOfHolder(holder));
    StarredIsNoMark(Identified(license));
  }

  lemma {:induction false} StarredIsNoMark(text: string)
    requires |text| > 2 && text[0] != ' ' && text[2] != 'd'
    ensures !IsGeneratedMark(Starred(text))
  {
    var line := Starred(text);
    assert line[1] == '*' && line[3] == text[0] && line[5] == text[2];
    CommentIsNoMark(line);
  }

  lemma {:induction false} BlockNoticed(first: string, more: seq<string>)
    ensures Shebang(Text(["/*", first] + more)) == ""
    ensures ContainsCopyright(first) && |first| < 990 ==> HasLicenseHeader(Text(["/*", first] + more))
  {
    var ls := ["/*", first] + more;
    assert ls[0] == "/*" && ls[1..] == [first] + more && ([first] + more)[1..] == more;
    var rest := "\n" + Text(more);
    Assoc(first, "\n", Text(more));
    Assoc("/*" + "\n", first, rest);
    assert Text(ls) == "/*" + "\n" + (first + rest);
    ShebangOfLine("/*", first + rest);
    if ContainsCopyright(first) && |first| < 990 {
      NoticedWithin("/*" + "\n", first, rest);
    }
  }

  lemma {:induction false} ExchangedFrom(t: string, ls: seq<string>, start: nat, h: seq<string>, look: Reader)
    requires Scanned(t) == Scan(ls, false) && 0 < start <= |ls| && HeaderIn(ls, look).contentStartLine == start
    requires !IsGeneratedFile(t) && Shebang(t) == "" && HasLicenseHeader(t)
    ensures Apply(t, h, look) == Text(h) + Spacer(Text(h)) + Text(ls[start - 1..])
  {
    assert "" + Text(h) == Text(h);
  }

  /**
   * Exchanging the licence of a Go file that has it in a block comment: the line that closes the comment stays, below a
   * header that does not open it.
   */
  lemma {:induction false} BlockCommentIsTorn(holder: string, license: string, rest: seq<string>, h: seq<string>)
    requires OneTrimmedLine(holder) && OneTrimmedLine(license) && AllShort(rest)
    requires forall l :: l in rest ==> !IsGeneratedMark(l)
    ensures Apply(Text(Block(holder, license) + rest), h, ReaderFor(".go")) ==
            Text(h) + Spacer(Text(h)) + Text([" */"] + ChompAll(rest))
  {
    var ls := Block(holder, license) + ChompAll(rest);
    BlockFileSeen(holder, license, rest);
    BlockFound(holder, license, ChompAll(rest));
    BlockTail(holder, license, ChompAll(rest));
    ExchangedFrom(Text(Block(holder, license) + rest), ls, 4, h, ReaderFor(".go"));
  }

  lemma {:induction false} ChompAllJoins(a: seq<string>, b: seq<string>)
    ensures ChompAll(a + b) == ChompAll(a) + ChompAll(b)
    decreases |a|
  {
    if a == [] {
      assert a + b == b;
    } else {
      assert (a + b)[1..] == a[1..] + b;
      ChompAllJoins(a[1..], b);
    }
  }
}
