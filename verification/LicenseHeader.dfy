/** Parsing, replacing and checking licence headers (cmd/nrlicense/header.go). A file is its text. */
module LicenseHeader {
  import opened LicenseText

  /** The text found after a keyword, if the keyword is there. */
  datatype Mention = Absent | Of(value: string)

  /** What the header code sees in a line; which lines are comments depends on the file's extension. */
  datatype Look = Look(comment: bool, blank: bool, emptyComment: bool, copyright: Mention, license: Mention) {
    predicate StartsHeader() {
      comment && (copyright.Of? || license.Of?)
    }

    predicate Code() {
      !blank && !comment
    }

    predicate Skippable() {
      blank || emptyComment
    }
  }

  type Reader = string -> Look

  /** A line the expression ^.{1,3} Code generated .* DO NOT EDIT\.$ matches. */
  predicate IsGeneratedMark(line: string) {
    exists k {:trigger OccursAt(line, " Code generated ", k)} :: 1 <= k <= 3 && OccursAt(line, " Code generated ", k) &&
      k + 16 + 13 <= |line| && OccursAt(line, " DO NOT EDIT.", |line| - 13)
  }

  predicate IsGeneratedFile(t: string) {
    exists l :: l in RawLines(t) && IsGeneratedMark(l)
  }

  /** Only the first thousand characters are looked at. */
  predicate HasLicenseHeader(t: string) {
    MentionsLicense(if |t| < 1000 then t else t[..1000])
  }

  predicate MentionsLicense(s: string) {
    Contains(ToLower(s), "copyright") || Contains(ToLower(s), "mozilla public") ||
      Contains(ToLower(s), "spdx-license-identifier")
  }

  /** The first line with its newline, if it is a shebang. */
  function Shebang(t: string): string {
    var i := FirstNewline(t);
    var line := if i < |t| then t[..i + 1] else t;
    if "#!" <= line then line else ""
  }

  method HashBang(content: string) returns (line: string)
    ensures line == Shebang(content)
  {
    line := "";
    var j := 0;
    while j < |content|
      invariant 0 <= j <= FirstNewline(content) <= |content| && line == content[..j]
    {
      line := line + [content[j]];
      if content[j] == '\n' {
        break;
      }
      NewlineBeyond(content, j);
      j := j + 1;
    }
    if !("#!" <= ToLower(line)) {
      line := "";
    }
  }

  lemma NewlineBeyond(t: string, j: nat)
    requires j < |t| && j <= FirstNewline(t) && t[j] != '\n'
    ensures j < FirstNewline(t)
  {
  }

  // ------------------------------------------------------------- parsing

  datatype HeaderInfo = HeaderInfo(
    hasHeader: bool, isGenerated: bool, existingCopyright: string, existingLicenseIdentifier: string,
    headerLines: seq<string>, contentStartLine: nat)

  /** Failed: the scanner met a line that is too long before the header's end was known. */
  datatype Parsed = Parsed(info: HeaderInfo) | Failed

  const NOTHING := HeaderInfo(false, false, "", "", [], 0)

  /** How many blank lines and other comments come first. */
  function Preamble(ls: seq<string>, look: Reader): (k: nat)
    ensures k <= |ls|
  {
    if ls == [] || look(ls[0]).StartsHeader() || look(ls[0]).Code() then 0 else 1 + Preamble(ls[1..], look)
  }

  /**
   * How many more lines belong to the header: up to code, or to the first real comment after the licence identifier.
   */
  function BodyLength(ls: seq<string>, look: Reader, license: string): (n: nat)
    ensures n <= |ls|
  {
    if ls == [] || EndsHeader(look(ls[0]), license) then 0
    else 1 + BodyLength(ls[1..], look, First(license, look(ls[0]).license))
  }

  predicate EndsHeader(seen: Look, license: string) {
    seen.Code() || (license != "" && !seen.Skippable())
  }

  /** Once found, a nonempty text stays. */
  function First(found: string, m: Mention): string {
    if found == "" && m.Of? then m.value else found
  }

  function LicenseOf(ls: seq<string>, look: Reader): string {
    if ls == [] then "" else First(LicenseOf(ls[..|ls| - 1], look), look(ls[|ls| - 1]).license)
  }

  function CopyrightOf(ls: seq<string>, look: Reader): string {
    if ls == [] then "" else First(CopyrightOf(ls[..|ls| - 1], look), look(ls[|ls| - 1]).copyright)
  }

  /** The header among the lines: where it starts, where it ends and what it says. */
  function HeaderIn(ls: seq<string>, look: Reader): HeaderInfo {
    var k := Preamble(ls, look);
    if k == |ls| then NOTHING
    else if !look(ls[k]).StartsHeader() then NOTHING.(contentStartLine := k + 1)
    else
      var end := k + 1 + BodyLength(ls[k + 1..], look, "");
      HeaderInfo(true, false, CopyrightOf(ls[k..end], look), LicenseOf(ls[k + 1..end], look), ls[k..end], end + 1)
  }

  /** No line tells where the content starts. */
  predicate Undecided(ls: seq<string>, look: Reader) {
    var start := HeaderIn(ls, look).contentStartLine;
    start == 0 || start == |ls| + 1
  }

  function ParsedHeader(t: string, look: Reader): Parsed {
    if IsGeneratedFile(t) then Parsed(NOTHING.(isGenerated := true))
    else ParsedLines(Scanned(t), look)
  }

  function ParsedLines(s: Scan, look: Reader): Parsed {
    if s.tooLong && Undecided(s.lines, look) then Failed else Parsed(HeaderIn(s.lines, look))
  }

  function Started(line: string, seen: Look): HeaderInfo {
    HeaderInfo(true, false, First("", seen.copyright), "", [line], 0)
  }

  function Extended(info: HeaderInfo, line: string, seen: Look): HeaderInfo {
    info.(headerLines := info.headerLines + [line],
      existingCopyright := First(info.existingCopyright, seen.copyright),
      existingLicenseIdentifier := First(info.existingLicenseIdentifier, seen.license))
  }

  /** The loop state after j lines while a header that started at line k is being collected. */
  ghost predicate Collecting(ls: seq<string>, look: Reader, k: nat, j: nat, info: HeaderInfo) {
    && k < j <= |ls| && k == Preamble(ls, look) && look(ls[k]).StartsHeader()
    && info == HeaderInfo(true, false, CopyrightOf(ls[k..j], look), LicenseOf(ls[k + 1..j], look), ls[k..j], 0)
    && BodyLength(ls[k + 1..], look, "") == j - k - 1 + BodyLength(ls[j..], look, info.existingLicenseIdentifier)
  }

  lemma SliceSnoc(ls: seq<string>, i: nat, j: nat)
    requires i <= j < |ls|
    ensures ls[i..j + 1] == ls[i..j] + [ls[j]]
  {
  }

  lemma {:induction false} MentionsSnoc(ls: seq<string>, line: string, look: Reader)
    ensures CopyrightOf(ls + [line], look) == First(CopyrightOf(ls, look), look(line).copyright)
    ensures LicenseOf(ls + [line], look) == First(LicenseOf(ls, look), look(line).license)
  {
    assert (ls + [line])[..|ls|] == ls;
  }

  lemma {:induction false} BodyLengthStep(ls: seq<string>, look: Reader, j: nat, license: string)
    requires j < |ls|
    ensures BodyLength(ls[j..], look, license) ==
      if EndsHeader(look(ls[j]), license) then 0
      else 1 + BodyLength(ls[j + 1..], look, First(license, look(ls[j]).license))
  {
    assert ls[j..][0] == ls[j] && ls[j..][1..] == ls[j + 1..];
  }

  lemma {:induction false} CollectingStops(ls: seq<string>, look: Reader, k: nat, j: nat, info: HeaderInfo)
    requires Collecting(ls, look, k, j, info) && j < |ls| && EndsHeader(look(ls[j]), info.existingLicenseIdentifier)
    ensures HeaderIn(ls, look) == info.(contentStartLine := j + 1)
  {
    BodyLengthStep(ls, look, j, info.existingLicenseIdentifier);
  }

  lemma {:induction false} CollectingGoesOn(ls: seq<string>, look: Reader, k: nat, j: nat, info: HeaderInfo)
    requires Collecting(ls, look, k, j, info) && j < |ls| && !EndsHeader(look(ls[j]), info.existingLicenseIdentifier)
    ensures Collecting(ls, look, k, j + 1, Extended(info, ls[j], look(ls[j])))
  {
    BodyLengthStep(ls, look, j, info.existingLicenseIdentifier);
    SliceSnoc(ls, k, j);
    SliceSnoc(ls, k + 1, j);
    MentionsSnoc(ls[k..j], ls[j], look);
    MentionsSnoc(ls[k + 1..j], ls[j], look);
  }

  lemma {:induction false} CollectingEnds(ls: seq<string>, look: Reader, k: nat, info: HeaderInfo)
    requires Collecting(ls, look, k, |ls|, info)
    ensures HeaderIn(ls, look) == info.(contentStartLine := |ls| + 1)
  {
  }

  lemma {:induction false} CollectingStarts(ls: seq<string>, look: Reader, k: nat)
    requires k == Preamble(ls, look) < |ls| && look(ls[k]).StartsHeader()
    ensures Collecting(ls, look, k, k + 1, Started(ls[k], look(ls[k])))
  {
    assert ls[k..k + 1] == [] + [ls[k]] && ls[k + 1..k + 1] == [];
    MentionsSnoc([], ls[k], look);
  }

  lemma {:induction false} PreambleStep(ls: seq<string>, look: Reader, j: nat)
    requires j < |ls| && Preamble(ls, look) == j + Preamble(ls[j..], look)
    ensures var seen := look(ls[j]);
      Preamble(ls, look) == if seen.StartsHeader() || seen.Code() then j else j + 1 + Preamble(ls[j + 1..], look)
  {
    assert ls[j..][0] == ls[j] && ls[j..][1..] == ls[j + 1..];
  }

  /** The single pass, from line j on, with what has been found so far. */
  function Pass(ls: seq<string>, look: Reader, j: nat, inHeader: bool, info: HeaderInfo): HeaderInfo
    requires j <= |ls|
    decreases |ls| - j
  {
    if j == |ls| then if inHeader then info.(contentStartLine := |ls| + 1) else info
    else if inHeader then
      if EndsHeader(look(ls[j]), info.existingLicenseIdentifier) then info.(contentStartLine := j + 1)
      else Pass(ls, look, j + 1, true, Extended(info, ls[j], look(ls[j])))
    else if look(ls[j]).StartsHeader() then Pass(ls, look, j + 1, true, Started(ls[j], look(ls[j])))
    else if look(ls[j]).Code() then info.(contentStartLine := j + 1)
    else Pass(ls, look, j + 1, false, info)
  }

  lemma {:induction false} PassCollects(ls: seq<string>, look: Reader, k: nat, j: nat, info: HeaderInfo)
    requires Collecting(ls, look, k, j, info)
    ensures Pass(ls, look, j, true, info) == HeaderIn(ls, look)
    decreases |ls| - j
  {
    if j == |ls| {
      CollectingEnds(ls, look, k, info);
    } else if EndsHeader(look(ls[j]), info.existingLicenseIdentifier) {
      CollectingStops(ls, look, k, j, info);
    } else {
      var next := Extended(info, ls[j], look(ls[j]));
      CollectingGoesOn(ls, look, k, j, info);
      PassCollects(ls, look, k, j + 1, next);
      assert Pass(ls, look, j, true, info) == Pass(ls, look, j + 1, true, next);
    }
  }

  lemma {:induction false} PassSearches(ls: seq<string>, look: Reader, j: nat)
    requires j <= |ls| && Preamble(ls, look) == j + Preamble(ls[j..], look)
    ensures Pass(ls, look, j, false, NOTHING) == HeaderIn(ls, look)
    decreases |ls| - j
  {
    if j < |ls| {
      PreambleStep(ls, look, j);
      var seen := look(ls[j]);
      if seen.StartsHeader() {
        CollectingStarts(ls, look, j);
        PassCollects(ls, look, j, j + 1, Started(ls[j], seen));
      } else if !seen.Code() {
        PassSearches(ls, look, j + 1);
      }
    }
  }

  /** One pass over the lines finds the header. */
  method ParseLines(scan: Scan, look: Reader) returns (r: Parsed)
    ensures r == ParsedLines(scan, look)
  {
    var info, ls := NOTHING, scan.lines;
    var lineNum, inHeader := 0, false;
    assert ls[0..] == ls;
    PassSearches(ls, look, 0);
    while lineNum < |ls|
      invariant 0 <= lineNum <= |ls|
      invariant Pass(ls, look, lineNum, inHeader, info) == HeaderIn(ls, look)
      invariant info.contentStartLine == 0
    {
      var line := ls[lineNum];
      var seen := look(line);
      lineNum := lineNum + 1;
      if !inHeader && seen.comment {
        if seen.copyright.Of? || seen.license.Of? {
          inHeader := true;
          info := Started(line, seen);
          continue;
        }
      }
      if inHeader {
        if seen.comment || seen.blank {
          if info.existingLicenseIdentifier != "" && !(seen.blank || seen.emptyComment) {
            return Parsed(info.(contentStartLine := lineNum));
          }
          info := Extended(info, line, seen);
          continue;
        }
        return Parsed(info.(contentStartLine := lineNum));
      }
      if !inHeader && !seen.blank && !seen.comment {
        return Parsed(info.(contentStartLine := lineNum));
      }
    }
    if scan.tooLong {
      return Failed;
    }
    if inHeader {
      info := info.(contentStartLine := lineNum + 1);
    }
    r := Parsed(info);
  }

  method ParseFileHeader(content: string, look: Reader) returns (r: Parsed)
    ensures r == ParsedHeader(content, look)
  {
    if IsGeneratedFile(content) {
      return Parsed(NOTHING.(isGenerated := true));
    }
    r := ParseLines(Scanned(content), look);
  }

  // ------------------------------------------------------------- applying

  datatype Applied = Applied(text: string) | Unreadable

  function Spacer(header: string): string {
    if |header| >= 2 && header[|header| - 2..] == "\n\n" then "" else "\n"
  }

  /** The lines a rewrite keeps: from the content's start on, and never the shebang, which has been written already. */
  function Kept(ls: seq<string>, start: nat, shebang: bool): seq<string> {
    ls[KeptFrom(ls, start, shebang)..]
  }

  function KeptFrom(ls: seq<string>, start: nat, shebang: bool): (k: nat)
    ensures k <= |ls|
  {
    var from := if start > 0 then start - 1 else 0;
    var k := if shebang && from == 0 then 1 else from;
    if k <= |ls| then k else |ls|
  }

  /** The header goes in front, but after a shebang. */
  function Prepended(t: string, header: string): string {
    var shebang := Shebang(t);
    var sep := if shebang != "" && shebang[|shebang| - 1] != '\n' then "\n" else "";
    shebang + sep + header + Spacer(header) + t[|shebang|..]
  }

  /** The header takes the place of all lines before the content. */
  function Replaced(t: string, header: string, start: nat): string {
    Shebang(t) + header + Spacer(header) + Text(Kept(Scanned(t).lines, start, Shebang(t) != ""))
  }

  /** What applying a header makes of a file. */
  function WithHeader(t: string, header: string, look: Reader): Applied {
    if IsGeneratedFile(t) then Applied(t)
    else if !HasLicenseHeader(t) then Applied(Prepended(t, header))
    else Exchanged(t, header, look)
  }

  /** The header exchanged in a file that has one. */
  function Exchanged(t: string, header: string, look: Reader): Applied {
    var parsed := ParsedLines(Scanned(t), look);
    if parsed.Failed? then Unreadable else Applied(Replaced(t, header, parsed.info.contentStartLine))
  }

  method ApplyHeader(content: string, newHeader: string, look: Reader) returns (r: Applied)
    ensures r == WithHeader(content, newHeader, look)
  {
    if IsGeneratedFile(content) {
      return Applied(content);
    }
    if !HasLicenseHeader(content) {
      var newContent := Prepend(content, newHeader);
      return Applied(newContent);
    }
    var headerInfo := ParseFileHeader(content, look);
    if headerInfo.Failed? {
      return Unreadable;
    }
    var newContent := Replace(content, newHeader, headerInfo.info.contentStartLine);
    r := Applied(newContent);
  }

  method Replace(content: string, newHeader: string, start: nat) returns (newContent: string)
    ensures newContent == Replaced(content, newHeader, start)
  {
    var shebang := HashBang(content);
    newContent := "";
    if |shebang| > 0 {
      newContent := newContent + shebang;
    }
    newContent := WriteHeader(newContent, newHeader);
    newContent := WriteKept(newContent, Scanned(content).lines, start, |shebang| > 0);
  }

  method Prepend(content: string, newHeader: string) returns (newContent: string)
    ensures newContent == Prepended(content, newHeader)
  {
    var shebang := HashBang(content);
    newContent := "";
    var rest := content;
    if |shebang| > 0 {
      newContent := newContent + shebang;
      rest := content[|shebang|..];
      if shebang[|shebang| - 1] != '\n' {
        newContent := newContent + "\n";
      }
    }
    newContent := WriteHeader(newContent, newHeader);
    newContent := newContent + rest;
  }

  method WriteHeader(front: string, newHeader: string) returns (newContent: string)
    ensures newContent == front + newHeader + Spacer(newHeader)
  {
    newContent := front + newHeader;
    if !(|newHeader| >= 2 && newHeader[|newHeader| - 2..] == "\n\n") {
      newContent := newContent + "\n";
    }
  }

  /** Copies the lines from the content's start on, but not a shebang in the first line. */
  method WriteKept(front: string, ls: seq<string>, start: nat, hasShebang: bool) returns (newContent: string)
    ensures newContent == front + Text(Kept(ls, start, hasShebang))
  {
    newContent := front;
    ghost var from := KeptFrom(ls, start, hasShebang);
    ghost var done: seq<string> := [];
    var i := 0;
    while i < |ls|
      invariant 0 <= i <= |ls|
      invariant done == (if i <= from then [] else ls[from..i]) && newContent == front + Text(done)
    {
      var lineNum := i + 1;
      i := i + 1;
      if lineNum == 1 && hasShebang {
        assert i <= from;
        continue;
      }
      if lineNum < start {
        assert i <= from;
        continue;
      }
      assert from <= i - 1 && ls[from..i] == ls[from..i - 1] + [ls[i - 1]];
      TextSnoc(done, ls[i - 1]);
      newContent := newContent + ls[i - 1] + "\n";
      done := done + [ls[i - 1]];
    }
    assert done == ls[from..];
  }

  // ------------------------------------------------------------- checking

  const NEW_RELIC := "New Relic"
  const APACHE := "Apache-2.0"

  datatype FileStatus = Unmodified | Modified | New

  datatype Checked = Verdict(ok: bool) | CheckFailed

  /** Whether the header is the one a file of that status should have. */
  predicate Fits(info: HeaderInfo, status: FileStatus) {
    match status
    case Unmodified => info.hasHeader && !Contains(info.existingCopyright, NEW_RELIC)
    case Modified =>
      && info.hasHeader && info.existingCopyright != ""
      && (exists l :: l in info.headerLines && Contains(l, NEW_RELIC))
      && Contains(info.existingLicenseIdentifier, APACHE)
    case New =>
      info.hasHeader && Contains(info.existingCopyright, NEW_RELIC) && Contains(info.existingLicenseIdentifier, APACHE)
  }

  function CheckedHeader(t: string, look: Reader, status: FileStatus): Checked {
    match ParsedHeader(t, look)
    case Failed => CheckFailed
    case Parsed(info) => Verdict(info.isGenerated || Fits(info, status))
  }

  method AnyContains(lines: seq<string>, part: string) returns (found: bool)
    ensures found <==> exists l :: l in lines && Contains(l, part)
  {
    var i := 0;
    while i < |lines|
      invariant 0 <= i <= |lines|
      invariant forall j :: 0 <= j < i ==> !Contains(lines[j], part)
    {
      if Contains(lines[i], part) {
        return true;
      }
      i := i + 1;
    }
    found := false;
  }

  method CheckHeader(content: string, look: Reader, status: FileStatus) returns (r: Checked)
    ensures r == CheckedHeader(content, look, status)
  {
    var parsed := ParseFileHeader(content, look);
    if parsed.Failed? {
      return CheckFailed;
    }
    var headerInfo := parsed.info;
    if headerInfo.isGenerated {
      return Verdict(true);
    }
    var ok := FitsStatus(headerInfo, status);
    r := Verdict(ok);
  }

  method FitsStatus(headerInfo: HeaderInfo, status: FileStatus) returns (ok: bool)
    ensures ok == Fits(headerInfo, status)
  {
    match status
    case Unmodified =>
      ok := headerInfo.hasHeader && !Contains(headerInfo.existingCopyright, NEW_RELIC);
    case Modified =>
      var hasNewRelic := AnyContains(headerInfo.headerLines, NEW_RELIC);
      ok := headerInfo.hasHeader && headerInfo.existingCopyright != "" && hasNewRelic &&
            Contains(headerInfo.existingLicenseIdentifier, APACHE);
    case New =>
      ok := headerInfo.hasHeader && Contains(headerInfo.existingCopyright, NEW_RELIC) &&
            Contains(headerInfo.existingLicenseIdentifier, APACHE);
  }
}
