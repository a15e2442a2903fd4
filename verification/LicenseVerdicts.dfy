/** The licence check on whole files: exactly which headers each file status accepts, and which it rejects. */
module LicenseVerdicts {
  import opened LicenseText
  import opened LicenseHeader
  import opened LicenseLaws
  import opened LicenseFixpoint
  import opened LicenseTemplates

  /**
   * What the check asks: no New Relic copyright in files that were not modified, a New Relic line and the Apache
   * licence in modified ones, and in new ones a New Relic copyright and the Apache licence.
   */
  ghost predicate Asked(status: FileStatus, lines: seq<string>, holder: string, license: string) {
    match status
    case Unmodified => !Contains(holder, "New Relic")
    case Modified => Contains(license, "Apache-2.0") && exists l :: l in lines && Contains(l, "New Relic")
    case New => Contains(holder, "New Relic") && Contains(license, "Apache-2.0")
  }

  /** No blank line and no empty comment names New Relic. */
  ghost predicate NothingHidden(look: Reader) {
    forall l: string :: look(l).Skippable() ==> !Contains(l, "New Relic")
  }

  lemma {:induction false} EmptyRunIsSkippable(ls: seq<string>, look: Reader)
    ensures forall i :: 0 <= i < EmptyRun(ls, look) ==> look(ls[i]).Skippable()
  {
    if ls != [] && !look(ls[0]).Code() && look(ls[0]).Skippable() {
      EmptyRunIsSkippable(ls[1..], look);
    }
  }

  /** Only the header's own lines can name New Relic, not the empty lines counted to it. */
  lemma {:induction false} NamedInHeader(k: nat, h: seq<string>, x: seq<string>, look: Reader)
    requires h != [] && look(h[0]).copyright.Of? && look("").blank && NothingHidden(look)
    ensures (exists l :: l in FoundInfo(k, h, x, look).headerLines && Contains(l, "New Relic")) <==>
            exists l :: l in h && Contains(l, "New Relic")
  {
    var e, lines := EmptyRun(x, look), FoundInfo(k, h, x, look).headerLines;
    EmptyRunIsSkippable(x, look);
    assert lines == h + [""] + x[..e];
    forall l | l in [""] + x[..e] ensures !Contains(l, "New Relic") {
      if l in x[..e] {
        var i :| 0 <= i < e && x[..e][i] == l;
      }
    }
  }

  lemma {:induction false} FoundIsAsked(k: nat, h: seq<string>, x: seq<string>, look: Reader, status: FileStatus)
    requires GoodHeader(h, look) && look("").blank && NothingHidden(look)
    ensures Fits(FoundInfo(k, h, x, look), status) <==>
            Asked(status, h, look(h[0]).copyright.value, Identifier(h, look))
  {
    NamedInHeader(k, h, x, look);
  }

  /**
   * The verdict on a file with a good header in front. Below a shebang that is code it is always no. Otherwise it is
   * yes exactly when the header says what the status asks, and there is none when all below the header is empty up to a
   * line too long.
   */
  lemma {:induction false} Judged(sb: string, h: seq<string>, body: string, look: Reader, status: FileStatus)
    requires ShebangLine(sb) && GoodHeader(h, look) && look("").blank && NothingHidden(look)
    requires forall l :: l in ShebangLines(sb) ==> !look(l).StartsHeader()
    requires !IsGeneratedFile(Front(sb, h) + body)
    ensures CheckedHeader(Front(sb, h) + body, look, status) ==
      if !CommentShebang(sb, look) then Verdict(false)
      else if NothingBelow(body, look) then CheckFailed
      else Verdict(Asked(status, h, look(h[0]).copyright.value, Identifier(h, look)))
  {
    if CommentShebang(sb, look) {
      FrontParsed(sb, h, body, look);
      FoundIsAsked(|ShebangLines(sb)|, h, Scanned(body).lines, look, status);
    } else {
      CodeShebangHides(sb, h, body, look);
    }
  }

  // ------------------------------------------------------- noticing a licence

  /** The characters from i to j are one of the phrases looked for, in any case, within the first thousand. */
  predicate PhraseAt(t: string, i: nat, j: nat) {
    && i <= j <= |t| && j <= 1000
    && var phrase := ToLower(t[i..j]);
       phrase == "copyright" || phrase == "mozilla public" || phrase == "spdx-license-identifier"
  }

  /** A licence is noticed exactly when one of the phrases ends within the first thousand characters. */
  lemma {:induction false} NoticedExactly(t: string)
    ensures HasLicenseHeader(t) <==> exists i, j :: PhraseAt(t, i, j)
  {
    var n := if |t| < 1000 then |t| else 1000;
    var seen := t[..n];
    assert seen == if |t| < 1000 then t else t[..1000];
    if i: nat, j: nat :| PhraseAt(t, i, j) {
      PrefixSlice(t, n, i, j);
      LowerOfPart(seen, i, j);
      var phrase := ToLower(t[i..j]);
      assert i + |phrase| == j && ToLower(seen)[i..j] == phrase;
      assert OccursAt(ToLower(seen), phrase, i);
    }
    PhraseFound(t, n, "copyright");
    PhraseFound(t, n, "mozilla public");
    PhraseFound(t, n, "spdx-license-identifier");
  }

  lemma {:induction false} PrefixSlice(t: string, n: nat, i: nat, j: nat)
    requires i <= j <= n <= |t|
    ensures t[..n][i..j] == t[i..j]
  {
    forall k | 0 <= k < j - i ensures t[..n][i..j][k] == t[i..j][k] {
      assert t[..n][i + k] == t[i + k];
    }
  }

  lemma {:induction false} PhraseFound(t: string, n: nat, phrase: string)
    requires n <= |t| && n <= 1000
    requires phrase == "copyright" || phrase == "mozilla public" || phrase == "spdx-license-identifier"
    ensures Contains(ToLower(t[..n]), phrase) ==> exists i, j :: PhraseAt(t, i, j)
  {
    if Contains(ToLower(t[..n]), phrase) {
      var i :| 0 <= i <= n && OccursAt(ToLower(t[..n]), phrase, i);
      var j := i + |phrase|;
      LowerOfPart(t[..n], i, j);
      PrefixSlice(t, n, i, j);
      assert PhraseAt(t, i, j);
    }
  }

  // ------------------------------------------------------------ generated files

  predicate GeneratedLine(l: string, k: nat) {
    && 1 <= k <= 3 && k + 29 <= |l|
    && l == l[..k] + " Code generated " + l[k + 16..|l| - 13] + " DO NOT EDIT."
  }

  /** A line marks its file as generated when the notice comes after one to three characters and ends the line. */
  lemma {:induction false} MarkShape(l: string)
    ensures IsGeneratedMark(l) <==> exists k :: GeneratedLine(l, k)
  {
    forall k: nat | 1 <= k <= 3 && k + 29 <= |l|
      ensures GeneratedLine(l, k) <==> OccursAt(l, " Code generated ", k) && OccursAt(l, " DO NOT EDIT.", |l| - 13)
    {
      assert l[|l| - 13..] == l[|l| - 13..|l|];
      FourParts(l, k, k + 16, |l| - 13, " Code generated ", " DO NOT EDIT.");
    }
  }

  lemma {:induction false} FourParts(l: string, a: nat, b: nat, c: nat, second: string, last: string)
    requires a <= b <= c <= |l| && |second| == b - a && |last| == |l| - c
    ensures l == l[..a] + second + l[b..c] + last <==> l[a..b] == second && l[c..] == last
  {
    var whole := l[..a] + second + l[b..c] + last;
    assert whole[a..b] == second && whole[c..] == last;
    assert l == l[..a] + l[a..b] + l[b..c] + l[c..];
  }

  /** Such a file is left alone and always accepted. */
  lemma {:induction false} GeneratedFilesAreLeftAlone(t: string, l: string, k: nat, header: string, look: Reader,
                                                      status: FileStatus)
    requires l in RawLines(t) && GeneratedLine(l, k)
    ensures WithHeader(t, header, look) == Applied(t) && CheckedHeader(t, look, status) == Verdict(true)
  {
    MarkShape(l);
  }

  // -------------------------------------------------------------- the templates

  lemma {:induction false} TrimLeftKeeps(s: string, c: char)
    requires c in s && !IsSpace(c)
    ensures c in TrimLeft(s)
  {
    if IsSpace(s[0]) {
      assert s == [s[0]] + s[1..];
      TrimLeftKeeps(s[1..], c);
    }
  }

  lemma {:induction false} TrimRightKeeps(s: string, c: char)
    requires c in s && !IsSpace(c)
    ensures c in TrimRight(s)
  {
    var last := |s| - 1;
    if IsSpace(s[last]) {
      assert s == s[..last] + [s[last]];
      TrimRightKeeps(s[..last], c);
    }
  }

  lemma {:induction false} NamesHaveLetters(l: string)
    requires Contains(l, "New Relic")
    ensures 'N' in l
  {
    var i :| 0 <= i <= |l| && OccursAt(l, "New Relic", i);
    assert l[i] == l[i..i + 9][0];
  }

  lemma {:induction false} SkippableHasNoName(l: string, ext: string)
    requires ReaderFor(ext)(l).Skippable()
    ensures 'N' !in l
  {
    if 'N' in l {
      TrimLeftKeeps(l, 'N');
      TrimRightKeeps(TrimLeft(l), 'N');
      NoMarkerHasName(TrimSpace(l), CommentStyle(ext));
    }
  }

  lemma {:induction false} NoMarkerHasName(s: string, c: string)
    requires Marker(c) && 'N' in s
    ensures TrimPrefix(s, c) != ""
  {
    if c <= s {
      assert s == c + s[|c|..];
    }
  }

  lemma {:induction false} ReadersHideNothing(ext: string)
    ensures NothingHidden(ReaderFor(ext)) && ReaderFor(ext)("").blank
  {
    forall l: string | ReaderFor(ext)(l).Skippable() ensures !Contains(l, "New Relic") {
      SkippableHasNoName(l, ext);
      if Contains(l, "New Relic") {
        NamesHaveLetters(l);
      }
    }
  }

  lemma {:induction false} NameBehindMarker(c: string, text: string)
    requires Marker(c)
    ensures Contains(Commented(c, text), "New Relic") <==> Contains(text, "New Relic")
  {
    var line := Commented(c, text);
    if Contains(line, "New Relic") {
      var i :| 0 <= i <= |line| && OccursAt(line, "New Relic", i);
      NameIsInText(c, text, i);
    }
    if Contains(text, "New Relic") {
      var i :| 0 <= i <= |text| && OccursAt(text, "New Relic", i);
      var j := |c| + 1 + i;
      assert line[j..j + 9] == text[i..i + 9];
      assert OccursAt(line, "New Relic", j);
    }
  }

  lemma {:induction false} NameIsInText(c: string, text: string, i: nat)
    requires Marker(c) && i <= |Commented(c, text)| && OccursAt(Commented(c, text), "New Relic", i)
    ensures Contains(text, "New Relic")
  {
    var line := Commented(c, text);
    assert line[i] == line[i..i + 9][0] == 'N';
    assert i >= |c| + 1;
    var j := i - |c| - 1;
    assert text[j..j + 9] == line[i..i + 9];
    assert OccursAt(text, "New Relic", j);
  }

  lemma {:induction false} NamedInTemplate(ls: seq<string>, ext: string)
    ensures (exists l :: l in CommentedLines(ls, ext) && Contains(l, "New Relic")) <==>
            exists l :: l in ls && Contains(l, "New Relic")
  {
    var h := CommentedLines(ls, ext);
    forall i | 0 <= i < |ls| ensures Contains(h[i], "New Relic") <==> Contains(ls[i], "New Relic") {
      NameBehindMarker(CommentStyle(ext), ls[i]);
    }
    if l :| l in h && Contains(l, "New Relic") {
      var i :| 0 <= i < |h| && h[i] == l;
      assert ls[i] in ls;
    }
    if l :| l in ls && Contains(l, "New Relic") {
      var i :| 0 <= i < |ls| && ls[i] == l;
      assert h[i] in h;
    }
  }

  lemma {:induction false} AskedOfTemplate(ls: seq<string>, ext: string, status: FileStatus, holder: string,
                                           license: string)
    ensures Asked(status, CommentedLines(ls, ext), holder, license) <==> Asked(status, ls, holder, license)
  {
    NamedInTemplate(ls, ext);
  }

  /**
   * The verdict on a file that starts with a commented template, in files of any type: yes exactly when the template
   * names the holder and the licence that the status asks for.
   */
  lemma {:induction false} TemplateJudged(ls: seq<string>, holder: string, license: string, ext: string, body: string,
                                          status: FileStatus)
    requires TemplateText(ls, holder, license)
    requires !IsGeneratedFile(Front("", CommentedLines(ls, ext)) + body) && !NothingBelow(body, ReaderFor(ext))
    ensures CheckedHeader(Front("", CommentedLines(ls, ext)) + body, ReaderFor(ext), status) ==
            Verdict(Asked(status, ls, holder, license))
  {
    CommentedHeaderIsGood(ls, holder, license, ext);
    ReadersHideNothing(ext);
    AskedOfTemplate(ls, ext, status, holder, license);
    JudgedAs(CommentedLines(ls, ext), body, ReaderFor(ext), status, holder, license);
  }

  lemma {:induction false} JudgedAs(h: seq<string>, body: string, look: Reader, status: FileStatus,
                                    holder: string, license: string)
    requires SaysWell(h, look, holder, license) && look("").blank && NothingHidden(look)
    requires !IsGeneratedFile(Front("", h) + body) && !NothingBelow(body, look)
    ensures CheckedHeader(Front("", h) + body, look, status) == Verdict(Asked(status, h, holder, license))
  {
    Judged("", h, body, look, status);
  }

  // -------------------------------------------------- a rejected file per status

  /** A Go file with a header of two lines and a line of code below. */
  function TwoLines(holder: string, license: string): seq<string> {
    [CopyrightOfHolder(holder), Identified(license)]
  }

  function GoFile(holder: string, license: string): string {
    Front("", CommentedLines(TwoLines(holder, license), ".go")) + Text(["x"])
  }

  lemma {:induction false} TwoLinesHaveNoMark(holder: string, license: string)
    ensures forall l :: l in CommentedLines(TwoLines(holder, license), ".go") ==> !IsGeneratedMark(l)
  {
    var h := CommentedLines(TwoLines(holder, license), ".go");
    forall i | 0 <= i < |h| ensures !IsGeneratedMark(h[i]) {
      var text := TwoLines(holder, license)[i];
      assert h[i] == "//" + " " + text && h[i][1] == '/' && h[i][3] == text[0] && h[i][5] == text[2];
      CommentIsNoMark(h[i]);
    }
  }

  lemma {:induction false} GoFileIsNotGenerated(holder: string, license: string)
    requires TemplateText(TwoLines(holder, license), holder, license)
    ensures !IsGeneratedFile(GoFile(holder, license))
  {
    var h := CommentedLines(TwoLines(holder, license), ".go");
    LinesRead(TwoLines(holder, license), holder, license, ".go");
    FrontLines("", h, Text(["x"]));
    OneLineRead("x");
    TwoLinesHaveNoMark(holder, license);
    CommentIsNoMark("");
    CommentIsNoMark("x");
    assert [] + (h + [""] + ["x"]) == h + [""] + ["x"];
    NoMarksNotGenerated(GoFile(holder, license), h, "x");
  }

  lemma {:induction false} TwoLinesAreTemplate(holder: string, license: string)
    requires Trimmed(holder) && |holder| < 50 && '\n' !in holder
    requires Trimmed(license) && |license| < 50 && '\n' !in license
    ensures TemplateText(TwoLines(holder, license), holder, license)
  {
    HolderLineIsShort(holder);
    var line := Identified(license);
    assert line[|line| - 1] == license[|license| - 1];
  }

  /** The check of such a file comes down to its holder and its licence. */
  lemma {:induction false} GoFileJudged(holder: string, license: string, status: FileStatus)
    requires Trimmed(holder) && |holder| < 50 && '\n' !in holder
    requires Trimmed(license) && |license| < 50 && '\n' !in license
    ensures CheckedHeader(GoFile(holder, license), ReaderFor(".go"), status) ==
            Verdict(Asked(status, TwoLines(holder, license), holder, license))
  {
    TwoLinesAreTemplate(holder, license);
    GoFileIsNotGenerated(holder, license);
    TextScanned(["x"]);
    TemplateJudged(TwoLines(holder, license), holder, license, ".go", Text(["x"]), status);
  }

  lemma {:induction false} NotNamed(s: string)
    requires 'N' !in s
    ensures !Contains(s, "New Relic")
  {
    if Contains(s, "New Relic") {
      NamesHaveLetters(s);
    }
  }

  /** The upstream project's copyright holder. */
  function Upstream(): string {
    "The OpenTelemetry Authors"
  }

  lemma {:induction false} UpstreamIsTrimmed()
    ensures Trimmed(Upstream()) && |Upstream()| < 50 && '\n' !in Upstream() && 'N' !in Upstream()
  {
    assert Upstream()[0] == 'T' && Upstream()[|Upstream()| - 1] == 's';
  }

  lemma {:induction false} ApacheIsTrimmed()
    ensures Trimmed(APACHE) && |APACHE| < 50 && '\n' !in APACHE && 'N' !in APACHE && Contains(APACHE, "Apache-2.0")
  {
    assert APACHE[0] == 'A' && APACHE[|APACHE| - 1] == '0';
    assert OccursAt(APACHE, "Apache-2.0", 0);
  }

  lemma {:induction false} OwnerIsTrimmed()
    ensures Trimmed(NEW_RELIC) && |NEW_RELIC| < 50 && '\n' !in NEW_RELIC && Contains(NEW_RELIC, "New Relic")
  {
    assert NEW_RELIC[0] == 'N' && NEW_RELIC[|NEW_RELIC| - 1] == 'c';
    assert OccursAt(NEW_RELIC, "New Relic", 0);
  }

  lemma {:induction false} LinesNameNobody(holder: string, license: string)
    requires 'N' !in holder && 'N' !in license
    ensures forall l :: l in TwoLines(holder, license) ==> !Contains(l, "New Relic")
  {
    NotNamed(CopyrightOfHolder(holder));
    NotNamed(Identified(license));
  }

  lemma {:induction false} LinesNameOwner(license: string)
    ensures exists l :: l in TwoLines(NEW_RELIC, license) && Contains(l, "New Relic")
  {
    assert OccursAt(CopyrightOfHolder(NEW_RELIC), "New Relic", 10);
    assert CopyrightOfHolder(NEW_RELIC) in TwoLines(NEW_RELIC, license);
  }

  /** A file with the upstream project's header is accepted as it was, and neither as modified nor as new. */
  lemma {:induction false} UpstreamFileJudged(status: FileStatus)
    ensures CheckedHeader(GoFile(Upstream(), APACHE), ReaderFor(".go"), status) == Verdict(status == Unmodified)
  {
    UpstreamIsTrimmed();
    ApacheIsTrimmed();
    GoFileJudged(Upstream(), APACHE, status);
    LinesNameNobody(Upstream(), APACHE);
    NotNamed(Upstream());
  }

  /** A file with New Relic's header is accepted as new and as modified, but not as unmodified. */
  lemma {:induction false} OwnFileJudged(status: FileStatus)
    ensures CheckedHeader(GoFile(NEW_RELIC, APACHE), ReaderFor(".go"), status) == Verdict(status != Unmodified)
  {
    OwnerIsTrimmed();
    ApacheIsTrimmed();
    GoFileJudged(NEW_RELIC, APACHE, status);
    LinesNameOwner(APACHE);
  }

  /** Another licence. */
  function OtherLicense(): string {
    "MIT"
  }

  lemma {:induction false} OtherLicenseIsTrimmed()
    ensures Trimmed(OtherLicense()) && |OtherLicense()| < 50 && '\n' !in OtherLicense()
    ensures !Contains(OtherLicense(), "Apache-2.0")
  {
    assert OtherLicense()[0] == 'M' && OtherLicense()[2] == 'T';
  }

  /** With another licence it is accepted for no status. */
  lemma {:induction false} OtherLicenseJudged(status: FileStatus)
    ensures CheckedHeader(GoFile(NEW_RELIC, OtherLicense()), ReaderFor(".go"), status) == Verdict(false)
  {
    OwnerIsTrimmed();
    OtherLicenseIsTrimmed();
    GoFileJudged(NEW_RELIC, OtherLicense(), status);
  }
}
