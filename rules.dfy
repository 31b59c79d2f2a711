/**
 * What each of the checker's three textual rules reports for a list of
 * manifest lines, stated as functions, together with independent counts of
 * the lines that trigger each rule and the lemmas that relate the two.
 */
module Rules {
  import opened Text
  import opened Reporting

  // ---------------------------------------------------------------------
  // Line predicates

  /** The base-image rule looks at a line only if its raw text begins with "FROM" (no trimming, case-sensitive). */
  predicate IsFromLine(line: string) {
    StartsWith(line, "FROM")
  }

  predicate MentionsLatest(line: string) {
    Contains(Lower(line), "latest")
  }

  predicate MentionsScratch(line: string) {
    Contains(Lower(line), "scratch")
  }

  /** The user rule is satisfied by any line holding "USER" anywhere (case-sensitive). */
  predicate MentionsUser(line: string) {
    Contains(line, "USER")
  }

  /** The ADD rule fires on a line whose stripped text begins with "ADD". */
  predicate IsAddLine(line: string) {
    StartsWith(Strip(line), "ADD")
  }

  predicate LatestHit(line: string) {
    IsFromLine(line) && MentionsLatest(line)
  }

  predicate ScratchHit(line: string) {
    IsFromLine(line) && MentionsScratch(line)
  }

  // ---------------------------------------------------------------------
  // What each rule appends, in order

  /** The base-image findings for one line: the 'latest' warning first, then the 'scratch' note. */
  function LineBaseFindings(line: string): seq<Finding> {
    if IsFromLine(line) then
      (if MentionsLatest(line) then [LatestTag] else [])
      + (if MentionsScratch(line) then [ScratchImage] else [])
    else []
  }

  /** The ADD rule's findings for one line. */
  function LineAddFindings(line: string): seq<Finding> {
    if IsAddLine(line) then [AddInsteadOfCopy] else []
  }

  /** The base-image findings for all lines, in line order. */
  function BaseImageFindings(lines: seq<string>): seq<Finding> {
    PerLine(lines, LineBaseFindings)
  }

  ghost predicate HasUser(lines: seq<string>) {
    exists i :: 0 <= i < |lines| && MentionsUser(lines[i])
  }

  /** The user rule's findings: one warning when no line mentions USER. */
  ghost function UserFindings(lines: seq<string>): seq<Finding> {
    if HasUser(lines) then [] else [NoUser]
  }

  /** The ADD rule's findings: one warning per ADD line, in line order. */
  function AddFindings(lines: seq<string>): seq<Finding> {
    PerLine(lines, LineAddFindings)
  }

  /** Everything one run of the three rules appends, in rule order. */
  ghost function AllFindings(lines: seq<string>): seq<Finding> {
    BaseImageFindings(lines) + UserFindings(lines) + AddFindings(lines)
  }

  /** Everything one run appends for a manifest's text. */
  ghost function RunFindings(content: string): seq<Finding> {
    AllFindings(SplitLines(content))
  }

  function CountLatest(lines: seq<string>): nat {
    CountLines(lines, LatestHit)
  }

  function CountScratch(lines: seq<string>): nat {
    CountLines(lines, ScratchHit)
  }

  function CountAdd(lines: seq<string>): nat {
    CountLines(lines, IsAddLine)
  }

  // ---------------------------------------------------------------------
  // The base-image rule

  /** One line's base-image findings: one 'latest' warning for a latest hit, one 'scratch' note for a scratch hit. */
  lemma LineBaseOccurrences(line: string)
    ensures multiset(LineBaseFindings(line))[LatestTag] == if LatestHit(line) then 1 else 0
    ensures multiset(LineBaseFindings(line))[ScratchImage] == if ScratchHit(line) then 1 else 0
    ensures NoUser !in LineBaseFindings(line) && AddInsteadOfCopy !in LineBaseFindings(line)
  {
  }

  /**
   * One 'latest' warning per FROM line mentioning latest, one 'scratch' note
   * per FROM line mentioning scratch, and nothing else.
   */
  lemma BaseImageCounts(lines: seq<string>)
    ensures multiset(BaseImageFindings(lines))[LatestTag] == CountLatest(lines)
    ensures multiset(BaseImageFindings(lines))[ScratchImage] == CountScratch(lines)
    ensures NoUser !in BaseImageFindings(lines) && AddInsteadOfCopy !in BaseImageFindings(lines)
    ensures |BaseImageFindings(lines)| == CountLatest(lines) + CountScratch(lines)
  {
    forall line
      ensures multiset(LineBaseFindings(line))[LatestTag] == if LatestHit(line) then 1 else 0
      ensures multiset(LineBaseFindings(line))[ScratchImage] == if ScratchHit(line) then 1 else 0
      ensures NoUser !in LineBaseFindings(line) && AddInsteadOfCopy !in LineBaseFindings(line)
    {
      LineBaseOccurrences(line);
    }
    PerLineOccurrences(lines, LineBaseFindings, LatestTag, LatestHit);
    PerLineOccurrences(lines, LineBaseFindings, ScratchImage, ScratchHit);
    PerLineAbsent(lines, LineBaseFindings, NoUser);
    PerLineAbsent(lines, LineBaseFindings, AddInsteadOfCopy);
    FindingsSize(BaseImageFindings(lines));
  }

  /** A line not starting with the literal "FROM" adds no base-image finding, wherever it stands. */
  lemma NonFromLineIgnored(before: seq<string>, line: string, after: seq<string>)
    requires !IsFromLine(line)
    ensures BaseImageFindings(before + [line] + after) == BaseImageFindings(before + after)
  {
    PerLineAppend(before + [line], after, LineBaseFindings);
    PerLineAppend(before, [line], LineBaseFindings);
    PerLineAppend(before, after, LineBaseFindings);
    PerLineSingle(line, LineBaseFindings);
  }

  /** With no FROM line at all, the base-image rule reports nothing. */
  lemma NoFromLinesNoBaseFindings(lines: seq<string>)
    requires forall i :: 0 <= i < |lines| ==> !IsFromLine(lines[i])
    ensures BaseImageFindings(lines) == []
  {
    PerLineSilent(lines, LineBaseFindings);
  }

  /** The prefix test is on the raw, case-sensitive line: indented or lower-case FROM lines are not looked at. */
  lemma UntrimmedFromPrefix(rest: string)
    ensures LineBaseFindings(" FROM " + rest) == []
    ensures LineBaseFindings("from " + rest) == []
  {
    assert (" FROM " + rest)[0] == ' ';
    assert ("from " + rest)[0] == 'f';
  }

  /** Lower-casing keeps an occurrence of a word that has no upper-case letter. */
  lemma LowerKeepsOccurrence(line: string, word: string, k: int)
    requires OccursAt(line, word, k)
    requires forall j :: 0 <= j < |word| ==> !('A' <= word[j] <= 'Z')
    ensures OccursAt(Lower(line), word, k)
  {
    assert forall j :: 0 <= j < |word| ==> line[k + j] == word[j];
    assert Lower(line)[k..k + |word|] == word;
  }

  /** A line holding "latest" at position `k` mentions latest. */
  lemma LatestAt(line: string, k: int)
    requires OccursAt(line, "latest", k)
    ensures MentionsLatest(line)
  {
    LowerKeepsOccurrence(line, "latest", k);
    ContainsAt(Lower(line), "latest");
  }

  /** A line holding "scratch" at position `k` mentions scratch. */
  lemma ScratchAt(line: string, k: int)
    requires OccursAt(line, "scratch", k)
    ensures MentionsScratch(line)
  {
    LowerKeepsOccurrence(line, "scratch", k);
    ContainsAt(Lower(line), "scratch");
  }

  /** Lower-casing produces a letter only from that letter or its upper-case form. */
  lemma LowerHasChar(line: string, c: char)
    requires 'a' <= c <= 'z' && c !in line && (c as int - 32) as char !in line
    ensures c !in Lower(line)
  {
    assert forall i :: 0 <= i < |line| ==> Lower(line)[i] != c;
  }

  /** A line with no 'c' or 'C' in it cannot mention scratch. */
  lemma NoScratchWithoutC(line: string)
    requires 'c' !in line && 'C' !in line
    ensures !MentionsScratch(line)
  {
    LowerHasChar(line, 'c');
    assert 'c' in "scratch";
    if MentionsScratch(line) {
      ContainedCharsOccur(Lower(line), "scratch", 'c');
    }
  }

  /** A tag of 'latest' gives exactly the latest-tag warning. */
  lemma FromLatestExample()
    ensures LineBaseFindings("FROM something:latest") == [LatestTag]
  {
    var line := "FROM something:latest";
    LatestAt(line, 15);
    NoScratchWithoutC(line);
  }

  /** A line with no 'l' or 'L' in it cannot mention latest. */
  lemma NoLatestWithoutL(line: string)
    requires 'l' !in line && 'L' !in line
    ensures !MentionsLatest(line)
  {
    LowerHasChar(line, 'l');
    assert 'l' in "latest";
    if MentionsLatest(line) {
      ContainedCharsOccur(Lower(line), "latest", 'l');
    }
  }

  /** The empty 'scratch' image gives exactly the scratch note. */
  lemma FromScratchExample()
    ensures LineBaseFindings("FROM scratch") == [ScratchImage]
  {
    var line := "FROM scratch";
    ScratchAt(line, 5);
    NoLatestWithoutL(line);
  }

  /** Both rules of the base-image check can fire on one line, the 'latest' warning first. */
  lemma FromScratchLatestExample()
    ensures LineBaseFindings("FROM scratch:latest") == [LatestTag, ScratchImage]
  {
    var line := "FROM scratch:latest";
    LatestAt(line, 13);
    ScratchAt(line, 5);
  }

  // ---------------------------------------------------------------------
  // The user rule

  /** The user rule reports at most once, and does so exactly when no line holds "USER". */
  lemma UserRuleAtMostOnce(lines: seq<string>)
    ensures |UserFindings(lines)| <= 1
    ensures UserFindings(lines) == [NoUser] <==> forall i :: 0 <= i < |lines| ==> !MentionsUser(lines[i])
    ensures UserFindings(lines) == [] <==> exists i :: 0 <= i < |lines| && MentionsUser(lines[i])
  {
  }

  // ---------------------------------------------------------------------
  // The ADD rule

  /** One ADD warning per ADD line, and nothing else. */
  lemma AddCount(lines: seq<string>)
    ensures |AddFindings(lines)| == CountAdd(lines)
    ensures forall f :: f in AddFindings(lines) ==> f == AddInsteadOfCopy
  {
    assert forall line :: multiset(LineAddFindings(line))[AddInsteadOfCopy] == if IsAddLine(line) then 1 else 0;
    PerLineOccurrences(lines, LineAddFindings, AddInsteadOfCopy, IsAddLine);
    PerLineAbsent(lines, LineAddFindings, LatestTag);
    PerLineAbsent(lines, LineAddFindings, ScratchImage);
    PerLineAbsent(lines, LineAddFindings, NoUser);
    FindingsSize(AddFindings(lines));
  }

  /** Unlike the FROM test, the ADD test ignores indentation. */
  lemma IndentedAddCounts(indent: string, line: string)
    requires forall j :: 0 <= j < |indent| ==> IsSpace(indent[j])
    ensures IsAddLine(indent + line) <==> IsAddLine(line)
  {
    TrimLeftSkipsSpaces(indent, line);
    StripStartsWith(indent + line, "ADD");
    StripStartsWith(line, "ADD");
  }

  /** A line that starts with "ADD" gives exactly one ADD warning. */
  lemma AddLineReported(rest: string)
    ensures LineAddFindings("ADD" + rest) == [AddInsteadOfCopy]
  {
    var line := "ADD" + rest;
    assert line[0] == 'A' && line[..3] == "ADD";
    assert TrimLeft(line) == line;
    StripStartsWith(line, "ADD");
  }

  // ---------------------------------------------------------------------
  // The whole run

  /** How many findings one run appends: the base-image hits, at most one USER warning, the ADD lines. */
  lemma FindingsCount(lines: seq<string>)
    ensures |AllFindings(lines)| == CountLatest(lines) + CountScratch(lines) + (if HasUser(lines) then 0 else 1) + CountAdd(lines)
  {
    BaseImageCounts(lines);
    AddCount(lines);
  }

  /** An empty manifest yields exactly the missing-USER warning. */
  lemma EmptyManifest()
    ensures RunFindings("") == [NoUser]
  {
    assert SplitLines("") == [];
    assert !HasUser([]);
  }

  /** Without FROM, USER or ADD lines, the only finding is the missing-USER warning. */
  lemma OnlyUserWarning(lines: seq<string>)
    requires forall i :: 0 <= i < |lines| ==> !IsFromLine(lines[i]) && !MentionsUser(lines[i]) && !IsAddLine(lines[i])
    ensures AllFindings(lines) == [NoUser]
  {
    PerLineSilent(lines, LineBaseFindings);
    PerLineSilent(lines, LineAddFindings);
  }

  /** A manifest written out line by line is checked line by line. */
  lemma RunOnJoinedLines(lines: seq<string>)
    requires NoLineBreaks(lines)
    ensures RunFindings(JoinLines(lines)) == AllFindings(lines)
  {
    SplitJoinLines(lines);
  }

  /** The same holds when the last line of the manifest has no terminator. */
  lemma RunOnUnterminatedLines(lines: seq<string>, last: string)
    requires NoLineBreaks(lines)
    requires last != [] && forall j :: 0 <= j < |last| ==> !IsLineBreak(last[j])
    ensures RunFindings(JoinLines(lines) + last) == AllFindings(lines + [last])
  {
    SplitJoinLast(lines, last);
  }
}
