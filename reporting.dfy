/**
 * The findings the checker reports, how each is rendered as the line of text
 * the checker stores, and the shape every rule shares: a rule looks at each
 * manifest line on its own and reports its findings for the lines in order.
 */
module Reporting {
  import opened Text

  datatype Severity = Warning | Info

  /** The four findings the checker can report; `Text` is the exact line the checker appends for each. */
  datatype Finding = LatestTag | ScratchImage | NoUser | AddInsteadOfCopy
  {
    function Severity(): Severity {
      if this == ScratchImage then Info else Warning
    }

    function Message(): string {
      match this
      case LatestTag => "Base image uses 'latest' tag. Use specific versions."
      case ScratchImage => "Base image is 'scratch'. Ensure minimal image is needed."
      case NoUser => "No USER instruction found. Containers run as root by default."
      case AddInsteadOfCopy => "'ADD' used instead of 'COPY'. 'COPY' is preferred unless needed."
    }

    /** The rendered finding: "[WARNING] " or "[INFO] ", then the message. */
    function Text(): string {
      SeverityTag(Severity()) + Message()
    }
  }

  function SeverityTag(s: Severity): string {
    match s
    case Warning => "[WARNING] "
    case Info => "[INFO] "
  }

  lemma LatestTagLength()
    ensures |LatestTag.Message()| == 52
  {
  }

  lemma ScratchImageLength()
    ensures |ScratchImage.Message()| == 56
  {
  }

  lemma NoUserLength()
    ensures |NoUser.Message()| == 61
  {
  }

  lemma AddInsteadOfCopyLength()
    ensures |AddInsteadOfCopy.Message()| == 64
  {
  }

  /**
   * Different findings are rendered as different lines, so a list of
   * findings stands for exactly one list of rendered lines.
   */
  lemma TextInjective(f: Finding, g: Finding)
    ensures f.Text() == g.Text() <==> f == g
  {
    LatestTagLength();
    ScratchImageLength();
    NoUserLength();
    AddInsteadOfCopyLength();
    if f != g && f.Severity() == g.Severity() {
      assert f.Message() != g.Message();
      assert f.Text()[|SeverityTag(f.Severity())|..] == f.Message();
    } else if f.Severity() != g.Severity() {
      assert f.Text()[1] != g.Text()[1];
    }
  }

  /** A list of findings is as long as the number of times each of the four findings occurs in it, added up. */
  lemma {:induction false} FindingsSize(fs: seq<Finding>)
    ensures |fs| == multiset(fs)[LatestTag] + multiset(fs)[ScratchImage] + multiset(fs)[NoUser] + multiset(fs)[AddInsteadOfCopy]
  {
    if fs != [] {
      assert fs == [fs[0]] + fs[1..];
      assert multiset(fs) == multiset([fs[0]]) + multiset(fs[1..]);
      FindingsSize(fs[1..]);
      var rest := multiset(fs[1..]);
      match fs[0]
      case LatestTag => assert multiset(fs) == rest[LatestTag := rest[LatestTag] + 1];
      case ScratchImage => assert multiset(fs) == rest[ScratchImage := rest[ScratchImage] + 1];
      case NoUser => assert multiset(fs) == rest[NoUser := rest[NoUser] + 1];
      case AddInsteadOfCopy => assert multiset(fs) == rest[AddInsteadOfCopy := rest[AddInsteadOfCopy] + 1];
    }
  }

  // ---------------------------------------------------------------------
  // Rules that look at one line at a time

  /** The findings a per-line rule `f` reports for `lines`: each line's findings, in line order. */
  function PerLine(lines: seq<string>, f: string -> seq<Finding>): seq<Finding> {
    if lines == [] then []
    else PerLine(lines[..|lines| - 1], f) + f(lines[|lines| - 1])
  }

  /** How many of `lines` satisfy `p`. */
  function CountLines(lines: seq<string>, p: string -> bool): nat {
    if lines == [] then 0
    else (if p(lines[0]) then 1 else 0) + CountLines(lines[1..], p)
  }

  lemma {:induction false} CountLinesSnoc(lines: seq<string>, line: string, p: string -> bool)
    ensures CountLines(lines + [line], p) == CountLines(lines, p) + (if p(line) then 1 else 0)
  {
    if lines != [] {
      assert (lines + [line])[1..] == lines[1..] + [line];
      CountLinesSnoc(lines[1..], line, p);
    }
  }

  /** A per-line rule's findings for two blocks of lines are those of the first block, then those of the second. */
  lemma {:induction false} PerLineAppend(a: seq<string>, b: seq<string>, f: string -> seq<Finding>)
    ensures PerLine(a + b, f) == PerLine(a, f) + PerLine(b, f)
    decreases |b|
  {
    if b == [] {
      assert a + b == a;
    } else {
      assert (a + b)[..|a + b| - 1] == a + b[..|b| - 1];
      PerLineAppend(a, b[..|b| - 1], f);
    }
  }

  lemma PerLineSingle(line: string, f: string -> seq<Finding>)
    ensures PerLine([line], f) == f(line)
  {
    assert [line][..0] == [];
  }

  /**
   * When a rule reports finding `x` once for each line satisfying `p` and
   * never otherwise, `x` occurs in its findings once per such line.
   */
  lemma {:induction false} PerLineOccurrences(lines: seq<string>, f: string -> seq<Finding>, x: Finding, p: string -> bool)
    requires forall line :: multiset(f(line))[x] == if p(line) then 1 else 0
    ensures multiset(PerLine(lines, f))[x] == CountLines(lines, p)
  {
    if lines != [] {
      var init, last := lines[..|lines| - 1], lines[|lines| - 1];
      assert lines == init + [last];
      PerLineOccurrences(init, f, x, p);
      CountLinesSnoc(init, last, p);
    }
  }

  /** A finding no line reports is not among the findings for any lines. */
  lemma {:induction false} PerLineAbsent(lines: seq<string>, f: string -> seq<Finding>, x: Finding)
    requires forall line :: x !in f(line)
    ensures x !in PerLine(lines, f)
  {
    if lines != [] {
      PerLineAbsent(lines[..|lines| - 1], f, x);
    }
  }

  /** Lines on which a rule reports nothing can be dropped from its input without changing its findings. */
  lemma {:induction false} PerLineSilent(lines: seq<string>, f: string -> seq<Finding>)
    requires forall i :: 0 <= i < |lines| ==> f(lines[i]) == []
    ensures PerLine(lines, f) == []
  {
    if lines != [] {
      PerLineSilent(lines[..|lines| - 1], f);
    }
  }
}
