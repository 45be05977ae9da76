/** Printing reports as canonical text and parsing the text back. */
module RoundTrip {
  import opened Basics
  import opened Text
  import opened Reports
  import opened Canonical
  import opened Divergence

  lemma {:induction false} UniversalPlain(s: string)
    requires forall i | 0 <= i < |s| :: s[i] != '\r'
    ensures Universal(s) == s
  {
    if s != "" {
      UniversalPlain(s[1..]);
    }
  }

  ghost predicate PlainChar(c: char) {
    IsDigit(c) || c == '-' || c == ',' || c == '\n'
  }

  lemma {:induction false} JoinLinesPlain(lines: seq<string>)
    requires forall i, j | 0 <= i < |lines| && 0 <= j < |lines[i]| :: PlainChar(lines[i][j])
    ensures forall j | 0 <= j < |Join(lines, '\n')| :: PlainChar(Join(lines, '\n')[j])
  {
    if |lines| > 1 {
      JoinLinesPlain(lines[..|lines| - 1]);
    }
  }

  /** Reading a canonical file gives back its lines. */
  lemma FileLinesJoin(lines: seq<string>)
    requires forall i | 0 <= i < |lines| :: lines[i] != "" && Free(lines[i], '\n')
    requires forall i, j | 0 <= i < |lines| && 0 <= j < |lines[i]| :: PlainChar(lines[i][j])
    ensures FileLines(Join(lines, '\n')) == lines
  {
    JoinLinesPlain(lines);
    UniversalPlain(Join(lines, '\n'));
    if lines != [] {
      SplitJoin(lines, '\n');
    }
  }

  lemma {:induction false} LinesPlainChars(rs: seq<Report>)
    ensures forall i, j | 0 <= i < |Lines(rs)| && 0 <= j < |Lines(rs)[i]| :: PlainChar(Lines(rs)[i][j])
  {
    hide Line;
    if rs != [] {
      var n := |rs| - 1;
      LinesPlainChars(rs[..n]);
      if Known(rs[n]) {
        LinePlain(rs[n]);
      }
    }
  }

  /** int() reads every printed number back, negative ones included. */
  lemma PrintsReads(s: string, n: int)
    requires Prints(s, n)
    ensures PyInt(s) == Some(n)
  {
    hide Strip;
    var digits := if n < 0 then s[1..] else s;
    DigitsValueDec(digits);
    NothingToStrip(s);
  }

  lemma NothingToStrip(s: string)
    requires s != "" && !IsSpace(s[0]) && !IsSpace(s[|s| - 1])
    ensures Strip(s) == s
  {}

  /** The divergence tool reads every column of a printed line as the report's field. */
  lemma LineReadsBack(r: Report)
    requires Known(r)
    ensures var parts := Split(Line(r), ',');
            && |parts| == (match r.kind case 2 => 5 case 4 => 3 case 5 => 3 case _ => 6)
            && PyInt(parts[0]) == Some(r.kind) && PyInt(parts[1]) == Some(r.seqno)
            && (r.kind == 1 ==>
                  && PyInt(parts[2]) == Some(r.price) && PyInt(parts[3]) == Some(r.qty)
                  && PyInt(parts[4]) == Some(r.maker) && PyInt(parts[5]) == Some(r.taker))
            && (r.kind in {0, 2, 3} ==>
                  && PyInt(parts[2]) == Some(r.side) && PyInt(parts[3]) == Some(r.orderId)
                  && PyInt(parts[4]) == Some(r.price) && (r.kind != 2 ==> PyInt(parts[5]) == Some(r.qty)))
            && (r.kind in {4, 5} ==> PyInt(parts[2]) == Some(r.orderId))
  {
    hide PyInt, Line, Prints, Split;
    LineShowsReport(r);
    var parts := Split(Line(r), ',');
    forall n, i | 0 <= i < |parts| && Prints(parts[i], n) ensures PyInt(parts[i]) == Some(n) {
      PrintsReads(parts[i], n);
    }
  }

  lemma KindField(r: Report)
    requires Known(r)
    ensures PyInt(Fields(r)[0]) == Some(r.kind) && PyInt(Fields(r)[1]) == Some(r.seqno)
    ensures FieldCount(r.kind) == Some(|Fields(r)|)
  {
    hide PyInt;
    PyIntDec(r.kind);
    PyIntDec(r.seqno);
    assert Fields(r)[0] == Dec(r.kind);
  }

  /** The parser reads a printed report's own sequence number. */
  lemma SequenceOfLine(r: Report)
    requires Known(r)
    ensures Sequence(Line(r)) == Some(r.seqno)
  {
    hide PyInt, Fields, Line;
    LinePlain(r);
    LineSplits(r);
    KindField(r);
  }

  lemma {:induction false} SortedAccepts(rs: seq<Report>)
    requires Sorted(rs)
    ensures Accepts(Lines(rs))
    ensures forall x | AllNotAfter(rs, x) :: LastSeq(Lines(rs)) <= x.seqno
  {
    hide Sequence, SeqOf, Line;
    if rs != [] {
      var n := |rs| - 1;
      SortedAccepts(rs[..n]);
      assert AllNotAfter(rs[..n], rs[n]);
      if Known(rs[n]) {
        SequenceOfLine(rs[n]);
        SeqOfIs(Line(rs[n]));
        AcceptsMore(Lines(rs[..n]), Line(rs[n]));
      } else {
        assert Lines(rs) == Lines(rs[..n]);
        forall x | AllNotAfter(rs, x) ensures LastSeq(Lines(rs)) <= x.seqno {
          assert AllNotAfter(rs[..n], x);
        }
      }
    }
  }

  lemma AcceptsMore(lines: seq<string>, line: string)
    requires Accepts(lines) && Sequence(line).Some? && SeqOf(line) >= LastSeq(lines)
    ensures Accepts(lines + [line]) && LastSeq(lines + [line]) == SeqOf(line)
  {}

  /** Every printed text parses, and its groups' lines joined by newlines are the text. */
  lemma PrintParse(rs: seq<Report>)
    ensures var lines := FileLines(CanonicalText(rs));
            && lines == Lines(StableSort(rs))
            && Accepts(lines)
            && IsGrouping(lines, Grouping(lines))
            && Join(Flatten(Grouping(lines)), '\n') == CanonicalText(rs)
  {
    hide Lines, Join, Accepts, Grouping, Flatten, FileLines, StableSort, Sub, Below;
    StableSortSorts(rs);
    LinesPlain(StableSort(rs));
    LinesPlainChars(StableSort(rs));
    FileLinesJoin(Lines(StableSort(rs)));
    SortedAccepts(StableSort(rs));
    GroupingIs(Lines(StableSort(rs)));
  }

  /** The parser never raises on printed text: its groups are strictly increasing, each is
      exactly the lines of its sequence number with its first line number, and together they
      are the text again. */
  method ParsePrinted(rs: seq<Report>) returns (groups: seq<Group>)
    ensures IsGrouping(Lines(StableSort(rs)), groups)
    ensures Join(Flatten(groups), '\n') == CanonicalText(rs)
  {
    hide Lines, Join, Accepts, Grouping, Flatten, FileLines, StableSort, CanonicalText, IsGrouping;
    PrintParse(rs);
    HandedIsGrouping(FileLines(CanonicalText(rs)));
    var p := CanonicalGroups(CanonicalText(rs));
    assert p.failed.None?;
    groups := p.groups;
  }
}
