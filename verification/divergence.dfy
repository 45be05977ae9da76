/** Reading canonical report text back: the validating group parser and the first-divergence
    finder of scripts/explain_divergence.py. */
module Divergence {
  import opened Basics
  import opened Text

  // ----- Python's text model ---------------------------------------------------------------

  /** Universal newlines: "\r\n" and a lone '\r' read as '\n'. */
  function Universal(s: string): string {
    if s == "" then ""
    else if s[0] == '\r' then "\n" + Universal(if |s| > 1 && s[1] == '\n' then s[2..] else s[1..])
    else [s[0]] + Universal(s[1..])
  }

  lemma {:induction false} UniversalBehind(a: string, t: string)
    requires Free(a, '\r')
    ensures Universal(a + t) == a + Universal(t)
  {
    if a == "" {
      assert a + t == t;
    } else {
      UniversalBehind(a[1..], t);
      assert (a + t)[1..] == a[1..] + t && a == [a[0]] + a[1..];
    }
  }

  /** Each of the three line ends reads as one newline, wherever it stands, and nothing else changes. */
  lemma NewlinesRead(a: string, b: string)
    requires Free(a, '\r')
    ensures Universal(a + ("\r\n" + b)) == a + ("\n" + Universal(b))
    ensures Universal(a + ("\n" + b)) == a + ("\n" + Universal(b))
    ensures (b == "" || b[0] != '\n') ==> Universal(a + ("\r" + b)) == a + ("\n" + Universal(b))
    ensures Universal(a) == a
  {
    UniversalBehind(a, "\r\n" + b);
    UniversalBehind(a, "\n" + b);
    UniversalBehind(a, "\r" + b);
    UniversalBehind(a, "");
    assert a + "" == a;
    assert ("\r\n" + b)[2..] == b && ("\n" + b)[1..] == b && ("\r" + b)[1..] == b;
  }

  /** The lines of a file without their newlines; a final newline ends the last line. */
  function FileLines(text: string): seq<string> {
    var parts := Split(Universal(text), '\n');
    if parts[|parts| - 1] == "" then parts[..|parts| - 1] else parts
  }

  /** The lines of a file, joined by newlines, are its text, but for a final newline. */
  lemma FileLinesAre(text: string)
    ensures var u, lines := Universal(text), FileLines(text);
            && (forall i | 0 <= i < |lines| :: Free(lines[i], '\n'))
            && (u == "" <==> lines == [])
            && (u != "" && u[|u| - 1] == '\n' ==> u == Join(lines, '\n') + "\n")
            && (u != "" && u[|u| - 1] != '\n' ==> u == Join(lines, '\n'))
  {
    hide Universal;
    var u := Universal(text);
    JoinSplit(u, '\n');
    var parts := Split(u, '\n');
    var n := |parts| - 1;
    assert Free(parts[n], '\n');
    if parts[n] == "" && n > 0 {
      assert u == Join(parts[..n], '\n') + "\n" + "";
    } else if n > 0 {
      assert u == Join(parts[..n], '\n') + "\n" + parts[n];
      assert u[|u| - 1] == parts[n][|parts[n]| - 1];
    } else {
      assert parts == [u];
    }
  }

  predicate IsSpace(c: char) {
    c == ' ' || '\t' <= c <= '\r' || 28 as char <= c <= 31 as char
  }

  function Strip(s: string): string {
    if s == "" then ""
    else if IsSpace(s[0]) then Strip(s[1..])
    else if IsSpace(s[|s| - 1]) then Strip(s[..|s| - 1])
    else s
  }

  /** A run of digits in which single underscores may separate digits. */
  function DigitsValue(s: string): Option<nat> {
    if s == "" || !IsDigit(s[|s| - 1]) then None
    else
      var d := DigitValue(s[|s| - 1]);
      if |s| == 1 then Some(d)
      else
        var front := DigitsValue(if s[|s| - 2] == '_' then s[..|s| - 2] else s[..|s| - 1]);
        if front.None? then None else Some(10 * front.value + d)
  }

  /** int(s) */
  function PyInt(s: string): Option<int> {
    var t := Strip(s);
    if t != "" && (t[0] == '+' || t[0] == '-') then
      var v := DigitsValue(t[1..]);
      if v.None? then None else Some(if t[0] == '-' then 0 - v.value else v.value as int)
    else
      var v := DigitsValue(t);
      if v.None? then None else Some(v.value)
  }

  lemma {:induction false} DigitsValueDec(s: string)
    requires s != "" && AllDigits(s)
    ensures DigitsValue(s) == Some(Value(s))
  {
    if |s| > 1 {
      DigitsValueDec(s[..|s| - 1]);
    } else {
      assert s[..0] == "";
    }
  }

  lemma PyIntDec(n: nat)
    ensures PyInt(Dec(n)) == Some(n)
  {
    DecValue(n);
    DigitsValueDec(Dec(n));
    assert IsDigit(Dec(n)[0]) && IsDigit(Dec(n)[|Dec(n)| - 1]);
  }

  // ----- one line ------------------------------------------------------------------------------

  /** Number of fields of a report line, by report type. */
  function FieldCount(kind: int): Option<nat> {
    if kind == 0 || kind == 1 || kind == 3 then Some(6)
    else if kind == 2 then Some(5)
    else if kind == 4 || kind == 5 then Some(3)
    else None
  }

  /** The sequence number of a well-formed report line; None where the parser raises. */
  function Sequence(line: string): Option<int> {
    if line == "" then None
    else
      var fields := Split(line, ',');
      if |fields| < 2 then None
      else
        var kind, s := PyInt(fields[0]), PyInt(fields[1]);
        if kind.None? || s.None? then None
        else if FieldCount(kind.value) == Some(|fields|) then s
        else None
  }

  /** Exactly the refused lines: the empty line, a first or second field that is missing or no
      number, a type outside 0..5, and a number of fields that is not the type's. */
  lemma RefusedLines(line: string)
    ensures var p := Split(line, ',');
            Sequence(line).None? <==>
              || line == "" || |p| < 2 || PyInt(p[0]).None? || PyInt(p[1]).None?
              || !(0 <= PyInt(p[0]).value <= 5)
              || |p| != (match PyInt(p[0]).value case 2 => 5 case 4 => 3 case 5 => 3 case _ => 6)
    ensures Sequence(line).Some? ==> Sequence(line) == PyInt(Split(line, ',')[1])
  {
    hide PyInt, Split;
  }

  /** Digits, with single underscores between digits. */
  ghost predicate Numeral(s: string) {
    && s != "" && IsDigit(s[0]) && IsDigit(s[|s| - 1])
    && (forall i | 0 <= i < |s| :: IsDigit(s[i]) || s[i] == '_')
    && forall i | 0 <= i < |s| - 1 :: IsDigit(s[i]) || IsDigit(s[i + 1])
  }

  function DigitsOnly(s: string): (r: string)
    ensures AllDigits(r)
  {
    if s == "" then ""
    else DigitsOnly(s[..|s| - 1]) + (if IsDigit(s[|s| - 1]) then [s[|s| - 1]] else "")
  }

  /** Exactly the numerals have a value, and it is their digits' value. */
  lemma {:induction false} NumeralValue(s: string)
    ensures DigitsValue(s).Some? <==> Numeral(s)
    ensures Numeral(s) ==> DigitsValue(s) == Some(Value(DigitsOnly(s)))
    decreases |s|
  {
    if s != "" && IsDigit(s[|s| - 1]) {
      var n := |s| - 1;
      ValueAppend(DigitsOnly(s[..n]), s[n]);
      if n == 0 {
        assert s[..0] == "";
      } else if s[n - 1] == '_' {
        NumeralValue(s[..n - 1]);
        assert s[..n][..n - 1] == s[..n - 1];
        assert DigitsOnly(s[..n]) == DigitsOnly(s[..n - 1]);
        if n > 1 {
          NumeralFront(s, n - 1);
        }
      } else {
        NumeralValue(s[..n]);
        NumeralFront(s, n);
      }
    }
  }

  lemma ValueAppend(digits: string, c: char)
    requires AllDigits(digits) && IsDigit(c)
    ensures Value(digits + [c]) == 10 * Value(digits) + DigitValue(c)
  {
    assert (digits + [c])[..|digits|] == digits;
  }

  lemma NumeralFront(s: string, k: nat)
    requires 0 < k < |s| && IsDigit(s[|s| - 1])
    requires (k == |s| - 1 && s[k - 1] != '_') || (k == |s| - 2 && s[k] == '_')
    ensures Numeral(s) <==> Numeral(s[..k])
  {}

  const WHITE: string := " \t\n\U{B}\U{C}\r\U{1C}\U{1D}\U{1E}\U{1F}"

  ghost predicate AllSpace(s: string) {
    forall k | 0 <= k < |s| :: IsSpace(s[k])
  }

  /** Stripping takes white space off both ends, and only there. */
  lemma {:induction false} StripIs(s: string) returns (front: string, back: string)
    ensures s == front + Strip(s) + back && AllSpace(front) && AllSpace(back)
    ensures Strip(s) != "" ==> !IsSpace(Strip(s)[0]) && !IsSpace(Strip(s)[|Strip(s)| - 1])
    decreases |s|
  {
    hide IsSpace, Strip;
    StripStep(s);
    front, back := "", "";
    if s != "" && IsSpace(s[0]) {
      front, back := StripIs(s[1..]);
      assert s == [s[0]] + (front + Strip(s) + back) == [s[0]] + front + Strip(s) + back;
      front := [s[0]] + front;
    } else if s != "" && IsSpace(s[|s| - 1]) {
      front, back := StripIs(s[..|s| - 1]);
      assert s == front + Strip(s) + back + [s[|s| - 1]] == front + Strip(s) + (back + [s[|s| - 1]]);
      back := back + [s[|s| - 1]];
    }
  }

  lemma StripStep(s: string)
    ensures Strip(s) == if s == "" then ""
                        else if IsSpace(s[0]) then Strip(s[1..])
                        else if IsSpace(s[|s| - 1]) then Strip(s[..|s| - 1]) else s
  {}

  lemma SpaceIs(c: char)
    ensures IsSpace(c) <==> c in WHITE
  {}

  /** int() reads exactly the numerals with at most one sign in front, in white space, and minus
      negates. */
  lemma PyIntReads(s: string)
    ensures var t := Strip(s);
            var signed := t != "" && t[0] in {'+', '-'};
            && (PyInt(s).Some? <==> Numeral(if signed then t[1..] else t))
            && (signed && t[0] == '-' && PyInt(s).Some? ==> PyInt(s).value == 0 - Value(DigitsOnly(t[1..])))
            && (signed && t[0] == '+' && PyInt(s).Some? ==> PyInt(s).value == Value(DigitsOnly(t[1..])))
            && (!signed && PyInt(s).Some? ==> PyInt(s).value == Value(DigitsOnly(t)))
  {
    hide Strip, DigitsValue, Numeral, DigitsOnly;
    var t := Strip(s);
    NumeralValue(t);
    if t != "" {
      NumeralValue(t[1..]);
    }
  }

  function SeqOf(line: string): int {
    if Sequence(line).Some? then Sequence(line).value else -1
  }

  function LastSeq(lines: seq<string>): int {
    if lines == [] then -1 else SeqOf(lines[|lines| - 1])
  }

  /** The parser gets through these lines without raising. */
  predicate Accepts(lines: seq<string>) {
    lines == [] ||
    (var n := |lines| - 1;
     Accepts(lines[..n]) && Sequence(lines[n]).Some? && SeqOf(lines[n]) >= LastSeq(lines[..n]))
  }

  // ----- grouping ------------------------------------------------------------------------------

  datatype Group = Group(sequence: int, line: nat, reports: seq<string>)

  /** The lines split into maximal runs of one sequence number. */
  function Grouping(lines: seq<string>): seq<Group> {
    if lines == [] then []
    else
      var n := |lines| - 1;
      var g := Grouping(lines[..n]);
      var s := SeqOf(lines[n]);
      if g != [] && g[|g| - 1].sequence == s then
        g[..|g| - 1] + [Group(s, g[|g| - 1].line, g[|g| - 1].reports + [lines[n]])]
      else g + [Group(s, n + 1, [lines[n]])]
  }

  function Flatten(g: seq<Group>): seq<string> {
    if g == [] then [] else Flatten(g[..|g| - 1]) + g[|g| - 1].reports
  }

  /** The lines of one sequence number, in order. */
  function Sub(lines: seq<string>, s: int): seq<string> {
    if lines == [] then []
    else
      var n := |lines| - 1;
      Sub(lines[..n], s) + (if SeqOf(lines[n]) == s then [lines[n]] else [])
  }

  /** How many lines come before sequence number `s`. */
  function Below(lines: seq<string>, s: int): nat {
    if lines == [] then 0
    else Below(lines[..|lines| - 1], s) + (if SeqOf(lines[|lines| - 1]) < s then 1 else 0)
  }

  ghost predicate Increasing(g: seq<Group>) {
    forall i, j | 0 <= i < j < |g| :: g[i].sequence < g[j].sequence
  }

  /** A group holds exactly the lines of its sequence number and knows where they start. */
  ghost predicate GroupExact(lines: seq<string>, g: Group) {
    g.reports == Sub(lines, g.sequence) && g.reports != [] && g.line == 1 + Below(lines, g.sequence)
  }

  ghost predicate HasGroup(g: seq<Group>, s: int) {
    exists i | 0 <= i < |g| :: g[i].sequence == s
  }

  /** The groups of an accepted file: strictly increasing, exact, complete. */
  ghost predicate IsGrouping(lines: seq<string>, g: seq<Group>) {
    && Increasing(g)
    && (forall i | 0 <= i < |g| :: GroupExact(lines, g[i]))
    && Complete(lines, g)
    && Flatten(g) == lines
  }

  /** No sequence number of the file is without a group. */
  ghost predicate Complete(lines: seq<string>, g: seq<Group>) {
    forall s | Sub(lines, s) != [] :: HasGroup(g, s)
  }

  lemma CompleteNext(lines: seq<string>, line: string, g: seq<Group>, h: seq<Group>)
    requires Complete(lines, g) && (forall t | HasGroup(g, t) :: HasGroup(h, t)) && HasGroup(h, SeqOf(line))
    ensures Complete(lines + [line], h)
  {
    hide HasGroup, SeqOf, Sub;
    forall t | Sub(lines + [line], t) != [] ensures HasGroup(h, t) {
      SubOne(lines, line, t);
    }
  }

  /** Replacing or appending the last group keeps every group's sequence number. */
  lemma GroupsStay(g: seq<Group>, m: nat, x: Group)
    requires m <= |g| && (m < |g| ==> m == |g| - 1 && g[m].sequence == x.sequence)
    ensures HasGroup(g[..m] + [x], x.sequence)
    ensures forall t | HasGroup(g, t) :: HasGroup(g[..m] + [x], t)
  {
    var h := g[..m] + [x];
    assert h[m].sequence == x.sequence;
    forall t | HasGroup(g, t) ensures HasGroup(h, t) {
      var i :| 0 <= i < |g| && g[i].sequence == t;
      assert h[i].sequence == t;
    }
  }

  lemma SubOne(lines: seq<string>, line: string, s: int)
    ensures Sub(lines + [line], s) == Sub(lines, s) + (if SeqOf(line) == s then [line] else [])
    ensures Below(lines + [line], s) == Below(lines, s) + (if SeqOf(line) < s then 1 else 0)
  {}

  lemma FlattenOne(g: seq<Group>, x: Group)
    ensures Flatten(g + [x]) == Flatten(g) + x.reports
  {}

  lemma AcceptsOne(lines: seq<string>, line: string)
    requires Accepts(lines + [line])
    ensures Accepts(lines) && SeqOf(line) >= LastSeq(lines)
  {}

  lemma {:induction false} SubAfter(lines: seq<string>, s: int)
    requires Accepts(lines) && s > LastSeq(lines)
    ensures Sub(lines, s) == [] && Below(lines, s) == |lines|
  {
    hide SeqOf, Sequence;
    if lines != [] {
      SubAfter(lines[..|lines| - 1], s);
    }
  }

  lemma GroupStays(lines: seq<string>, line: string, g: Group)
    requires GroupExact(lines, g) && g.sequence < SeqOf(line)
    ensures GroupExact(lines + [line], g)
  {}

  lemma GroupStarts(lines: seq<string>, line: string, g: seq<Group>)
    requires Accepts(lines) && IsGrouping(lines, g)
    requires if g == [] then lines == [] else g[|g| - 1].sequence == LastSeq(lines) < SeqOf(line)
    ensures IsGrouping(lines + [line], g + [Group(SeqOf(line), |lines| + 1, [line])])
  {
    hide SeqOf, Sub, Below, Flatten, Accepts, LastSeq, HasGroup, Complete;
    var s := SeqOf(line);
    var x := Group(s, |lines| + 1, [line]);
    var h := g + [x];
    if g == [] {
      NothingBelow(s);
    } else {
      SubAfter(lines, s);
    }
    SubOne(lines, line, s);
    FlattenOne(g, x);
    forall i | 0 <= i < |h| ensures GroupExact(lines + [line], h[i]) {
      if i < |g| {
        assert GroupExact(lines, g[i]) && h[i] == g[i];
        GroupStays(lines, line, g[i]);
      }
    }
    assert h == g[..|g|] + [x];
    GroupsStay(g, |g|, x);
    CompleteNext(lines, line, g, h);
  }

  lemma NothingBelow(s: int)
    ensures Sub([], s) == [] && Below([], s) == 0
  {}

  lemma GroupGrows(lines: seq<string>, line: string, g: seq<Group>)
    requires IsGrouping(lines, g) && g != [] && g[|g| - 1].sequence == SeqOf(line)
    ensures var last := g[|g| - 1];
            IsGrouping(lines + [line], g[..|g| - 1] + [Group(SeqOf(line), last.line, last.reports + [line])])
  {
    hide SeqOf, Sub, Below, Flatten, HasGroup, Complete;
    var m := |g| - 1;
    var s := SeqOf(line);
    var x := Group(s, g[m].line, g[m].reports + [line]);
    var h := g[..m] + [x];
    FlattenOne(g[..m], x);
    assert g == g[..m] + [g[m]];
    FlattenOne(g[..m], g[m]);
    assert GroupExact(lines, g[m]);
    SubOne(lines, line, s);
    forall i | 0 <= i < |h| ensures GroupExact(lines + [line], h[i]) {
      if i < m {
        assert GroupExact(lines, g[i]) && h[i] == g[i];
        GroupStays(lines, line, g[i]);
      }
    }
    GroupsStay(g, m, x);
    CompleteNext(lines, line, g, h);
  }

  lemma GroupingOne(lines: seq<string>, line: string)
    ensures var g := Grouping(lines);
            Grouping(lines + [line])
            == (if g != [] && g[|g| - 1].sequence == SeqOf(line) then
                  g[..|g| - 1] + [Group(SeqOf(line), g[|g| - 1].line, g[|g| - 1].reports + [line])]
                else g + [Group(SeqOf(line), |lines| + 1, [line])])
  {}

  lemma GroupingLast(lines: seq<string>)
    ensures lines == [] <==> Grouping(lines) == []
    ensures lines != [] ==> Grouping(lines)[|Grouping(lines)| - 1].sequence == LastSeq(lines)
  {}

  /** Grouping an accepted file is exact. */
  lemma {:induction false} GroupingIs(lines: seq<string>)
    requires Accepts(lines)
    ensures IsGrouping(lines, Grouping(lines))
  {
    hide SeqOf, Accepts, IsGrouping, Grouping, LastSeq;
    if lines == [] {
      EmptyGrouping();
    } else {
      var n := |lines| - 1;
      assert lines == lines[..n] + [lines[n]];
      AcceptsOne(lines[..n], lines[n]);
      GroupingIs(lines[..n]);
      GroupingOne(lines[..n], lines[n]);
      GroupingLast(lines[..n]);
      var g := Grouping(lines[..n]);
      if g != [] && g[|g| - 1].sequence == SeqOf(lines[n]) {
        GroupGrows(lines[..n], lines[n], g);
      } else {
        GroupStarts(lines[..n], lines[n], g);
      }
    }
  }

  lemma EmptyGrouping()
    ensures IsGrouping([], Grouping([]))
  {}

  // ----- the streaming parser -------------------------------------------------------------------

  /** What the group generator yields: the groups handed out before it ends or raises, and
      the line number it raises at, if any. */
  datatype Parsed = Parsed(groups: seq<Group>, failed: Option<nat>)

  /** Handing out every finished group leaves the last one pending. */
  ghost predicate Pending(lines: seq<string>, out: seq<Group>, current: Option<int>, currentLine: nat,
                          reports: seq<string>) {
    if lines == [] then out == [] && current == None && reports == []
    else current.Some? && Grouping(lines) == out + [Group(current.value, currentLine, reports)]
  }

  lemma PendingNext(lines: seq<string>, line: string, out: seq<Group>, current: Option<int>, currentLine: nat,
                    reports: seq<string>)
    requires Pending(lines, out, current, currentLine, reports)
    ensures var s := SeqOf(line);
            if current == Some(s) then Pending(lines + [line], out, current, currentLine, reports + [line])
            else Pending(lines + [line],
                         if current.Some? then out + [Group(current.value, currentLine, reports)] else out,
                         Some(s), |lines| + 1, [line])
  {}

  lemma AcceptsNext(lines: seq<string>, k: nat)
    requires k < |lines|
    ensures lines[..k + 1] == lines[..k] + [lines[k]]
    ensures Accepts(lines[..k + 1]) <==>
              Accepts(lines[..k]) && Sequence(lines[k]).Some? && SeqOf(lines[k]) >= LastSeq(lines[..k])
    ensures LastSeq(lines[..k + 1]) == SeqOf(lines[k])
  {}

  /** How many lines the parser gets through. */
  function AcceptedPrefix(lines: seq<string>): (n: nat)
    ensures n <= |lines|
  {
    if Accepts(lines) then |lines| else AcceptedPrefix(lines[..|lines| - 1])
  }

  /** The groups handed out: all of an accepted file's; before a failure, all but the pending one. */
  function Handed(lines: seq<string>): seq<Group> {
    var g := Grouping(lines[..AcceptedPrefix(lines)]);
    if Accepts(lines) || g == [] then g else g[..|g| - 1]
  }

  /** The parser gets exactly through the first `n` lines. */
  lemma {:induction false} AcceptedPrefixIs(lines: seq<string>, n: nat)
    requires n <= |lines| && Accepts(lines[..n]) && (n < |lines| ==> !Accepts(lines[..n + 1]))
    ensures AcceptedPrefix(lines) == n && (Accepts(lines) <==> n == |lines|)
    decreases |lines|
  {
    hide Accepts;
    PrefixAccepts(lines);
    if n < |lines| {
      assert lines[..|lines| - 1][..n] == lines[..n];
      assert n + 1 < |lines| ==> lines[..|lines| - 1][..n + 1] == lines[..n + 1];
      if n < |lines| - 1 {
        AcceptedPrefixIs(lines[..|lines| - 1], n);
      }
    } else {
      assert lines[..n] == lines;
    }
  }

  /** The generator loop. It raises at the first line that is empty, malformed or out of
      order, with the groups before the pending one already handed out. */
  method CanonicalGroups(text: string) returns (r: Parsed)
    ensures var lines := FileLines(text);
            && r.groups == Handed(lines)
            && r.failed == (if Accepts(lines) then None else Some(AcceptedPrefix(lines) + 1))
            && (!Accepts(lines) ==> AcceptedPrefix(lines) < |lines|)
  {
    hide SeqOf, Sequence, Grouping, Accepts, LastSeq, FileLines;
    var lines := FileLines(text);
    var groups: seq<Group> := [];
    var previous := -1;
    var current: Option<int> := None;
    var currentLine: nat := 0;
    var reports: seq<string> := [];
    var k := 0;
    NothingAccepted(lines);
    while k < |lines|
      invariant k <= |lines| && Accepts(lines[..k]) && previous == LastSeq(lines[..k])
      invariant Pending(lines[..k], groups, current, currentLine, reports)
    {
      var line := lines[k];
      AcceptsNext(lines, k);
      PendingNext(lines[..k], line, groups, current, currentLine, reports);
      var s := Sequence(line);
      SeqOfIs(line);
      if s.None? || s.value < previous {
        AcceptedPrefixIs(lines, k);
        HandedBefore(lines, groups, current, currentLine, reports);
        return Parsed(groups, Some(k + 1));
      }
      previous := s.value;
      if current.Some? && s != current {
        groups := groups + [Group(current.value, currentLine, reports)];
        reports := [];
        current := None;
      }
      if current.None? {
        current := s;
        currentLine := k + 1;
      }
      assert [] + [line] == [line];
      reports := reports + [line];
      k := k + 1;
    }
    assert lines[..k] == lines;
    AcceptedPrefixIs(lines, k);
    if current.Some? {
      groups := groups + [Group(current.value, currentLine, reports)];
    }
    r := Parsed(groups, None);
  }

  lemma HandedBefore(lines: seq<string>, out: seq<Group>, current: Option<int>, currentLine: nat, reports: seq<string>)
    requires !Accepts(lines) && Pending(lines[..AcceptedPrefix(lines)], out, current, currentLine, reports)
    ensures out == Handed(lines)
  {
    hide Accepts, AcceptedPrefix;
    GroupingLast(lines[..AcceptedPrefix(lines)]);
  }

  /** Dropping the last group of an accepted file leaves the groups of an accepted file. */
  lemma {:induction false} LastGroupDropped(lines: seq<string>) returns (k: nat)
    requires Accepts(lines) && lines != []
    ensures k < |lines| && Accepts(lines[..k])
    ensures var g := Grouping(lines); g != [] && Grouping(lines[..k]) == g[..|g| - 1]
  {
    hide Accepts, Grouping, SeqOf;
    var n := |lines| - 1;
    assert lines == lines[..n] + [lines[n]];
    AcceptsOne(lines[..n], lines[n]);
    GroupingOne(lines[..n], lines[n]);
    GroupingLast(lines[..n]);
    GroupingLast(lines);
    var g := Grouping(lines[..n]);
    if g != [] && g[|g| - 1].sequence == SeqOf(lines[n]) {
      k := LastGroupDropped(lines[..n]);
      assert lines[..n][..k] == lines[..k];
      assert Grouping(lines)[..|g| - 1] == g[..|g| - 1];
    } else {
      k := n;
      assert Grouping(lines)[..|g|] == g;
    }
  }

  /** The lines of the groups handed out; they are an accepted file with exactly these groups. */
  ghost function HandedLines(lines: seq<string>): seq<string> {
    Flatten(Handed(lines))
  }

  lemma HandedIsGrouping(lines: seq<string>)
    ensures Grouping(HandedLines(lines)) == Handed(lines) && IsGrouping(HandedLines(lines), Handed(lines))
    ensures HandedLines(lines) <= lines && (Accepts(lines) ==> HandedLines(lines) == lines)
  {
    hide Accepts, Grouping, IsGrouping, Flatten;
    var n := AcceptedPrefix(lines);
    PrefixIsAccepted(lines);
    GroupingLast(lines[..n]);
    var k := n;
    if !Accepts(lines) && n > 0 {
      k := LastGroupDropped(lines[..n]);
      assert lines[..n][..k] == lines[..k];
    }
    GroupingIs(lines[..k]);
    FlattenIs(lines[..k], Handed(lines));
  }

  lemma {:induction false} PrefixIsAccepted(lines: seq<string>)
    ensures Accepts(lines[..AcceptedPrefix(lines)])
    ensures Accepts(lines) ==> AcceptedPrefix(lines) == |lines| && lines[..|lines|] == lines
  {
    hide Accepts;
    if Accepts(lines) {
      assert lines[..|lines|] == lines;
    } else if lines == [] {
      NothingAccepted(lines);
      assert false;
    } else {
      var n := |lines| - 1;
      PrefixIsAccepted(lines[..n]);
      assert lines[..n][..AcceptedPrefix(lines)] == lines[..AcceptedPrefix(lines)];
    }
  }

  lemma NothingAccepted(lines: seq<string>)
    ensures Accepts(lines[..0]) && LastSeq(lines[..0]) == -1 && lines[..0] == []
    ensures Grouping([]) == []
  {}

  lemma SeqOfIs(line: string)
    ensures Sequence(line).Some? ==> SeqOf(line) == Sequence(line).value
  {}

  // ----- the first divergence -------------------------------------------------------------------

  datatype Shown = Shown(firstLine: Option<nat>, reports: seq<string>)
  datatype Artifact = Artifact(conformant: bool, first: Option<int>, matching: nat, reference: Shown, candidate: Shown)

  function ShownSide(g: Option<Group>, first: Option<int>): Shown {
    if g.Some? && Some(g.value.sequence) == first then Shown(Some(g.value.line), g.value.reports) else Shown(None, [])
  }

  /** Nothing of sequence `s` in a grouping whose groups avoid it. */
  lemma NoGroupNoLines(lines: seq<string>, g: seq<Group>, s: int)
    requires IsGrouping(lines, g)
    requires forall i | 0 <= i < |g| :: g[i].sequence != s
    ensures Sub(lines, s) == []
  {}

  /** Before a common prefix of groups ends, the two files agree on every sequence number. */
  lemma AgreeBefore(a: seq<string>, ga: seq<Group>, b: seq<string>, gb: seq<Group>, d: nat, s: int)
    requires IsGrouping(a, ga) && IsGrouping(b, gb) && d <= |ga| && d <= |gb| && ga[..d] == gb[..d]
    requires d < |ga| ==> s < ga[d].sequence
    requires d < |gb| ==> s < gb[d].sequence
    ensures Sub(a, s) == Sub(b, s)
  {
    hide Sub, Below, Flatten;
    if i :| 0 <= i < d && ga[i].sequence == s {
      assert gb[i] == gb[..d][i] == ga[i];
      assert GroupExact(a, ga[i]) && GroupExact(b, gb[i]);
    } else {
      forall i | 0 <= i < |ga| ensures ga[i].sequence != s {}
      forall i | 0 <= i < |gb| ensures gb[i].sequence != s {
        if i < d { assert gb[i] == gb[..d][i] == ga[..d][i] == ga[i]; }
      }
      NoGroupNoLines(a, ga, s);
      NoGroupNoLines(b, gb, s);
    }
  }

  /** The groups before position `d` are those of the sequence numbers below `s`. */
  ghost predicate SplitsAt(g: seq<Group>, d: nat, s: int) {
    && d <= |g|
    && (forall i | 0 <= i < d :: g[i].sequence < s)
    && (forall i | d <= i < |g| :: g[i].sequence >= s)
  }

  /** A side shows exactly its lines of sequence number `s`, and where they start. */
  ghost predicate ShowsExactly(lines: seq<string>, s: int, shown: Shown) {
    && shown.reports == Sub(lines, s)
    && shown.firstLine == (if Sub(lines, s) == [] then None else Some(1 + Below(lines, s)))
  }

  /** The artifact tells the truth about two accepted files: conformant exactly when they
      are equal line for line; otherwise it names the least sequence number whose lines
      differ, counts the groups before it, and shows both sides' lines for it. */
  ghost predicate TrueArtifact(a: seq<string>, b: seq<string>, r: Artifact) {
    && (r.conformant <==> a == b)
    && (r.conformant ==>
          r.first == None && r.reference == r.candidate == Shown(None, [])
          && r.matching == |Grouping(a)|)
    && (!r.conformant ==>
          && r.first.Some?
          && var s := r.first.value;
             && Sub(a, s) != Sub(b, s) && (forall t | t < s :: Sub(a, t) == Sub(b, t))
             && SplitsAt(Grouping(a), r.matching, s) && SplitsAt(Grouping(b), r.matching, s)
             && ShowsExactly(a, s, r.reference) && ShowsExactly(b, s, r.candidate))
  }

  function At(g: seq<Group>, i: nat): Option<Group> {
    if i < |g| then Some(g[i]) else None
  }

  function FirstOf(x: Option<Group>, y: Option<Group>): Option<int> {
    if x.None? && y.None? then None
    else if x.None? then Some(y.value.sequence)
    else if y.None? then Some(x.value.sequence)
    else Some(if x.value.sequence <= y.value.sequence then x.value.sequence else y.value.sequence)
  }

  lemma SplitAtFirst(ga: seq<Group>, gb: seq<Group>, d: nat, s: int)
    requires Increasing(ga) && d <= |ga| && d <= |gb| && ga[..d] == gb[..d]
    requires d < |ga| ==> s <= ga[d].sequence
    requires d < |gb| ==> s <= gb[d].sequence
    requires d == |ga| ==> d < |gb| && s == gb[d].sequence && Increasing(gb)
    requires d < |ga| && s != ga[d].sequence ==> d < |gb| && s == gb[d].sequence && Increasing(gb)
    ensures SplitsAt(ga, d, s)
  {}

  /** What one side shows at the first sequence number past the common groups. */
  lemma ShownAt(a: seq<string>, ga: seq<Group>, d: nat, s: int)
    requires IsGrouping(a, ga) && SplitsAt(ga, d, s)
    ensures ShowsExactly(a, s, ShownSide(At(ga, d), Some(s)))
    ensures d < |ga| && ga[d].sequence == s <==> Sub(a, s) != []
  {
    hide Sub, Below, Flatten, SeqOf, HasGroup, Complete, SplitsAt, Increasing;
    if d < |ga| && ga[d].sequence == s {
      assert GroupExact(a, ga[d]);
    } else {
      OnlyAt(ga, d, s);
      NoGroupNoLines(a, ga, s);
    }
  }

  lemma OnlyAt(g: seq<Group>, d: nat, s: int)
    requires Increasing(g) && SplitsAt(g, d, s) && !(d < |g| && g[d].sequence == s)
    ensures forall i | 0 <= i < |g| :: g[i].sequence != s
  {
    forall i | 0 <= i < |g| ensures g[i].sequence != s {
      if i > d { assert g[d].sequence < g[i].sequence; }
    }
  }

  /** Where the common groups of two accepted files end, the files first differ. */
  lemma DivergesHere(a: seq<string>, ga: seq<Group>, b: seq<string>, gb: seq<Group>, d: nat)
    requires IsGrouping(a, ga) && IsGrouping(b, gb)
    requires d <= |ga| && d <= |gb| && ga[..d] == gb[..d] && At(ga, d) != At(gb, d)
    ensures var s := FirstOf(At(ga, d), At(gb, d)).value;
            && Sub(a, s) != Sub(b, s) && (forall t | t < s :: Sub(a, t) == Sub(b, t))
            && SplitsAt(ga, d, s) && SplitsAt(gb, d, s)
            && ShowsExactly(a, s, ShownSide(At(ga, d), Some(s)))
            && ShowsExactly(b, s, ShownSide(At(gb, d), Some(s)))
  {
    hide Sub, Below, Flatten;
    var s := FirstOf(At(ga, d), At(gb, d)).value;
    SplitAtFirst(ga, gb, d, s);
    SplitAtFirst(gb, ga, d, s);
    ShownAt(a, ga, d, s);
    ShownAt(b, gb, d, s);
    forall t | t < s ensures Sub(a, t) == Sub(b, t) {
      AgreeBefore(a, ga, b, gb, d, t);
    }
    if Sub(a, s) == Sub(b, s) {
      BelowAgrees(a, ga, b, gb, d, s);
    }
  }

  lemma {:induction false} BelowConcat(x: seq<string>, y: seq<string>, s: int)
    ensures Below(x + y, s) == Below(x, s) + Below(y, s)
  {
    hide SeqOf;
    if y == [] {
      assert x + y == x;
    } else {
      assert (x + y)[..|x + y| - 1] == x + y[..|y| - 1];
      BelowConcat(x, y[..|y| - 1], s);
    }
  }

  lemma {:induction false} BelowSub(lines: seq<string>, q: int, s: int)
    ensures Below(Sub(lines, q), s) == (if q < s then |Sub(lines, q)| else 0)
  {
    hide SeqOf;
    if lines != [] {
      var n := |lines| - 1;
      BelowSub(lines[..n], q, s);
      if SeqOf(lines[n]) == q {
        SubOne(Sub(lines[..n], q), lines[n], s);
      } else {
        assert Sub(lines, q) == Sub(lines[..n], q);
      }
    }
  }

  /** The lines before `s` are the lines of the groups before it. */
  lemma {:induction false} BelowIsFlat(lines: seq<string>, g: seq<Group>, d: nat, s: int, n: nat)
    requires (forall i | 0 <= i < |g| :: GroupExact(lines, g[i])) && SplitsAt(g, d, s) && n <= |g|
    ensures Below(Flatten(g[..n]), s) == |Flatten(g[..if n <= d then n else d])|
  {
    hide SeqOf, Sub, Below, Flatten;
    if n == 0 {
      NothingFlat(g, s);
    } else {
      BelowIsFlat(lines, g, d, s, n - 1);
      assert g[..n] == g[..n - 1] + [g[n - 1]];
      FlattenOne(g[..n - 1], g[n - 1]);
      BelowConcat(Flatten(g[..n - 1]), g[n - 1].reports, s);
      assert GroupExact(lines, g[n - 1]);
      BelowSub(lines, g[n - 1].sequence, s);
    }
  }

  lemma NothingFlat(g: seq<Group>, s: int)
    ensures Flatten(g[..0]) == [] && Below([], s) == 0
  {}

  lemma BelowAgrees(a: seq<string>, ga: seq<Group>, b: seq<string>, gb: seq<Group>, d: nat, s: int)
    requires IsGrouping(a, ga) && IsGrouping(b, gb) && SplitsAt(ga, d, s) && SplitsAt(gb, d, s) && ga[..d] == gb[..d]
    ensures Below(a, s) == Below(b, s)
  {
    hide Sub, Below, Flatten;
    BelowIsFlat(a, ga, d, s, |ga|);
    BelowIsFlat(b, gb, d, s, |gb|);
    assert ga[..|ga|] == ga && gb[..|gb|] == gb;
  }

  /** compare_canonical: the groups are drawn in pairs until a pair differs or both sides end. It
      raises exactly when a malformed side's groups run out before a difference; otherwise the
      artifact is the truth about the lines handed out, which for accepted files are all lines. */
  method CompareCanonical(reference: string, candidate: string) returns (r: Option<Artifact>)
    ensures var a, b := FileLines(reference), FileLines(candidate);
            && (r.None? <==> (!Accepts(a) && Handed(a) <= Handed(b)) || (!Accepts(b) && Handed(b) <= Handed(a)))
            && (r.Some? ==> TrueArtifact(HandedLines(a), HandedLines(b), r.value))
            && (Accepts(a) && Accepts(b) ==> r.Some? && TrueArtifact(a, b, r.value))
  {
    hide SeqOf, Sequence, Grouping, Accepts, FileLines, Sub, Below, Flatten, IsGrouping, Handed, HandedLines,
      AcceptedPrefix;
    var x := CanonicalGroups(reference);
    var y := CanonicalGroups(candidate);
    ghost var a, b := FileLines(reference), FileLines(candidate);
    HandedIsGrouping(a);
    HandedIsGrouping(b);
    var matching := 0;
    while true
      invariant matching <= |x.groups| && matching <= |y.groups|
      invariant x.groups[..matching] == y.groups[..matching]
      decreases |x.groups| - matching
    {
      if matching >= |x.groups| && x.failed.Some? {
        assert x.groups == y.groups[..matching];
        return None;
      }
      if matching >= |y.groups| && y.failed.Some? {
        assert y.groups == x.groups[..matching];
        return None;
      }
      var p, q := At(x.groups, matching), At(y.groups, matching);
      if p != q {
        NeitherPrefix(x.groups, y.groups, matching);
        var first := FirstOf(p, q);
        DivergesHere(HandedLines(a), x.groups, HandedLines(b), y.groups, matching);
        return Some(Artifact(false, first, matching, ShownSide(p, first), ShownSide(q, first)));
      }
      if p.None? {
        break;
      }
      matching := matching + 1;
    }
    assert x.groups[..matching] == x.groups && y.groups[..matching] == y.groups;
    FlattenIs(HandedLines(a), x.groups);
    FlattenIs(HandedLines(b), y.groups);
    r := Some(Artifact(true, None, matching, Shown(None, []), Shown(None, [])));
  }

  /** Where two sequences of groups differ, only one that ends there can be a prefix. */
  lemma NeitherPrefix(x: seq<Group>, y: seq<Group>, d: nat)
    requires d <= |x| && d <= |y| && x[..d] == y[..d] && At(x, d) != At(y, d)
    ensures d < |x| ==> !(x <= y)
    ensures d < |y| ==> !(y <= x)
  {}

  lemma FlattenIs(lines: seq<string>, g: seq<Group>)
    requires IsGrouping(lines, g)
    ensures Flatten(g) == lines
  {}

  lemma {:induction false} AcceptsPrefix(lines: seq<string>, n: nat)
    requires Accepts(lines) && n <= |lines|
    ensures Accepts(lines[..n])
    decreases |lines| - n
  {
    if n < |lines| {
      AcceptsPrefix(lines, n + 1);
      AcceptsNext(lines, n);
    } else {
      assert lines[..n] == lines;
    }
  }

  lemma PrefixAccepts(lines: seq<string>)
    ensures forall n | 0 <= n <= |lines| && !Accepts(lines[..n]) :: !Accepts(lines)
  {
    forall n | 0 <= n <= |lines| && !Accepts(lines[..n]) ensures !Accepts(lines) {
      if Accepts(lines) { AcceptsPrefix(lines, n); }
    }
  }
}
