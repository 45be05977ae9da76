/** The canonical report text: a stable sort by (sequence number, kind), one line per known
    report, lines joined by newlines; and when two report streams have the same text. */
module Canonical {
  import opened Basics
  import opened Reports
  import opened Text

  predicate Known(r: Report) {
    r.kind <= MODIFY_REJECT
  }

  /** The wire widths of a report's fields. */
  ghost predicate Ranged(r: Report) {
    && r.seqno < 0x1_0000_0000_0000_0000 && r.side < 256
    && r.orderId < 0x1_0000_0000_0000_0000
    && INT64_MIN <= r.price <= INT64_MAX && r.qty < TWO_32
    && r.maker < 0x1_0000_0000_0000_0000 && r.taker < 0x1_0000_0000_0000_0000
  }

  // ----- sorting -------------------------------------------------------------------------

  /** `a` may stand before `b`: not a later sequence number, not a later kind within one. */
  predicate NotAfter(a: Report, b: Report) {
    a.seqno < b.seqno || (a.seqno == b.seqno && a.kind <= b.kind)
  }

  ghost predicate Sorted(rs: seq<Report>) {
    forall i, j | 0 <= i < j < |rs| :: NotAfter(rs[i], rs[j])
  }

  /** By sequence number, and by type within one. */
  ghost predicate KeysInOrder(rs: seq<Report>) {
    forall i, j | 0 <= i < j < |rs| ::
      rs[i].seqno < rs[j].seqno || (rs[i].seqno == rs[j].seqno && rs[i].kind <= rs[j].kind)
  }

  /** The reports of one message of one kind, in stream order. */
  function Pick(rs: seq<Report>, seqno: nat, kind: nat): seq<Report> {
    if rs == [] then []
    else
      var last := rs[|rs| - 1];
      Pick(rs[..|rs| - 1], seqno, kind) + (if last.seqno == seqno && last.kind == kind then [last] else [])
  }

  /** What std::stable_sort promises: sorted, and equal keys keep their order. */
  ghost predicate IsStableSort(rs: seq<Report>, sorted: seq<Report>) {
    KeysInOrder(sorted) && SamePicks(sorted, rs)
  }

  function Insert(sorted: seq<Report>, r: Report): seq<Report> {
    if sorted == [] || NotAfter(sorted[|sorted| - 1], r) then sorted + [r]
    else Insert(sorted[..|sorted| - 1], r) + [sorted[|sorted| - 1]]
  }

  function StableSort(rs: seq<Report>): seq<Report> {
    if rs == [] then [] else Insert(StableSort(rs[..|rs| - 1]), rs[|rs| - 1])
  }

  lemma PickOne(rs: seq<Report>, r: Report, s: nat, t: nat)
    ensures Pick(rs + [r], s, t) == Pick(rs, s, t) + (if r.seqno == s && r.kind == t then [r] else [])
  {}

  ghost predicate AllNotAfter(rs: seq<Report>, r: Report) {
    forall i | 0 <= i < |rs| :: NotAfter(rs[i], r)
  }

  lemma {:induction false} InsertSorts(sorted: seq<Report>, r: Report)
    requires Sorted(sorted)
    ensures Sorted(Insert(sorted, r))
    ensures forall x | AllNotAfter(sorted, x) && NotAfter(r, x) :: AllNotAfter(Insert(sorted, r), x)
  {
    if sorted != [] && !NotAfter(sorted[|sorted| - 1], r) {
      var n := |sorted| - 1;
      InsertSorts(sorted[..n], r);
      assert AllNotAfter(sorted[..n], sorted[n]);
      assert AllNotAfter(Insert(sorted[..n], r), sorted[n]);
    }
  }

  lemma {:induction false} InsertPicks(sorted: seq<Report>, r: Report, s: nat, t: nat)
    requires Sorted(sorted)
    ensures Pick(Insert(sorted, r), s, t) == Pick(sorted, s, t) + (if r.seqno == s && r.kind == t then [r] else [])
  {
    hide Pick;
    if sorted == [] || NotAfter(sorted[|sorted| - 1], r) {
      PickOne(sorted, r, s, t);
    } else {
      var n := |sorted| - 1;
      InsertPicks(sorted[..n], r, s, t);
      PickOne(sorted[..n], sorted[n], s, t);
      assert sorted == sorted[..n] + [sorted[n]];
      PickOne(Insert(sorted[..n], r), sorted[n], s, t);
    }
  }

  lemma {:induction false} StableSortSorts(rs: seq<Report>)
    ensures IsStableSort(rs, StableSort(rs)) && Sorted(StableSort(rs))
  {
    if rs != [] {
      var n := |rs| - 1;
      StableSortSorts(rs[..n]);
      InsertSorts(StableSort(rs[..n]), rs[n]);
      forall s, t ensures Pick(StableSort(rs), s, t) == Pick(rs, s, t) {
        InsertPicks(StableSort(rs[..n]), rs[n], s, t);
      }
    }
  }

  lemma {:induction false} PickMembers(rs: seq<Report>, s: nat, t: nat)
    ensures Pick(rs, s, t) != [] <==> exists i | 0 <= i < |rs| :: rs[i].seqno == s && rs[i].kind == t
  {
    if rs != [] {
      var n := |rs| - 1;
      PickMembers(rs[..n], s, t);
      if rs[n].seqno == s && rs[n].kind == t {
      } else {
        forall i | 0 <= i < |rs| && rs[i].seqno == s && rs[i].kind == t
          ensures 0 <= i < n && rs[..n][i] == rs[i] {}
      }
    }
  }

  ghost predicate SamePicks(a: seq<Report>, b: seq<Report>) {
    forall s, t :: Pick(a, s, t) == Pick(b, s, t)
  }

  lemma LastNotBefore(a: seq<Report>, b: seq<Report>)
    requires Sorted(b) && a != [] && SamePicks(a, b)
    ensures b != [] && NotAfter(a[|a| - 1], b[|b| - 1])
  {
    hide Pick;
    var x := a[|a| - 1];
    PickMembers(a, x.seqno, x.kind);
    assert Pick(a, x.seqno, x.kind) == Pick(b, x.seqno, x.kind);
    PickMembers(b, x.seqno, x.kind);
    var i :| 0 <= i < |b| && b[i].seqno == x.seqno && b[i].kind == x.kind;
    assert i < |b| - 1 ==> NotAfter(b[i], b[|b| - 1]);
  }

  lemma SamePicksFront(a: seq<Report>, x: Report, b: seq<Report>, y: Report)
    requires SamePicks(a + [x], b + [y]) && x.seqno == y.seqno && x.kind == y.kind
    ensures x == y && SamePicks(a, b)
  {
    SamePickFront(a, x, b, y, x.seqno, x.kind);
    forall s, t ensures Pick(a, s, t) == Pick(b, s, t) {
      SamePickFront(a, x, b, y, s, t);
    }
  }

  lemma SamePickFront(a: seq<Report>, x: Report, b: seq<Report>, y: Report, s: nat, t: nat)
    requires SamePicks(a + [x], b + [y]) && x.seqno == y.seqno && x.kind == y.kind
    ensures Pick(a, s, t) == Pick(b, s, t)
    ensures s == x.seqno && t == x.kind ==> x == y
  {
    hide Pick;
    PickOne(a, x, s, t);
    PickOne(b, y, s, t);
    SameEnds(Pick(a, s, t), x, Pick(b, s, t), y, x.seqno == s && x.kind == t);
  }

  lemma SameEnds<T>(p: seq<T>, x: T, q: seq<T>, y: T, more: bool)
    requires p + (if more then [x] else []) == q + (if more then [y] else [])
    ensures p == q && (more ==> x == y)
  {
    if more {
      assert (p + [x])[..|p|] == p && (q + [y])[..|q|] == q;
      assert (p + [x])[|p|] == x && (q + [y])[|q|] == y;
    } else {
      assert p + [] == p && q + [] == q;
    }
  }

  /** A stable sort has only one result: sorted sequences that agree on every (sequence
      number, kind) are equal. */
  lemma {:induction false} StableSortUnique(a: seq<Report>, b: seq<Report>)
    requires Sorted(a) && Sorted(b) && SamePicks(a, b)
    ensures a == b
  {
    hide Pick;
    if a == [] {
      if b != [] {
        LastNotBefore(b, a);
      }
    } else {
      LastNotBefore(a, b);
      LastNotBefore(b, a);
      var a', b' := a[..|a| - 1], b[..|b| - 1];
      assert a == a' + [a[|a| - 1]] && b == b' + [b[|b| - 1]];
      SamePicksFront(a', a[|a| - 1], b', b[|b| - 1]);
      StableSortUnique(a', b');
    }
  }

  // ----- rendering ------------------------------------------------------------------------

  /** The report with every field that its line does not carry blanked out. */
  function View(r: Report): Report
    requires Known(r)
  {
    if r.kind == TRADE then Report(TRADE, r.seqno, 0, 0, r.price, r.qty, r.maker, r.taker)
    else if r.kind == CANCEL_ACK then Report(CANCEL_ACK, r.seqno, r.side, r.orderId, r.price, 0, 0, 0)
    else if r.kind >= CANCEL_REJECT then Report(r.kind, r.seqno, 0, r.orderId, 0, 0, 0, 0)
    else Report(r.kind, r.seqno, r.side, r.orderId, r.price, r.qty, 0, 0)
  }

  function Fields(r: Report): seq<string>
    requires Known(r)
  {
    if r.kind == ORDER_ACK then ["0", Dec(r.seqno), Dec(r.side), Dec(r.orderId), DecInt(r.price), Dec(r.qty)]
    else if r.kind == TRADE then ["1", Dec(r.seqno), DecInt(r.price), Dec(r.qty), Dec(r.maker), Dec(r.taker)]
    else if r.kind == CANCEL_ACK then ["2", Dec(r.seqno), Dec(r.side), Dec(r.orderId), DecInt(r.price)]
    else if r.kind == MODIFY_ACK then ["3", Dec(r.seqno), Dec(r.side), Dec(r.orderId), DecInt(r.price), Dec(r.qty)]
    else if r.kind == CANCEL_REJECT then ["4", Dec(r.seqno), Dec(r.orderId)]
    else ["5", Dec(r.seqno), Dec(r.orderId)]
  }

  function Line(r: Report): string
    requires Known(r)
  {
    Join(Fields(r), ',')
  }

  /** A decimal field: digits, possibly after a minus sign. */
  ghost predicate Plain(s: string) {
    s != "" && forall i | 0 <= i < |s| :: IsDigit(s[i]) || s[i] == '-'
  }

  lemma DecPlain(n: nat)
    ensures Plain(Dec(n))
  {}

  lemma DecIntPlain(n: int)
    ensures Plain(DecInt(n))
  {
    DecIsDigits(if n < 0 then -n else n);
  }

  lemma FieldsPlain(r: Report)
    requires Known(r)
    ensures forall i | 0 <= i < |Fields(r)| :: Plain(Fields(r)[i])
  {
    hide Dec, DecInt;
    DecPlain(r.seqno); DecPlain(r.side); DecPlain(r.orderId); DecPlain(r.qty); DecPlain(r.maker); DecPlain(r.taker);
    DecIntPlain(r.price);
  }

  /** Splitting a line at its commas gives back the fields. */
  lemma LineSplits(r: Report)
    requires Known(r)
    ensures Split(Line(r), ',') == Fields(r)
  {
    FieldsPlain(r);
    forall i | 0 <= i < |Fields(r)| ensures Free(Fields(r)[i], ',') {
      assert Plain(Fields(r)[i]);
    }
    SplitJoin(Fields(r), ',');
  }

  /** The columns of a line, from the left, are these numbers. */
  ghost predicate Columns(line: string, ns: seq<int>) {
    var parts := Split(line, ',');
    |parts| == |ns| && forall i | 0 <= i < |ns| :: Prints(parts[i], ns[i])
  }

  /** What each type of report prints, column by column. */
  ghost predicate LineShows(line: string, r: Report) {
    match r.kind
    case 1 => Columns(line, [1, r.seqno, r.price, r.qty, r.maker, r.taker])
    case 2 => Columns(line, [2, r.seqno, r.side, r.orderId, r.price])
    case 4 => Columns(line, [4, r.seqno, r.orderId])
    case 5 => Columns(line, [5, r.seqno, r.orderId])
    case _ => Columns(line, [r.kind, r.seqno, r.side, r.orderId, r.price, r.qty])
  }

  /** A printed line shows its report's fields in their columns. */
  lemma LineShowsReport(r: Report)
    requires Known(r)
    ensures LineShows(Line(r), r)
  {
    hide Dec, DecInt, Line, Prints;
    LineSplits(r);
    PrintsOnce(DecInt(r.price), r.price);
    NatPrints(r.kind); NatPrints(r.seqno); NatPrints(r.side); NatPrints(r.orderId);
    NatPrints(r.qty); NatPrints(r.maker); NatPrints(r.taker);
    assert Fields(r)[0] == Dec(r.kind) by { KindDigit(r); }
  }

  lemma KindDigit(r: Report)
    requires Known(r)
    ensures Fields(r)[0] == Dec(r.kind)
  {}

  lemma NatPrints(n: nat)
    ensures Prints(Dec(n), n)
  {
    PrintsOnce(Dec(n), n);
  }

  lemma SameFields(a: Report, b: Report)
    requires Known(a) && Known(b) && Fields(a) == Fields(b)
    ensures View(a) == View(b)
  {
    hide Dec, DecInt;
    var f, g := Fields(a), Fields(b);
    assert f[0] == g[0];
    assert a.kind == b.kind;
    assert f[1] == g[1];
    DecInjective(a.seqno, b.seqno);
    if a.kind == TRADE {
      assert f[2] == g[2] && f[3] == g[3] && f[4] == g[4] && f[5] == g[5];
      DecIntInjective(a.price, b.price);
      DecInjective(a.qty, b.qty);
      DecInjective(a.maker, b.maker);
      DecInjective(a.taker, b.taker);
    } else if a.kind >= CANCEL_REJECT {
      assert f[2] == g[2];
      DecInjective(a.orderId, b.orderId);
    } else {
      assert f[2] == g[2] && f[3] == g[3] && f[4] == g[4];
      DecInjective(a.side, b.side);
      DecInjective(a.orderId, b.orderId);
      DecIntInjective(a.price, b.price);
      if a.kind != CANCEL_ACK {
        assert f[5] == g[5];
        DecInjective(a.qty, b.qty);
      }
    }
  }

  /** Two known reports have the same line exactly when their rendered fields agree. */
  lemma LineDetermines(a: Report, b: Report)
    requires Known(a) && Known(b)
    ensures Line(a) == Line(b) <==> View(a) == View(b)
  {
    hide Dec, DecInt, Join, Split;
    LineSplits(a);
    LineSplits(b);
    if Line(a) == Line(b) {
      SameFields(a, b);
    }
    if View(a) == View(b) {
      assert Fields(a) == Fields(View(a)) && Fields(b) == Fields(View(b));
    }
  }

  lemma LinePlain(r: Report)
    requires Known(r)
    ensures Line(r) != "" && forall i | 0 <= i < |Line(r)| ::
            IsDigit(Line(r)[i]) || Line(r)[i] == '-' || Line(r)[i] == ','
  {
    hide Fields;
    FieldsPlain(r);
    assert |Fields(r)| > 0 by { LineSplits(r); }
    JoinPlain(Fields(r));
  }

  lemma {:induction false} JoinPlain(parts: seq<string>)
    requires parts != [] && forall i | 0 <= i < |parts| :: Plain(parts[i])
    ensures var s := Join(parts, ',');
            s != "" && forall i | 0 <= i < |s| :: IsDigit(s[i]) || s[i] == '-' || s[i] == ','
  {
    var n := |parts| - 1;
    assert Plain(parts[n]);
    if n > 0 {
      JoinPlain(parts[..n]);
    }
  }

  /** Every line fits the 160-byte buffer of snprintf, with its terminator. */
  lemma LineFits(r: Report)
    requires Known(r) && Ranged(r)
    ensures |Line(r)| < 160
  {
    hide Dec;
    Pow10Twenty();
    DecLength(r.seqno, 20); DecLength(r.orderId, 20); DecLength(r.maker, 20); DecLength(r.taker, 20);
    DecLength(r.side, 20); DecLength(r.qty, 20);
    DecLength(if r.price < 0 then -r.price else r.price, 20);
    var f := Fields(r);
    var most := seq(|f|, (i: int) => 21);
    JoinLength(f, ',', most);
    SumConstant(most);
  }

  lemma Pow10Twenty()
    ensures Pow10(20) == 100_000_000_000_000_000_000
  {
    assert Pow10(2) == 100;
    assert Pow10(4) == 10_000;
    Pow10Add(4, 4);
    Pow10Add(8, 8);
    Pow10Add(16, 4);
  }

  lemma {:induction false} Pow10Add(a: nat, b: nat)
    ensures Pow10(a + b) == Pow10(a) * Pow10(b)
  {
    if a > 0 {
      Pow10Add(a - 1, b);
    }
  }

  lemma {:induction false} SumConstant(most: seq<nat>)
    requires forall i | 0 <= i < |most| :: most[i] == 21
    ensures Sum(most) == 21 * |most|
  {
    if most != [] {
      SumConstant(most[..|most| - 1]);
    }
  }

  // ----- the text --------------------------------------------------------------------------

  /** The rendered fields of the known reports, in stream order. */
  function Views(rs: seq<Report>): seq<Report> {
    if rs == [] then []
    else Views(rs[..|rs| - 1]) + (if Known(rs[|rs| - 1]) then [View(rs[|rs| - 1])] else [])
  }

  ghost predicate AllKnown(rs: seq<Report>) {
    forall i | 0 <= i < |rs| :: Known(rs[i])
  }

  function Lines(rs: seq<Report>): seq<string> {
    if rs == [] then []
    else Lines(rs[..|rs| - 1]) + (if Known(rs[|rs| - 1]) then [Line(rs[|rs| - 1])] else [])
  }

  /** The reports of the six known types, in stream order. */
  function KnownOnly(rs: seq<Report>): seq<Report> {
    if rs == [] then []
    else KnownOnly(rs[..|rs| - 1]) + (if rs[|rs| - 1].kind <= 5 then [rs[|rs| - 1]] else [])
  }

  /** The text is one line per report, each showing its report's fields. */
  ghost predicate TextShows(text: string, rs: seq<Report>) {
    if rs == [] then text == ""
    else
      var lines := Split(text, '\n');
      |lines| == |rs| && forall i | 0 <= i < |rs| :: LineShows(lines[i], rs[i])
  }

  lemma {:induction false} LinesShow(rs: seq<Report>)
    ensures |Lines(rs)| == |KnownOnly(rs)|
    ensures forall i | 0 <= i < |Lines(rs)| :: LineShows(Lines(rs)[i], KnownOnly(rs)[i])
  {
    hide Line, LineShows;
    if rs != [] {
      LinesShow(rs[..|rs| - 1]);
      if Known(rs[|rs| - 1]) {
        LineShowsReport(rs[|rs| - 1]);
      }
    }
  }

  /** The canonical text shows every known report, in sorted order, column by column. */
  lemma CanonicalTextShows(rs: seq<Report>)
    ensures TextShows(CanonicalText(rs), KnownOnly(StableSort(rs)))
  {
    hide Lines, LineShows, Split, Join, StableSort, KnownOnly;
    LinesShow(StableSort(rs));
    LinesPlain(StableSort(rs));
    if Lines(StableSort(rs)) != [] {
      SplitJoin(Lines(StableSort(rs)), '\n');
    } else {
      NoLines();
    }
  }

  function CanonicalText(rs: seq<Report>): string {
    Join(Lines(StableSort(rs)), '\n')
  }

  lemma ViewsOne(rs: seq<Report>, r: Report)
    ensures Views(rs + [r]) == Views(rs) + (if Known(r) then [View(r)] else [])
  {}

  lemma {:induction false} ViewsConcat(a: seq<Report>, b: seq<Report>)
    ensures Views(a + b) == Views(a) + Views(b)
  {
    if b == [] {
      assert a + b == a;
    } else {
      assert (a + b)[..|a + b| - 1] == a + b[..|b| - 1];
      ViewsConcat(a, b[..|b| - 1]);
    }
  }

  lemma {:induction false} PickConcat(a: seq<Report>, b: seq<Report>, s: nat, t: nat)
    ensures Pick(a + b, s, t) == Pick(a, s, t) + Pick(b, s, t)
  {
    if b == [] {
      assert a + b == a;
    } else {
      assert (a + b)[..|a + b| - 1] == a + b[..|b| - 1];
      PickConcat(a, b[..|b| - 1], s, t);
    }
  }

  /** Taking one message's reports of one kind and blanking unrendered fields commute. */
  lemma {:induction false} PickViews(rs: seq<Report>, s: nat, t: nat)
    ensures Pick(Views(rs), s, t) == Views(Pick(rs, s, t))
  {
    if rs != [] {
      var n := |rs| - 1;
      var r := rs[n];
      PickViews(rs[..n], s, t);
      if Known(r) {
        PickOne(Views(rs[..n]), View(r), s, t);
      } else {
        assert Views(rs) == Views(rs[..n]);
      }
      if r.seqno == s && r.kind == t {
        ViewsOne(Pick(rs[..n], s, t), r);
      } else {
        assert Pick(rs, s, t) == Pick(rs[..n], s, t);
      }
    }
  }

  lemma {:induction false} ViewsSorted(rs: seq<Report>)
    requires Sorted(rs)
    ensures Sorted(Views(rs)) && AllKnown(Views(rs))
    ensures forall x | AllNotAfter(rs, x) :: AllNotAfter(Views(rs), x)
  {
    if rs != [] {
      var n := |rs| - 1;
      ViewsSorted(rs[..n]);
      assert AllNotAfter(rs[..n], rs[n]);
      assert AllNotAfter(Views(rs[..n]), rs[n]);
    }
  }

  lemma {:induction false} LinesOfViews(rs: seq<Report>)
    ensures Lines(rs) == Lines(Views(rs))
  {
    if rs != [] {
      var n := |rs| - 1;
      LinesOfViews(rs[..n]);
      if Known(rs[n]) {
        LineDetermines(rs[n], View(rs[n]));
        assert Views(rs)[..|Views(rs)| - 1] == Views(rs[..n]);
      } else {
        assert Views(rs) == Views(rs[..n]);
      }
    }
  }

  /** Known, blanked reports are determined by their lines. */
  lemma {:induction false} LinesInjective(a: seq<Report>, b: seq<Report>)
    requires AllKnown(a) && AllKnown(b) && Lines(a) == Lines(b)
    requires forall i | 0 <= i < |a| :: View(a[i]) == a[i]
    requires forall i | 0 <= i < |b| :: View(b[i]) == b[i]
    ensures a == b
  {
    hide Lines, Line, View, Known;
    if a == [] || b == [] {
      SomeLines(a);
      SomeLines(b);
    } else {
      var m, n := |a| - 1, |b| - 1;
      SomeLines(a);
      SomeLines(b);
      SameEnds(Lines(a[..m]), Line(a[m]), Lines(b[..n]), Line(b[n]), true);
      LineDetermines(a[m], b[n]);
      LinesInjective(a[..m], b[..n]);
      assert a == a[..m] + [a[m]] && b == b[..n] + [b[n]];
    }
  }

  lemma SomeLines(rs: seq<Report>)
    requires AllKnown(rs)
    ensures rs == [] <==> Lines(rs) == []
    ensures rs != [] ==> Known(rs[|rs| - 1]) && Lines(rs) == Lines(rs[..|rs| - 1]) + [Line(rs[|rs| - 1])]
  {}

  lemma {:induction false} LinesPlain(rs: seq<Report>)
    ensures forall i | 0 <= i < |Lines(rs)| :: Lines(rs)[i] != "" && Free(Lines(rs)[i], '\n')
  {
    if rs != [] {
      var n := |rs| - 1;
      LinesPlain(rs[..n]);
      if Known(rs[n]) {
        LinePlain(rs[n]);
      }
    }
  }

  lemma {:induction false} ViewsBlank(rs: seq<Report>)
    ensures AllKnown(Views(rs)) && forall i | 0 <= i < |Views(rs)| :: View(Views(rs)[i]) == Views(rs)[i]
  {
    if rs != [] {
      ViewsBlank(rs[..|rs| - 1]);
    }
  }

  /** A text of non-empty newline-free lines determines the lines. */
  lemma JoinLinesInjective(a: seq<string>, b: seq<string>)
    requires forall i | 0 <= i < |a| :: a[i] != "" && Free(a[i], '\n')
    requires forall i | 0 <= i < |b| :: b[i] != "" && Free(b[i], '\n')
    requires Join(a, '\n') == Join(b, '\n')
    ensures a == b
  {
    if a != [] && b != [] {
      SplitJoin(a, '\n');
      SplitJoin(b, '\n');
    } else if a != [] {
      JoinNonEmpty(a);
    } else if b != [] {
      JoinNonEmpty(b);
    }
  }

  lemma JoinNonEmpty(a: seq<string>)
    requires a != [] && a[|a| - 1] != ""
    ensures Join(a, '\n') != ""
  {}

  ghost predicate SameRendering(a: seq<Report>, b: seq<Report>) {
    forall s: nat, t: nat | t <= MODIFY_REJECT :: Views(Pick(a, s, t)) == Views(Pick(b, s, t))
  }

  lemma UnknownHasNoView(rs: seq<Report>, s: nat, t: nat)
    requires t > MODIFY_REJECT
    ensures Views(Pick(rs, s, t)) == []
  {
    PickViews(rs, s, t);
    ViewsBlank(rs);
    PickMembers(Views(rs), s, t);
  }

  /** Normal form: two report streams have the same canonical text exactly when, for every
      message and each of the six kinds, their reports agree in order on the rendered
      fields. */
  lemma NormalForm(a: seq<Report>, b: seq<Report>)
    ensures CanonicalText(a) == CanonicalText(b) <==> SameRendering(a, b)
  {
    hide Pick, Views, Lines, Join;
    var va, vb := Views(StableSort(a)), Views(StableSort(b));
    StableSortSorts(a);
    StableSortSorts(b);
    ViewsSorted(StableSort(a));
    ViewsSorted(StableSort(b));
    LinesOfViews(StableSort(a));
    LinesOfViews(StableSort(b));
    forall s, t ensures Pick(va, s, t) == Views(Pick(a, s, t)) && Pick(vb, s, t) == Views(Pick(b, s, t)) {
      PickViews(StableSort(a), s, t);
      PickViews(StableSort(b), s, t);
    }
    if CanonicalText(a) == CanonicalText(b) {
      LinesPlain(StableSort(a));
      LinesPlain(StableSort(b));
      JoinLinesInjective(Lines(StableSort(a)), Lines(StableSort(b)));
      ViewsBlank(StableSort(a));
      ViewsBlank(StableSort(b));
      LinesInjective(va, vb);
    }
    if SameRendering(a, b) {
      forall s: nat, t: nat ensures Pick(va, s, t) == Pick(vb, s, t) {
        if t > MODIFY_REJECT {
          UnknownHasNoView(a, s, t);
          UnknownHasNoView(b, s, t);
        }
      }
      StableSortUnique(va, vb);
    }
  }

  // ----- building the text ------------------------------------------------------------------

  /** The collected reports of one run. */
  class Collected {
    var reports: seq<Report>

    constructor (rs: seq<Report>)
      ensures reports == rs
    {
      reports := rs;
    }

    /** Sorts the collected reports in place and prints them, one line per known report,
        through a 160-byte line buffer; other report kinds are skipped. */
    method BuildCanonicalText() returns (text: string)
      requires forall i | 0 <= i < |reports| :: Ranged(reports[i])
      modifies this
      ensures IsStableSort(old(reports), reports)
      ensures text == CanonicalText(old(reports)) && TextShows(text, KnownOnly(reports))
    {
      hide Pick, Insert, Lines, Join, Fields, Dec, Ranged, TextShows, KnownOnly;
      CanonicalTextShows(reports);
      ghost var before := reports;
      RangedSort(reports);
      StableSortSorts(reports);
      reports := StableSort(reports);
      text := "";
      var first := true;
      var k := 0;
      NoLines();
      while k < |reports|
        invariant k <= |reports| && reports == StableSort(before)
        invariant first <==> Lines(reports[..k]) == []
        invariant text == Join(Lines(reports[..k]), '\n')
      {
        var r := reports[k];
        LinesNext(reports, k);
        if Known(r) {
          var line := Line(r);
          LineFits(r);
          assert |line| < 160;
          if !first {
            text := text + "\n";
          }
          text := text + line;
          first := false;
        }
        k := k + 1;
      }
      assert reports[..k] == reports;
    }
  }

  lemma NoLines()
    ensures Lines([]) == [] && Join([], '\n') == ""
  {}

  lemma LinesNext(rs: seq<Report>, k: nat)
    requires k < |rs|
    ensures var before := Lines(rs[..k]);
            Lines(rs[..k + 1]) == (if Known(rs[k]) then before + [Line(rs[k])] else before)
    ensures Known(rs[k]) ==>
              var before := Lines(rs[..k]);
              Join(before + [Line(rs[k])], '\n')
              == (if before == [] then Line(rs[k]) else Join(before, '\n') + "\n" + Line(rs[k]))
    ensures rs[..0] == []
  {
    assert rs[..k + 1][..k] == rs[..k];
    if Known(rs[k]) {
      var before := Lines(rs[..k]);
      assert (before + [Line(rs[k])])[..|before|] == before;
    }
  }

  lemma {:induction false} RangedInsert(sorted: seq<Report>, r: Report)
    requires Ranged(r) && forall i | 0 <= i < |sorted| :: Ranged(sorted[i])
    ensures forall i | 0 <= i < |Insert(sorted, r)| :: Ranged(Insert(sorted, r)[i])
  {
    if sorted != [] && !NotAfter(sorted[|sorted| - 1], r) {
      RangedInsert(sorted[..|sorted| - 1], r);
    }
  }

  lemma {:induction false} RangedSort(rs: seq<Report>)
    requires forall i | 0 <= i < |rs| :: Ranged(rs[i])
    ensures forall i | 0 <= i < |StableSort(rs)| :: Ranged(StableSort(rs)[i])
  {
    if rs != [] {
      RangedSort(rs[..|rs| - 1]);
      RangedInsert(StableSort(rs[..|rs| - 1]), rs[|rs| - 1]);
    }
  }
}
