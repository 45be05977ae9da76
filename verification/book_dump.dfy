/** The cpp-orderbook adapter's queries: they read the engine's printed book back. */
module BookDump {
  import opened Basics
  import opened Contract
  import opened Reports
  import opened Text

  const TWO_63: nat := 0x8000_0000_0000_0000

  datatype Level = Level(price: int, qty: nat)

  // ----- the parser ---------------------------------------------------------------------------------

  /** string_view::find of one character. */
  function FindChar(s: string, c: char, pos: nat): (r: Option<nat>)
    ensures r.Some? ==> pos <= r.value < |s| && s[r.value] == c && forall i | pos <= i < r.value :: s[i] != c
    ensures r.None? ==> forall i | pos <= i < |s| :: s[i] != c
    decreases |s| - pos
  {
    if pos >= |s| then None else if s[pos] == c then Some(pos) else FindChar(s, c, pos + 1)
  }

  predicate SeparatorAt(s: string, i: nat) {
    i + 3 <= |s| && s[i] == ' ' && s[i + 1] == '|' && s[i + 2] == ' '
  }

  /** string_view::find of " | ". */
  function FindSeparator(s: string, pos: nat): (r: Option<nat>)
    ensures r.Some? ==> pos <= r.value && SeparatorAt(s, r.value) && forall i | pos <= i < r.value :: !SeparatorAt(s, i)
    ensures r.None? ==> forall i | pos <= i :: !SeparatorAt(s, i)
    decreases |s| - pos
  {
    if pos >= |s| then None else if SeparatorAt(s, pos) then Some(pos) else FindSeparator(s, pos + 1)
  }

  datatype Columns = Columns(bid: string, ask: string)

  function SplitBidAsk(line: string): Columns {
    var at := FindSeparator(line, 0);
    if at.None? then Columns("", "") else Columns(line[..at.value], line[at.value + 3..])
  }

  /** Length of the leading run of digits. */
  function Leading(s: string): (n: nat)
    ensures n <= |s| && AllDigits(s[..n]) && (n < |s| ==> !IsDigit(s[n]))
  {
    if s == "" || !IsDigit(s[0]) then 0
    else
      var n := 1 + Leading(s[1..]);
      assert s[..n] == [s[0]] + s[1..][..n - 1];
      n
  }

  /** The leading digits as an unsigned 64-bit number, which wraps; none without a digit. */
  function U64Of(s: string): Option<nat> {
    var n := Leading(s);
    if n == 0 then None else Some(Value(s[..n]) % TWO_64)
  }

  method ParseU64(s: string) returns (r: Option<nat>)
    ensures r == U64Of(s)
  {
    var i: nat, v: nat := 0, 0;
    while i < |s| && IsDigit(s[i])
      invariant i <= |s| && AllDigits(s[..i]) && v == Value(s[..i]) % TWO_64
    {
      assert s[..i + 1][..i] == s[..i];
      Wraps(Value(s[..i]), DigitValue(s[i]));
      v := (v * 10 + DigitValue(s[i])) % TWO_64;
      i := i + 1;
    }
    LeadingIs(s, i);
    r := if i == 0 then None else Some(v);
  }

  lemma Wraps(x: nat, d: nat)
    ensures (x % TWO_64 * 10 + d) % TWO_64 == (10 * x + d) % TWO_64
  {}

  lemma {:induction false} LeadingIs(s: string, n: nat)
    requires n <= |s| && AllDigits(s[..n]) && (n < |s| ==> !IsDigit(s[n]))
    ensures Leading(s) == n
  {
    DigitsUpTo(s, n);
    DigitsUpTo(s, Leading(s));
  }

  lemma DigitsUpTo(s: string, n: nat)
    requires n <= |s| && AllDigits(s[..n])
    ensures forall k | 0 <= k < n :: IsDigit(s[k])
  {}

  /** A price column as a signed 64-bit number. */
  function AsInt64(p: nat): int {
    if p < TWO_63 then p else p - TWO_64
  }

  /** "qty<tab>price" */
  /** The cast keeps the number modulo 2^64 and lands in the signed range. */
  lemma AsInt64Is(p: nat)
    requires p < TWO_64
    ensures -0x8000_0000_0000_0000 <= AsInt64(p) <= 0x7FFF_FFFF_FFFF_FFFF
    ensures AsInt64(p) == p || AsInt64(p) == p - 0x1_0000_0000_0000_0000
  {}

  function BidLevel(part: string): Option<Level> {
    var tab := FindChar(part, '\t', 0);
    if tab.None? then None
    else
      var q := U64Of(part[..tab.value]);
      var p := U64Of(part[tab.value + 1..]);
      if q.None? || p.None? then None else Some(Level(AsInt64(p.value), q.value))
  }

  /** "price<tab>qty" */
  function AskLevel(part: string): Option<Level> {
    var tab := FindChar(part, '\t', 0);
    if tab.None? then None
    else
      var p := U64Of(part[..tab.value]);
      var q := U64Of(part[tab.value + 1..]);
      if p.None? || q.None? then None else Some(Level(AsInt64(p.value), q.value))
  }

  function LevelOn(side: Side, line: string): Option<Level> {
    var columns := SplitBidAsk(line);
    if side.Buy? then BidLevel(columns.bid) else AskLevel(columns.ask)
  }

  method ParseLevel(side: Side, line: string) returns (r: Option<Level>)
    ensures r == LevelOn(side, line)
  {
    var columns := SplitBidAsk(line);
    var part := if side.Buy? then columns.bid else columns.ask;
    var tab := FindChar(part, '\t', 0);
    if tab.None? {
      return None;
    }
    var first := ParseU64(part[..tab.value]);
    if first.None? {
      return None;
    }
    var second := ParseU64(part[tab.value + 1..]);
    if second.None? {
      return None;
    }
    r := if side.Buy? then Some(Level(AsInt64(second.value), first.value))
         else Some(Level(AsInt64(first.value), second.value));
  }

  // ----- the queries ----------------------------------------------------------------------------------

  /** What a line adds to the depth at a price. */
  function Adds(line: string, side: Side, price: int): nat {
    var l := LevelOn(side, line);
    if l.Some? && l.value.price == price then l.value.qty else 0
  }

  function LinesDepth(lines: seq<string>, side: Side, price: int): nat {
    if lines == [] then 0 else LinesDepth(lines[..|lines| - 1], side, price) + Adds(lines[|lines| - 1], side, price)
  }

  method QueryBest(dump: string, side: Side) returns (r: Option<int>)
    ensures var l := LevelOn(side, Split(dump, '\n')[0]);
            r == if l.Some? then Some(l.value.price) else None
  {
    var nl := FindChar(dump, '\n', 0);
    var firstLine := dump[..if nl.None? then |dump| else nl.value];
    FirstLine(dump, |firstLine|);
    var l := ParseLevel(side, firstLine);
    r := if l.Some? then Some(l.value.price) else None;
  }

  method QueryDepthAt(dump: string, side: Side, price: int) returns (total: nat)
    ensures total == LinesDepth(Split(dump, '\n'), side, price) % TWO_64
  {
    hide Split, LevelOn, LinesDepth;
    total := 0;
    var pos := 0;
    NoLines(side, price);
    assert dump[..0] == "";
    while pos < |dump|
      invariant pos <= |dump| && (pos > 0 ==> dump[pos - 1] == '\n')
      invariant total == LinesDepth(Split(dump[..pos], '\n'), side, price) % TWO_64
    {
      var nl := FindChar(dump, '\n', pos);
      var end := if nl.None? then |dump| else nl.value;
      var line := dump[pos..end];
      var l := ParseLevel(side, line);
      NextLine(dump, pos, end, side, price);
      Sums(LinesDepth(Split(dump[..pos], '\n'), side, price), Adds(line, side, price));
      if l.Some? && l.value.price == price {
        total := (total + l.value.qty) % TWO_64;
      }
      if nl.None? {
        assert dump[..end] == dump;
        return;
      }
      pos := nl.value + 1;
    }
    assert dump[..pos] == dump;
  }

  lemma Sums(x: nat, d: nat)
    ensures (x % TWO_64 + d) % TWO_64 == (x + d) % TWO_64
  {}

  lemma NoLines(side: Side, price: int)
    ensures LinesDepth(Split("", '\n'), side, price) == 0
  {}

  lemma EmptyLineAddsNothing(side: Side, price: int)
    ensures Adds("", side, price) == 0
  {}

  lemma SplitEnd(a: string, b: string)
    requires Free(b, '\n')
    ensures Split(a + "\n" + b, '\n') == Split(a, '\n') + [b]
  {
    LastIndexOf(a, '\n', b);
    var s := a + ['\n'] + b;
    assert s == a + "\n" + b && s[..|a|] == a && s[|a| + 1..] == b;
  }

  lemma SplitPlain(b: string)
    requires Free(b, '\n')
    ensures Split(b, '\n') == [b]
  {}

  lemma FreeUpTo(s: string, n: nat)
    requires n <= |s| && Free(s[..n], '\n')
    ensures forall k | 0 <= k < n :: s[k] != '\n'
  {}

  lemma {:induction false} FirstLine(dump: string, n: nat)
    requires n <= |dump| && Free(dump[..n], '\n') && (n < |dump| ==> dump[n] == '\n')
    ensures Split(dump, '\n')[0] == dump[..n]
    decreases |dump|
  {
    var k := LastIndex(dump, '\n');
    if k < 0 {
      assert dump[..n] == dump;
    } else {
      FreeUpTo(dump, n);
      assert dump[..k][..n] == dump[..n];
      FirstLine(dump[..k], n);
    }
  }

  lemma AddLine(prefix: string, line: string, side: Side, price: int)
    requires Free(line, '\n') && (prefix != "" ==> prefix[|prefix| - 1] == '\n')
    ensures LinesDepth(Split(prefix + line, '\n'), side, price)
         == LinesDepth(Split(prefix, '\n'), side, price) + Adds(line, side, price)
  {
    hide Split, LevelOn, Adds, LinesDepth;
    EmptyLineAddsNothing(side, price);
    if prefix == "" {
      assert prefix + line == line;
      SplitPlain("");
      SplitPlain(line);
      LinesNext([], "", side, price);
      LinesNext([], line, side, price);
    } else {
      var head := prefix[..|prefix| - 1];
      assert prefix == head + "\n" + "" && prefix + line == head + "\n" + line;
      SplitEnd(head, "");
      SplitEnd(head, line);
      LinesNext(Split(head, '\n'), "", side, price);
      LinesNext(Split(head, '\n'), line, side, price);
    }
  }

  lemma EndLine(text: string, side: Side, price: int)
    ensures LinesDepth(Split(text + "\n", '\n'), side, price) == LinesDepth(Split(text, '\n'), side, price)
  {}

  /** One round of the depth scan moves over one line. */
  lemma NextLine(dump: string, pos: nat, end: nat, side: Side, price: int)
    requires pos <= end <= |dump| && (pos > 0 ==> dump[pos - 1] == '\n') && Free(dump[pos..end], '\n')
    ensures var before := LinesDepth(Split(dump[..pos], '\n'), side, price);
            && LinesDepth(Split(dump[..end], '\n'), side, price) == before + Adds(dump[pos..end], side, price)
            && (end < |dump| && dump[end] == '\n' ==>
                  LinesDepth(Split(dump[..end + 1], '\n'), side, price) == before + Adds(dump[pos..end], side, price))
  {
    hide Split, LevelOn, Adds, LinesDepth;
    assert dump[..end] == dump[..pos] + dump[pos..end];
    AddLine(dump[..pos], dump[pos..end], side, price);
    if end < |dump| && dump[end] == '\n' {
      assert dump[..end + 1] == dump[..end] + "\n";
      EndLine(dump[..end], side, price);
    }
  }

  lemma LinesNext(lines: seq<string>, line: string, side: Side, price: int)
    ensures LinesDepth(lines + [line], side, price) == LinesDepth(lines, side, price) + Adds(line, side, price)
    ensures LinesDepth([], side, price) == 0 && [] + [line] == [line]
  {}

  // ----- the printed book -----------------------------------------------------------------------------

  /** "<qty><tab><price> | <price><tab><qty>", with three tabs for a missing bid and nothing for a
      missing ask. */
  function BidColumn(bids: seq<Level>, k: nat): string
    requires AllPrinted(bids)
  {
    if k < |bids| then Dec(bids[k].qty) + "\t" + Dec(bids[k].price) else "\t\t\t"
  }

  function AskColumn(asks: seq<Level>, k: nat): string
    requires AllPrinted(asks)
  {
    if k < |asks| then Dec(asks[k].price) + "\t" + Dec(asks[k].qty) else ""
  }

  function Row(bids: seq<Level>, asks: seq<Level>, k: nat): string
    requires AllPrinted(bids) && AllPrinted(asks)
  {
    BidColumn(bids, k) + " | " + AskColumn(asks, k)
  }

  /** Levels the engine can print: non-negative prices, widths of the wire. */
  predicate AllPrinted(levels: seq<Level>) {
    forall k | 0 <= k < |levels| :: 0 <= levels[k].price < TWO_63 && levels[k].qty < TWO_64
  }

  /** The first `n` rows of the dump, best levels first. */
  function Rows(bids: seq<Level>, asks: seq<Level>, n: nat): string
    requires AllPrinted(bids) && AllPrinted(asks)
  {
    if n == 0 then "" else Rows(bids, asks, n - 1) + Row(bids, asks, n - 1) + "\n"
  }

  function Longer(bids: seq<Level>, asks: seq<Level>): nat {
    if |bids| < |asks| then |asks| else |bids|
  }

  /** toString(): a row for every level of the longer side. */
  function Dump(bids: seq<Level>, asks: seq<Level>): string
    requires AllPrinted(bids) && AllPrinted(asks)
  {
    Rows(bids, asks, Longer(bids, asks))
  }

  lemma NumberReadsBack(n: nat, s: string)
    requires n < TWO_64 && (s == "" || !IsDigit(s[0]))
    ensures U64Of(Dec(n) + s) == Some(n)
    ensures Free(Dec(n), '\t') && Free(Dec(n), '\n') && Free(Dec(n), ' ')
  {
    hide Dec;
    DecFree(n);
    DecValue(n);
    var d := Dec(n);
    assert (d + s)[..|d|] == d;
    LeadingIs(d + s, |d|);
  }

  lemma DecFree(n: nat)
    ensures Free(Dec(n), '\t') && Free(Dec(n), '\n') && Free(Dec(n), ' ')
  {}

  lemma TabFound(a: string, b: string)
    requires Free(a, '\t')
    ensures FindChar(a + "\t" + b, '\t', 0) == Some(|a|)
    ensures (a + "\t" + b)[..|a|] == a && (a + "\t" + b)[|a| + 1..] == b
  {
    var s := a + "\t" + b;
    assert s[|a|] == '\t';
    var r := FindChar(s, '\t', 0);
    assert forall i | 0 <= i < |a| :: s[i] == a[i];
  }

  lemma ColumnReadsBack(a: nat, b: nat)
    requires a < TWO_64 && b < TWO_64
    ensures var s := Dec(a) + "\t" + Dec(b);
            var tab := FindChar(s, '\t', 0);
            && tab == Some(|Dec(a)|) && U64Of(s[..tab.value]) == Some(a) && U64Of(s[tab.value + 1..]) == Some(b)
            && Free(s, '\n') && Free(s, ' ')
  {
    hide U64Of, Dec;
    NumberReadsBack(a, "");
    NumberReadsBack(b, "");
    TabFound(Dec(a), Dec(b));
    assert Dec(a) + "" == Dec(a) && Dec(b) + "" == Dec(b);
  }

  lemma SeparatorFound(a: string, b: string)
    requires Free(a, ' ')
    ensures SplitBidAsk(a + " | " + b) == Columns(a, b)
  {
    var s := a + " | " + b;
    assert SeparatorAt(s, |a|);
    assert forall i | 0 <= i < |a| :: s[i] == a[i];
    assert s[..|a|] == a && s[|a| + 3..] == b;
  }

  lemma BidReadsBack(bids: seq<Level>, k: nat)
    requires AllPrinted(bids)
    ensures BidLevel(BidColumn(bids, k)) == if k < |bids| then Some(bids[k]) else None
    ensures Free(BidColumn(bids, k), ' ') && Free(BidColumn(bids, k), '\n')
  {
    hide U64Of, Dec;
    if k < |bids| {
      ColumnReadsBack(bids[k].qty, bids[k].price);
    } else {
      TabFound("", "\t\t");
      assert "" + "\t" + "\t\t" == "\t\t\t";
      NoNumber();
    }
  }

  lemma AskReadsBack(asks: seq<Level>, k: nat)
    requires AllPrinted(asks)
    ensures AskLevel(AskColumn(asks, k)) == if k < |asks| then Some(asks[k]) else None
    ensures Free(AskColumn(asks, k), '\n')
  {
    hide U64Of, Dec;
    if k < |asks| {
      ColumnReadsBack(asks[k].price, asks[k].qty);
    }
  }

  lemma NoNumber()
    ensures U64Of("") == None
  {}

  /** Every printed row parses back to exactly the levels it was printed from. */
  lemma RowReadsBack(bids: seq<Level>, asks: seq<Level>, k: nat)
    requires AllPrinted(bids) && AllPrinted(asks)
    ensures LevelOn(Buy, Row(bids, asks, k)) == if k < |bids| then Some(bids[k]) else None
    ensures LevelOn(Sell, Row(bids, asks, k)) == if k < |asks| then Some(asks[k]) else None
    ensures Free(Row(bids, asks, k), '\n')
  {
    hide BidLevel, AskLevel, BidColumn, AskColumn, SplitBidAsk;
    BidReadsBack(bids, k);
    AskReadsBack(asks, k);
    SeparatorFound(BidColumn(bids, k), AskColumn(asks, k));
  }

  /** The format, on a two-sided and a blank-bid row: quantity before price on the bid side, price
      before quantity on the ask side. */
  lemma DumpExample()
    ensures Dump([Level(8, 4)], [Level(9, 5)]) == "4\t8 | 9\t5\n"
    ensures Dump([], [Level(9, 5)]) == "\t\t\t | 9\t5\n"
    ensures Dump([Level(8, 4)], []) == "4\t8 | \n"
  {
    assert Dec(4) == "4" && Dec(5) == "5" && Dec(8) == "8" && Dec(9) == "9";
    hide Dec;
    OneRow([Level(8, 4)], [Level(9, 5)]);
    OneRow([], [Level(9, 5)]);
    OneRow([Level(8, 4)], []);
  }

  lemma OneRow(bids: seq<Level>, asks: seq<Level>)
    requires AllPrinted(bids) && AllPrinted(asks) && Longer(bids, asks) == 1
    ensures Dump(bids, asks) == Row(bids, asks, 0) + "\n"
  {
    assert Rows(bids, asks, 0) == "";
  }

  /** The total of the levels at a price. */
  function SumAt(levels: seq<Level>, n: nat, price: int): nat
    requires n <= |levels|
  {
    if n == 0 then 0
    else SumAt(levels, n - 1, price) + if levels[n - 1].price == price then levels[n - 1].qty else 0
  }

  function SideOf(bids: seq<Level>, asks: seq<Level>, side: Side): seq<Level> {
    if side.Buy? then bids else asks
  }

  lemma {:induction false} RowsDepth(bids: seq<Level>, asks: seq<Level>, n: nat, side: Side, price: int)
    requires AllPrinted(bids) && AllPrinted(asks)
    ensures var levels := SideOf(bids, asks, side);
            LinesDepth(Split(Rows(bids, asks, n), '\n'), side, price) == SumAt(levels, Min(n, |levels|), price)
    ensures n > 0 ==> Rows(bids, asks, n) != "" && Rows(bids, asks, n)[|Rows(bids, asks, n)| - 1] == '\n'
  {
    hide Split, LevelOn, LinesDepth, Row;
    if n == 0 {
      NoLines(side, price);
    } else {
      RowsDepth(bids, asks, n - 1, side, price);
      RowReadsBack(bids, asks, n - 1);
      AddLine(Rows(bids, asks, n - 1), Row(bids, asks, n - 1), side, price);
      EndLine(Rows(bids, asks, n - 1) + Row(bids, asks, n - 1), side, price);
    }
  }

  lemma {:induction false} RowsFirst(bids: seq<Level>, asks: seq<Level>, n: nat)
    requires AllPrinted(bids) && AllPrinted(asks) && n > 0
    ensures Row(bids, asks, 0) + "\n" <= Rows(bids, asks, n)
  {
    hide Row;
    if n > 1 {
      RowsFirst(bids, asks, n - 1);
    } else {
      assert Rows(bids, asks, 0) + Row(bids, asks, 0) + "\n" == Row(bids, asks, 0) + "\n";
    }
  }

  /** The best price and the depth read from a dump are those of the printed levels, for every
      book: empty, one-sided, or with one side longer. */
  lemma DumpReadsBack(bids: seq<Level>, asks: seq<Level>, side: Side, price: int)
    requires AllPrinted(bids) && AllPrinted(asks)
    ensures var lines := Split(Dump(bids, asks), '\n');
            var levels := SideOf(bids, asks, side);
            && LevelOn(side, lines[0]) == (if levels == [] then None else Some(levels[0]))
            && LinesDepth(lines, side, price) == SumAt(levels, |levels|, price)
  {
    hide Split, LevelOn, LinesDepth, Row, SumAt;
    var n := Longer(bids, asks);
    RowsDepth(bids, asks, n, side, price);
    if n == 0 {
      SplitPlain("");
      NothingPrinted(side);
    } else {
      RowsFirst(bids, asks, n);
      RowReadsBack(bids, asks, 0);
      var row := Row(bids, asks, 0);
      assert Dump(bids, asks)[..|row|] == row && Dump(bids, asks)[|row|] == '\n';
      FirstLine(Dump(bids, asks), |row|);
    }
  }

  lemma NothingPrinted(side: Side)
    ensures LevelOn(side, "") == None
  {}

  // ----- against the contract ------------------------------------------------------------------------------

  /** `levels` are the price levels of one side of the book, best first. */
  ghost predicate LevelsOf(b: seq<Order>, side: Side, levels: seq<Level>) {
    && (forall i, j | 0 <= i < j < |levels| :: Better(side.Opposite(), levels[i].price, levels[j].price))
    && (forall i | 0 <= i < |levels| ::
          levels[i].qty == Depth(b, side, levels[i].price) && Present(b, side, levels[i].price))
    && (forall j | 0 <= j < |b| && b[j].side == side :: exists i :: 0 <= i < |levels| && levels[i].price == b[j].price)
  }

  ghost predicate Present(b: seq<Order>, side: Side, price: int) {
    exists j :: 0 <= j < |b| && b[j].side == side && b[j].price == price
  }

  lemma {:induction false} AbsentHasNoDepth(b: seq<Order>, side: Side, price: int)
    requires !Present(b, side, price)
    ensures Depth(b, side, price) == 0
  {
    if b != [] {
      var n := |b| - 1;
      forall j | 0 <= j < n ensures !(b[..n][j].side == side && b[..n][j].price == price) {
        assert b[j] == b[..n][j];
      }
      AbsentHasNoDepth(b[..n], side, price);
    }
  }

  lemma {:induction false} SumOfLevels(levels: seq<Level>, n: nat, price: int, i: nat)
    requires n <= |levels| && (forall j, k | 0 <= j < k < |levels| :: levels[j].price != levels[k].price)
    requires i < |levels| ==> levels[i].price == price
    requires i >= |levels| ==> forall k | 0 <= k < |levels| :: levels[k].price != price
    ensures SumAt(levels, n, price) == if i < n then levels[i].qty else 0
  {
    if n > 0 {
      SumOfLevels(levels, n - 1, price, i);
    }
  }

  lemma LevelsAnswer(b: seq<Order>, side: Side, levels: seq<Level>, price: int)
    requires LevelsOf(b, side, levels)
    ensures BestPrice(b, side) == (if levels == [] then None else Some(levels[0].price))
    ensures SumAt(levels, |levels|, price) == Depth(b, side, price)
    ensures AllPrinted(levels) ==> Depth(b, side, price) < TWO_64
  {
    hide Depth, SumAt;
    if levels != [] {
      assert Present(b, side, levels[0].price);
    }
    if i: nat :| i < |levels| && levels[i].price == price {
      SumOfLevels(levels, |levels|, price, i);
    } else {
      SumOfLevels(levels, |levels|, price, |levels|);
      AbsentHasNoDepth(b, side, price);
    }
  }

  /** engine_query_best_bid over the dump of a book is the contract's answer. */
  method QueryBestBid(ghost b: seq<Order>, bids: seq<Level>, asks: seq<Level>) returns (r: int)
    requires AllPrinted(bids) && AllPrinted(asks) && LevelsOf(b, Buy, bids)
    ensures r == BestBidAnswer(b)
  {
    hide LevelsOf, Dump, LevelOn, Split, BestPrice;
    var best := QueryBest(Dump(bids, asks), Buy);
    DumpReadsBack(bids, asks, Buy, 0);
    LevelsAnswer(b, Buy, bids, 0);
    r := if best.Some? then best.value else INT64_MIN;
  }

  method QueryBestAsk(ghost b: seq<Order>, bids: seq<Level>, asks: seq<Level>) returns (r: int)
    requires AllPrinted(bids) && AllPrinted(asks) && LevelsOf(b, Sell, asks)
    ensures r == BestAskAnswer(b)
  {
    hide LevelsOf, Dump, LevelOn, Split, BestPrice;
    var best := QueryBest(Dump(bids, asks), Sell);
    DumpReadsBack(bids, asks, Sell, 0);
    LevelsAnswer(b, Sell, asks, 0);
    r := if best.Some? then best.value else INT64_MAX;
  }

  method QueryDepth(ghost b: seq<Order>, bids: seq<Level>, asks: seq<Level>, side: Side, price: int)
    returns (total: nat)
    requires AllPrinted(bids) && AllPrinted(asks) && LevelsOf(b, side, SideOf(bids, asks, side))
    ensures total == Depth(b, side, price)
  {
    hide LevelsOf, Dump, LevelOn, Split, BestPrice, Depth, SumAt, LinesDepth;
    total := QueryDepthAt(Dump(bids, asks), side, price);
    DumpReadsBack(bids, asks, side, price);
    LevelsAnswer(b, side, SideOf(bids, asks, side), price);
  }
}
