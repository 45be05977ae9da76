/** What the flat matcher guarantees: price-time priority, conservation of quantity and an
    uncrossed book, for single messages and for whole runs. */
module MatchingLaws {
  import opened Basics
  import opened Contract

  function Traded(fills: seq<Fill>): nat {
    if fills == [] then 0 else fills[0].qty + Traded(fills[1..])
  }

  function Total(b: seq<Order>): nat {
    if b == [] then 0 else Total(b[..|b| - 1]) + b[|b| - 1].qty
  }

  // ----- what matching leaves of the book ----------------------------------------

  ghost predicate SameOrder(o: Order, p: Order) {
    o.id == p.id && o.side == p.side && o.price == p.price && p.qty <= o.qty
  }

  /** Some order of `b` is `o`, possibly with more lots. */
  ghost predicate Origin(b: seq<Order>, o: Order) {
    exists i | 0 <= i < |b| :: SameOrder(b[i], o)
  }

  /** Every order of `b'` is an order of `b`, possibly with fewer lots. */
  ghost predicate ShrunkFrom(b: seq<Order>, b': seq<Order>) {
    forall j | 0 <= j < |b'| :: Origin(b, b'[j])
  }

  lemma ShrunkReflexive(b: seq<Order>)
    ensures ShrunkFrom(b, b)
  {
    forall j | 0 <= j < |b| ensures Origin(b, b[j]) {
      assert SameOrder(b[j], b[j]);
    }
  }

  lemma ShrunkTransitive(a: seq<Order>, b: seq<Order>, c: seq<Order>)
    requires ShrunkFrom(a, b) && ShrunkFrom(b, c)
    ensures ShrunkFrom(a, c)
  {}

  lemma TakeKeeps(b: seq<Order>, i: nat, q: nat)
    requires WellFormed(b) && i < |b| && q <= b[i].qty
    ensures WellFormed(Take(b, i, q)) && ShrunkFrom(b, Take(b, i, q))
  {}

  /** Matching keeps ids distinct and quantities positive, and only removes or shrinks
      orders. */
  lemma {:induction false} MatchKeeps(b: seq<Order>, taker: Side, limit: int, qty: nat)
    requires WellFormed(b)
    ensures WellFormed(Match(b, taker, limit, qty).book)
    ensures ShrunkFrom(b, Match(b, taker, limit, qty).book)
    decreases |b| + qty
  {
    hide WellFormed, ShrunkFrom, Take, BestMaker;
    var best := BestMaker(b, taker, limit);
    if qty == 0 || best.None? {
      ShrunkReflexive(b);
    } else {
      var i := best.value;
      var q := Min(b[i].qty, qty);
      TakeKeeps(b, i, q);
      TakeIsSmaller(b, i, qty);
      MatchKeeps(Take(b, i, q), taker, limit, qty - q);
      ShrunkTransitive(b, Take(b, i, q), Match(b, taker, limit, qty).book);
    }
  }

  ghost predicate AllPriced(b: seq<Order>, fits: int -> bool) {
    forall i | 0 <= i < |b| :: fits(b[i].price)
  }

  ghost predicate FillsPriced(fills: seq<Fill>, fits: int -> bool) {
    forall i | 0 <= i < |fills| :: fits(fills[i].price)
  }

  /** Matching brings in no new prices. */
  lemma {:induction false} MatchPriced(b: seq<Order>, taker: Side, limit: int, qty: nat, fits: int -> bool)
    requires AllPriced(b, fits)
    ensures var m := Match(b, taker, limit, qty); AllPriced(m.book, fits) && FillsPriced(m.fills, fits)
    decreases |b| + qty
  {
    hide BestMaker;
    var best := BestMaker(b, taker, limit);
    if qty > 0 && best.Some? {
      var q := Min(b[best.value].qty, qty);
      TakeIsSmaller(b, best.value, qty);
      MatchPriced(Take(b, best.value, q), taker, limit, qty - q, fits);
    }
  }

  /** Matching stops with lots left only when no crossing maker remains. */
  lemma {:induction false} MatchExhausts(b: seq<Order>, taker: Side, limit: int, qty: nat)
    ensures var m := Match(b, taker, limit, qty);
            m.left > 0 ==> forall j | 0 <= j < |m.book| :: !Eligible(m.book[j], taker, limit)
    decreases |b| + qty
  {
    var best := BestMaker(b, taker, limit);
    BestMakerIsBest(b, taker, limit);
    if qty > 0 && best.Some? {
      var i := best.value;
      var q := Min(b[i].qty, qty);
      MatchExhausts(Take(b, i, q), taker, limit, qty - q);
    }
  }

  /** The limit in plain numbers: no fill is worse than it, and with lots left no opposite order
      rests at it or better. */
  lemma {:induction false} LimitKept(b: seq<Order>, taker: Side, limit: int, qty: nat)
    ensures var m := Match(b, taker, limit, qty);
            && (taker == Buy ==> forall k | 0 <= k < |m.fills| :: m.fills[k].price <= limit)
            && (taker == Sell ==> forall k | 0 <= k < |m.fills| :: m.fills[k].price >= limit)
            && (m.left > 0 ==> forall j | 0 <= j < |m.book| && m.book[j].side != taker ::
                  if taker == Buy then m.book[j].price > limit else m.book[j].price < limit)
    decreases |b| + qty
  {
    hide Take, BestMaker;
    MatchExhausts(b, taker, limit, qty);
    var best := BestMaker(b, taker, limit);
    if qty > 0 && best.Some? {
      var q := Min(b[best.value].qty, qty);
      TakeIsSmaller(b, best.value, qty);
      LimitKept(Take(b, best.value, q), taker, limit, qty - q);
    }
  }

  /** Over whole runs: no new order and no applied modify ever trades beyond its message's own
      price. */
  lemma RunKeepsLimits(b: seq<Order>, msgs: seq<Msg>, k: nat)
    requires k < |msgs| && !msgs[k].Cancel?
    ensures var m, e := msgs[k], Run(b, msgs).events[k];
            && (m.New? ==> e.Accepted?) && (m.Modify? ==> e.Modified? || e.ModifyRejected?)
            && (e.Accepted? || e.Modified? ==>
                  forall i | 0 <= i < |e.fills| ::
                    if m.side == Buy then e.fills[i].price <= m.price else e.fills[i].price >= m.price)
  {
    hide Match, Run, Find;
    RunEventAt(b, msgs, k);
    var book, m := Run(b, msgs[..k]).book, msgs[k];
    if m.New? {
      LimitKept(book, m.side, m.price, m.qty);
    } else if Find(book, m.id).Some? {
      LimitKept(RemoveAt(book, Find(book, m.id).value), m.side, m.price, m.qty);
    }
  }

  // ----- conservation of quantity --------------------------------------------------

  lemma {:induction false} TotalConcat(a: seq<Order>, b: seq<Order>)
    ensures Total(a + b) == Total(a) + Total(b)
  {
    if b == [] {
      assert a + b == a;
    } else {
      assert (a + b)[..|a + b| - 1] == a + b[..|b| - 1];
      TotalConcat(a, b[..|b| - 1]);
    }
  }

  lemma TotalSplit(b: seq<Order>, i: nat)
    requires i < |b|
    ensures Total(b) == Total(b[..i]) + b[i].qty + Total(b[i + 1..])
  {
    assert b == b[..i] + ([b[i]] + b[i + 1..]);
    TotalConcat(b[..i], [b[i]] + b[i + 1..]);
    TotalConcat([b[i]], b[i + 1..]);
    assert [b[i]][..0] == [];
  }

  lemma TotalTake(b: seq<Order>, i: nat, q: nat)
    requires i < |b| && q <= b[i].qty
    ensures Total(Take(b, i, q)) + q == Total(b)
  {
    TotalSplit(b, i);
    if q == b[i].qty {
      TotalConcat(b[..i], b[i + 1..]);
    } else {
      var t := Take(b, i, q);
      TotalSplit(t, i);
      assert t[..i] == b[..i] && t[i + 1..] == b[i + 1..];
    }
  }

  lemma TradedFront(f: Fill, fills: seq<Fill>)
    ensures Traded([f] + fills) == f.qty + Traded(fills) && Traded([]) == 0
  {}

  lemma TakeIsSmaller(b: seq<Order>, i: nat, qty: nat)
    requires i < |b| && qty > 0
    ensures var q := Min(b[i].qty, qty); |Take(b, i, q)| + (qty - q) < |b| + qty
  {}

  /** Per message: fills plus the rest is the quantity that came in, and the makers lose
      exactly what was traded. */
  lemma {:induction false} MatchConserves(b: seq<Order>, taker: Side, limit: int, qty: nat)
    ensures var m := Match(b, taker, limit, qty);
            && Traded(m.fills) + m.left == qty
            && Total(m.book) + Traded(m.fills) == Total(b)
    decreases |b| + qty
  {
    hide Total, Traded, Take;
    var best := BestMaker(b, taker, limit);
    if qty == 0 || best.None? {
      TradedFront(Fill(0, 0, 0), []);
    } else {
      var i := best.value;
      var q := Min(b[i].qty, qty);
      TotalTake(b, i, q);
      TakeIsSmaller(b, i, qty);
      MatchConserves(Take(b, i, q), taker, limit, qty - q);
      TradedFront(Fill(b[i].id, b[i].price, q), Match(Take(b, i, q), taker, limit, qty - q).fills);
    }
  }

  /** Every fill takes at least one lot, so there are no more fills than lots. */
  lemma {:induction false} FewFills(b: seq<Order>, taker: Side, limit: int, qty: nat)
    requires WellFormed(b)
    ensures |Match(b, taker, limit, qty).fills| <= qty
    decreases |b| + qty
  {
    hide Take, BestMaker;
    var best := BestMaker(b, taker, limit);
    if qty > 0 && best.Some? {
      var i := best.value;
      var q := Min(b[i].qty, qty);
      TakeKeeps(b, i, q);
      TakeIsSmaller(b, i, qty);
      FewFills(Take(b, i, q), taker, limit, qty - q);
    }
  }

  lemma EnterConserves(b: seq<Order>, o: Order, ioc: bool)
    ensures var e := Enter(b, o, ioc);
            && Traded(e.fills) + e.left == o.qty
            && Total(e.book) + Traded(e.fills) == Total(b) + (if ioc then 0 else e.left)
  {
    MatchConserves(b, o.side, o.price, o.qty);
    var m := Match(b, o.side, o.price, o.qty);
    if m.left > 0 && !ioc {
      TotalConcat(m.book, [o.(qty := m.left)]);
      assert [o.(qty := m.left)][..0] == [];
    }
  }

  /** The running account of a run. */
  datatype Ledger = Ledger(entered: nat, traded: nat, dropped: nat, withdrawn: nat)

  /** What one event books: quantity entered by the order, quantity traded, the dropped
      residual of an immediate-or-cancel order, quantity withdrawn by a cancel or by the
      cancel half of a modify. */
  function Book(l: Ledger, e: Event): Ledger {
    match e
    case Accepted(o, _, fills, left, ioc) =>
      Ledger(l.entered + o.qty, l.traded + Traded(fills), l.dropped + (if ioc then left else 0), l.withdrawn)
    case Cancelled(gone, _) => l.(withdrawn := l.withdrawn + gone.qty)
    case Modified(gone, o, _, fills, _) =>
      Ledger(l.entered + o.qty, l.traded + Traded(fills), l.dropped, l.withdrawn + gone.qty)
    case CancelRejected(_, _) => l
    case ModifyRejected(_, _) => l
  }

  function Account(events: seq<Event>): Ledger {
    if events == [] then Ledger(0, 0, 0, 0)
    else Book(Account(events[..|events| - 1]), events[|events| - 1])
  }

  /** Conservation over whole runs: what was entered is resting, was traded (once on the
      taker's and once on the maker's side), was dropped as a residual or was withdrawn. */
  lemma {:induction false} RunConserves(b: seq<Order>, msgs: seq<Msg>)
    ensures var r := Run(b, msgs);
            var l := Account(r.events);
            Total(b) + l.entered == Total(r.book) + 2 * l.traded + l.dropped + l.withdrawn
  {
    if msgs != [] {
      var n := |msgs| - 1;
      RunConserves(b, msgs[..n]);
      var before := Run(b, msgs[..n]);
      var s := Step(before.book, msgs[n]);
      assert Run(b, msgs).events[..n] == before.events;
      StepConserves(before.book, msgs[n]);
    }
  }

  lemma StepConserves(b: seq<Order>, m: Msg)
    ensures var s := Step(b, m);
            var l := Book(Ledger(0, 0, 0, 0), s.event);
            Total(b) + l.entered == Total(s.book) + 2 * l.traded + l.dropped + l.withdrawn
  {
    match m
    case New(id, _, price, qty, side, ioc) =>
      EnterConserves(b, Order(id, side, price, qty), ioc);
    case Cancel(id, _) =>
      var at := Find(b, id);
      if at.Some? { TotalTake(b, at.value, b[at.value].qty); }
    case Modify(id, _, price, qty, side) =>
      var at := Find(b, id);
      if at.Some? {
        TotalTake(b, at.value, b[at.value].qty);
        EnterConserves(RemoveAt(b, at.value), Order(id, side, price, qty), false);
      }
  }

  /** What one message books against the book it meets, in lots: a new order or an applied modify
      enters its own quantity; a cancel or a modify withdraws what its order has left; an
      immediate-or-cancel order drops what it does not trade. */
  function Entry(b: seq<Order>, m: Msg): Ledger {
    var at := Find(b, m.id);
    var traded := Traded(FillsOf(Step(b, m).event));
    Ledger(if m.New? || (m.Modify? && at.Some?) then m.qty else 0,
           traded,
           if m.New? && m.ioc && m.qty >= traded then m.qty - traded else 0,
           if !m.New? && at.Some? then b[at.value].qty else 0)
  }

  function FillsOf(e: Event): seq<Fill> {
    if e.Accepted? || e.Modified? then e.fills else []
  }

  /** The entries of a run, added up. */
  function Entries(b: seq<Order>, msgs: seq<Msg>): Ledger {
    if msgs == [] then Ledger(0, 0, 0, 0)
    else
      var n := |msgs| - 1;
      var l, e := Entries(b, msgs[..n]), Entry(Run(b, msgs[..n]).book, msgs[n]);
      Ledger(l.entered + e.entered, l.traded + e.traded, l.dropped + e.dropped, l.withdrawn + e.withdrawn)
  }

  lemma {:induction false} AccountIsEntries(b: seq<Order>, msgs: seq<Msg>)
    ensures Account(Run(b, msgs).events) == Entries(b, msgs)
  {
    hide Step, Entry, Book;
    if msgs != [] {
      var n := |msgs| - 1;
      AccountIsEntries(b, msgs[..n]);
      assert Run(b, msgs).events[..n] == Run(b, msgs[..n]).events;
      StepIsEntry(Account(Run(b, msgs[..n]).events), Run(b, msgs[..n]).book, msgs[n]);
    }
  }

  lemma StepIsEntry(l: Ledger, b: seq<Order>, m: Msg)
    ensures var e := Entry(b, m);
            Book(l, Step(b, m).event) ==
              Ledger(l.entered + e.entered, l.traded + e.traded, l.dropped + e.dropped, l.withdrawn + e.withdrawn)
  {
    hide Match, Find, Traded, Total;
    TradedFront(Fill(0, 0, 0), []);
    if m.New? {
      MatchConserves(b, m.side, m.price, m.qty);
    }
  }

  /** Conservation against the messages themselves: what they entered is resting, was traded (once
      on each side), was dropped as a residual or was withdrawn. */
  lemma MessagesConserve(b: seq<Order>, msgs: seq<Msg>)
    ensures var l := Entries(b, msgs);
            Total(b) + l.entered == Total(Run(b, msgs).book) + 2 * l.traded + l.dropped + l.withdrawn
  {
    RunConserves(b, msgs);
    AccountIsEntries(b, msgs);
  }

  // ----- the book never crosses ----------------------------------------------------

  lemma ShrunkUncrossed(b: seq<Order>, b': seq<Order>)
    requires ShrunkFrom(b, b') && Uncrossed(b)
    ensures Uncrossed(b')
  {}

  lemma ShrunkResting(b: seq<Order>, b': seq<Order>, id: nat)
    requires ShrunkFrom(b, b') && !Resting(b, id)
    ensures !Resting(b', id)
  {}

  /** Entering an order whose id is free keeps the book well formed and uncrossed, and the
      order rests exactly when it is not immediate-or-cancel and lots are left. */
  lemma EnterKeeps(b: seq<Order>, o: Order, ioc: bool)
    requires WellFormed(b) && Uncrossed(b) && !Resting(b, o.id)
    ensures var e := Enter(b, o, ioc);
            && WellFormed(e.book) && Uncrossed(e.book)
            && (Resting(e.book, o.id) <==> !ioc && e.left > 0)
            && (!ioc && e.left > 0 ==> e.book[|e.book| - 1] == o.(qty := e.left))
  {
    MatchKeeps(b, o.side, o.price, o.qty);
    MatchExhausts(b, o.side, o.price, o.qty);
    var m := Match(b, o.side, o.price, o.qty);
    ShrunkUncrossed(b, m.book);
    ShrunkResting(b, m.book, o.id);
    if m.left > 0 && !ioc {
      RestingUncrossed(m.book, o.(qty := m.left));
      var after := m.book + [o.(qty := m.left)];
      assert after[|m.book|].id == o.id;
    }
  }

  lemma RestingUncrossed(b: seq<Order>, o: Order)
    requires Uncrossed(b)
    requires forall j | 0 <= j < |b| :: !Eligible(b[j], o.side, o.price)
    ensures Uncrossed(b + [o])
  {}

  lemma RemovedKeeps(b: seq<Order>, i: nat)
    requires WellFormed(b) && i < |b|
    ensures WellFormed(RemoveAt(b, i)) && !Resting(RemoveAt(b, i), b[i].id)
    ensures ShrunkFrom(b, RemoveAt(b, i)) && (Uncrossed(b) ==> Uncrossed(RemoveAt(b, i)))
  {
    TakeKeeps(b, i, b[i].qty);
    if Uncrossed(b) {
      ShrunkUncrossed(b, RemoveAt(b, i));
    }
  }

  lemma FindSpec(b: seq<Order>, id: nat)
    ensures Find(b, id).Some? <==> Resting(b, id)
    ensures Find(b, id).Some? ==> Find(b, id).value < |b| && b[Find(b, id).value].id == id
  {}

  lemma EmptyBook()
    ensures WellFormed([]) && Uncrossed([])
  {}

  lemma StepKeeps(b: seq<Order>, m: Msg)
    requires WellFormed(b) && Uncrossed(b) && Admissible(b, m)
    ensures WellFormed(Step(b, m).book) && Uncrossed(Step(b, m).book)
    ensures m.New? && m.ioc ==> !Resting(Step(b, m).book, m.id)
  {
    match m
    case New(id, _, price, qty, side, ioc) =>
      EnterKeeps(b, Order(id, side, price, qty), ioc);
    case Cancel(id, _) =>
      var at := Find(b, id);
      if at.Some? { RemovedKeeps(b, at.value); }
    case Modify(id, _, price, qty, side) =>
      var at := Find(b, id);
      if at.Some? {
        RemovedKeeps(b, at.value);
        EnterKeeps(RemoveAt(b, at.value), Order(id, side, price, qty), false);
      }
  }

  lemma RunPrefix(b: seq<Order>, msgs: seq<Msg>, n: nat)
    requires n < |msgs|
    ensures msgs[..n + 1][..n] == msgs[..n]
    ensures Run(b, msgs[..n + 1]).book == Step(Run(b, msgs[..n]).book, msgs[n]).book
    ensures Run(b, msgs[..n + 1]).events == Run(b, msgs[..n]).events + [Step(Run(b, msgs[..n]).book, msgs[n]).event]
  {}

  /** Event `k` of a run is message `k`'s step from the book the first `k` messages leave. */
  lemma {:induction false} RunEventAt(b: seq<Order>, msgs: seq<Msg>, k: nat)
    requires k < |msgs|
    ensures Run(b, msgs).events[k] == Step(Run(b, msgs[..k]).book, msgs[k]).event
  {
    hide Step;
    if k < |msgs| - 1 {
      RunEventAt(b, msgs[..|msgs| - 1], k);
      assert msgs[..|msgs| - 1][..k] == msgs[..k];
    }
  }

  /** Safety over whole runs: after every message of an admissible run the book has distinct
      ids, only positive quantities, and is not crossed; no immediate-or-cancel order rests. */
  lemma {:induction false} RunKeeps(b: seq<Order>, msgs: seq<Msg>, n: nat)
    requires WellFormed(b) && Uncrossed(b) && AdmissibleRun(b, msgs) && n <= |msgs|
    ensures var book := Run(b, msgs[..n]).book;
            && WellFormed(book) && Uncrossed(book)
            && (n > 0 && msgs[n - 1].New? && msgs[n - 1].ioc ==> !Resting(book, msgs[n - 1].id))
  {
    if n > 0 {
      RunKeeps(b, msgs, n - 1);
      RunPrefix(b, msgs, n - 1);
      assert Admissible(Run(b, msgs[..n - 1]).book, msgs[n - 1]);
      StepKeeps(Run(b, msgs[..n - 1]).book, msgs[n - 1]);
    }
  }

  // ----- price-time priority --------------------------------------------------------

  /** Fill `k` was made by the order at `i`. */
  ghost predicate By(b: seq<Order>, fills: seq<Fill>, k: nat, i: nat) {
    i < |b| && k < |fills| && b[i].id == fills[k].maker
  }

  /** A positive number of the maker's lots, at the maker's own price, inside the limit. */
  ghost predicate FairFill(b: seq<Order>, taker: Side, limit: int, f: Fill, i: nat) {
    && i < |b| && b[i].id == f.maker
    && Eligible(b[i], taker, limit)
    && f.price == b[i].price && 0 < f.qty <= b[i].qty
  }

  ghost predicate HasMaker(b: seq<Order>, taker: Side, limit: int, f: Fill) {
    exists i: nat :: FairFill(b, taker, limit, f, i)
  }

  /** The order at `j` was filled completely by one of the first `k` fills. */
  ghost predicate UsedUp(b: seq<Order>, fills: seq<Fill>, k: nat, j: nat) {
    && j < |b| && k <= |fills|
    && exists l: nat | l < k :: fills[l] == Fill(b[j].id, b[j].price, b[j].qty)
  }

  ghost predicate InOrder(b: seq<Order>, taker: Side, fills: seq<Fill>) {
    forall k: nat, l: nat, i: nat, j: nat | k < l && By(b, fills, k, i) && By(b, fills, l, j) ::
      Ahead(b, taker, i, j)
  }

  ghost predicate NoneSkipped(b: seq<Order>, taker: Side, limit: int, fills: seq<Fill>) {
    forall k: nat, i: nat, j: nat |
      By(b, fills, k, i) && j < |b| && Eligible(b[j], taker, limit) && Ahead(b, taker, j, i) ::
      UsedUp(b, fills, k, j)
  }

  /** The allocation of `qty` incoming lots that price-time priority prescribes. */
  ghost predicate Allocation(b: seq<Order>, taker: Side, limit: int, qty: nat, fills: seq<Fill>, left: nat) {
    && (forall k | 0 <= k < |fills| :: HasMaker(b, taker, limit, fills[k]))
    && InOrder(b, taker, fills)
    && NoneSkipped(b, taker, limit, fills)
    && Traded(fills) + left == qty
    && (left > 0 ==> forall j: nat | j < |b| && Eligible(b[j], taker, limit) :: UsedUp(b, fills, |fills|, j))
  }

  /** The position in `RemoveAt(b, i)` of the order at `j` of `b`. */
  function Down(i: nat, j: nat): nat {
    if j < i || j == 0 then j else j - 1
  }

  lemma DownKeepsOrder(b: seq<Order>, taker: Side, i: nat, j: nat, k: nat)
    requires i < |b| && j < |b| && k < |b| && j != i && k != i
    ensures var t := RemoveAt(b, i);
            && Down(i, j) < |t| && t[Down(i, j)] == b[j]
            && Down(i, k) < |t| && t[Down(i, k)] == b[k]
            && Ahead(t, taker, Down(i, j), Down(i, k)) == Ahead(b, taker, j, k)
  {}

  /** A maker of a later fill is a different order than the one already removed. */
  lemma LaterMaker(b: seq<Order>, taker: Side, limit: int, i: nat, fills: seq<Fill>, k: nat, j: nat)
    requires DistinctIds(b) && i < |b| && 0 < k && By(b, fills, k, j)
    requires HasMaker(RemoveAt(b, i), taker, limit, fills[k])
    ensures j != i && Eligible(b[j], taker, limit)
    ensures By(RemoveAt(b, i), fills[1..], k - 1, Down(i, j))
  {}

  lemma UsedUpLater(b: seq<Order>, i: nat, fills: seq<Fill>, k: nat, j: nat)
    requires i < |b| && j < |b| && j != i && 0 < k <= |fills|
    requires UsedUp(RemoveAt(b, i), fills[1..], k - 1, Down(i, j))
    ensures UsedUp(b, fills, k, j)
  {}

  /** Putting a completely filled best maker in front keeps an allocation. */
  lemma AllocationInFront(b: seq<Order>, taker: Side, limit: int, qty: nat, i: nat, rest: seq<Fill>, left: nat)
    requires WellFormed(b) && IsBest(b, taker, limit, i) && b[i].qty <= qty
    requires Allocation(RemoveAt(b, i), taker, limit, qty - b[i].qty, rest, left)
    ensures Allocation(b, taker, limit, qty, [Fill(b[i].id, b[i].price, b[i].qty)] + rest, left)
  {
    var f := Fill(b[i].id, b[i].price, b[i].qty);
    var fills := [f] + rest;
    var t := RemoveAt(b, i);
    assert fills[1..] == rest;
    forall k | 0 <= k < |fills| ensures HasMaker(b, taker, limit, fills[k]) {
      if k == 0 {
        assert FairFill(b, taker, limit, fills[0], i);
      } else {
        assert HasMaker(t, taker, limit, rest[k - 1]);
        var j': nat :| FairFill(t, taker, limit, rest[k - 1], j');
        assert FairFill(b, taker, limit, fills[k], if j' < i then j' else j' + 1);
      }
    }
    FrontInOrder(b, taker, limit, i, fills);
    FrontNoneSkipped(b, taker, limit, i, fills);
    if left > 0 {
      forall j: nat | j < |b| && Eligible(b[j], taker, limit) ensures UsedUp(b, fills, |fills|, j) {
        if j == i {
          assert fills[0] == f;
        } else {
          DownKeepsOrder(b, taker, i, j, j);
          UsedUpLater(b, i, fills, |fills|, j);
        }
      }
    }
  }

  lemma FrontInOrder(b: seq<Order>, taker: Side, limit: int, i: nat, fills: seq<Fill>)
    requires DistinctIds(b) && IsBest(b, taker, limit, i)
    requires |fills| > 0 && fills[0].maker == b[i].id
    requires forall k | 1 <= k < |fills| :: HasMaker(RemoveAt(b, i), taker, limit, fills[k])
    requires InOrder(RemoveAt(b, i), taker, fills[1..])
    ensures InOrder(b, taker, fills)
  {
    forall k: nat, l: nat, x: nat, y: nat | k < l && By(b, fills, k, x) && By(b, fills, l, y)
      ensures Ahead(b, taker, x, y)
    {
      LaterMaker(b, taker, limit, i, fills, l, y);
      if k == 0 {
        assert x == i;
      } else {
        LaterMaker(b, taker, limit, i, fills, k, x);
        DownKeepsOrder(b, taker, i, x, y);
      }
    }
  }

  lemma FrontNoneSkipped(b: seq<Order>, taker: Side, limit: int, i: nat, fills: seq<Fill>)
    requires DistinctIds(b) && IsBest(b, taker, limit, i)
    requires |fills| > 0 && fills[0] == Fill(b[i].id, b[i].price, b[i].qty)
    requires forall k | 1 <= k < |fills| :: HasMaker(RemoveAt(b, i), taker, limit, fills[k])
    requires NoneSkipped(RemoveAt(b, i), taker, limit, fills[1..])
    ensures NoneSkipped(b, taker, limit, fills)
  {
    var t := RemoveAt(b, i);
    forall k: nat, x: nat, y: nat |
      By(b, fills, k, x) && y < |b| && Eligible(b[y], taker, limit) && Ahead(b, taker, y, x)
      ensures UsedUp(b, fills, k, y)
    {
      if k > 0 {
        LaterMaker(b, taker, limit, i, fills, k, x);
        if y == i {
          assert fills[0] == Fill(b[y].id, b[y].price, b[y].qty);
        } else {
          DownKeepsOrder(b, taker, i, y, x);
          assert UsedUp(t, fills[1..], k - 1, Down(i, y));
          UsedUpLater(b, i, fills, k, y);
        }
      }
    }
  }

  /** A single fill that uses up the incoming lots on the best maker. */
  lemma PartialAllocation(b: seq<Order>, taker: Side, limit: int, i: nat, qty: nat)
    requires WellFormed(b) && IsBest(b, taker, limit, i) && 0 < qty < b[i].qty
    ensures Allocation(b, taker, limit, qty, [Fill(b[i].id, b[i].price, qty)], 0)
  {
    var fills := [Fill(b[i].id, b[i].price, qty)];
    assert FairFill(b, taker, limit, fills[0], i);
    assert fills[1..] == [];
  }

  lemma EmptyAllocation(b: seq<Order>, taker: Side, limit: int, qty: nat)
    requires qty == 0 || forall j | 0 <= j < |b| :: !Eligible(b[j], taker, limit)
    ensures Allocation(b, taker, limit, qty, [], qty)
  {}

  /** The matcher's first fill, and what it goes on with. */
  lemma MatchFirst(b: seq<Order>, taker: Side, limit: int, qty: nat)
    ensures var best := BestMaker(b, taker, limit);
            var m := Match(b, taker, limit, qty);
            if qty == 0 || best.None? then m == Outcome([], b, qty)
            else
              var o := b[best.value];
              if o.qty <= qty then
                var t := RemoveAt(b, best.value);
                && Take(b, best.value, o.qty) == t
                && m.fills == [Fill(o.id, o.price, o.qty)] + Match(t, taker, limit, qty - o.qty).fills
                && m.left == Match(t, taker, limit, qty - o.qty).left
              else m.fills == [Fill(o.id, o.price, qty)] && m.left == 0
  {
    var best := BestMaker(b, taker, limit);
    if best.Some? && 0 < qty < b[best.value].qty {
      assert Match(Take(b, best.value, qty), taker, limit, 0).fills == [];
    }
  }

  /** The matcher allocates by price-time priority: best maker price first, oldest first
      within a price, nobody skipped, every fill at the maker's price and inside the limit. */
  lemma {:induction false} MatchAllocates(b: seq<Order>, taker: Side, limit: int, qty: nat)
    requires WellFormed(b)
    ensures var m := Match(b, taker, limit, qty); Allocation(b, taker, limit, qty, m.fills, m.left)
    decreases |b| + qty
  {
    hide Allocation, WellFormed, IsBest, Match, BestMaker, Take;
    var best := BestMaker(b, taker, limit);
    BestMakerIsBest(b, taker, limit);
    MatchFirst(b, taker, limit, qty);
    if qty == 0 || best.None? {
      EmptyAllocation(b, taker, limit, qty);
    } else if b[best.value].qty <= qty {
      var i := best.value;
      var t := RemoveAt(b, i);
      TakeKeeps(b, i, b[i].qty);
      MatchAllocates(t, taker, limit, qty - b[i].qty);
      var rest := Match(t, taker, limit, qty - b[i].qty);
      AllocationInFront(b, taker, limit, qty, i, rest.fills, rest.left);
    } else {
      PartialAllocation(b, taker, limit, best.value, qty);
    }
  }

  // ----- the allocation is unique ----------------------------------------------------

  lemma {:induction false} TradedConcat(a: seq<Fill>, b: seq<Fill>)
    ensures Traded(a + b) == Traded(a) + Traded(b)
  {
    if a == [] {
      assert a + b == b;
    } else {
      assert (a + b)[1..] == a[1..] + b;
      TradedConcat(a[1..], b);
    }
  }

  /** What remains before fill `k` bounds fill `k`. */
  lemma TradedAt(fills: seq<Fill>, k: nat)
    requires k < |fills|
    ensures Traded(fills) == Traded(fills[..k]) + fills[k].qty + Traded(fills[k + 1..])
  {
    hide Traded;
    assert fills == fills[..k] + ([fills[k]] + fills[k + 1..]);
    TradedConcat(fills[..k], [fills[k]] + fills[k + 1..]);
    TradedFront(fills[k], fills[k + 1..]);
  }

  /** No order makes two fills of one allocation. */
  lemma OneFillEach(b: seq<Order>, taker: Side, fills: seq<Fill>, k: nat, l: nat, i: nat)
    requires InOrder(b, taker, fills) && By(b, fills, k, i) && By(b, fills, l, i)
    ensures k == l
  {}

  lemma UsedUpIsFill(b: seq<Order>, taker: Side, fills: seq<Fill>, n: nat, k: nat, i: nat)
    requires InOrder(b, taker, fills) && By(b, fills, k, i) && UsedUp(b, fills, n, i)
    ensures k < n && fills[k].qty == b[i].qty
  {
    var l: nat :| l < n && fills[l] == Fill(b[i].id, b[i].price, b[i].qty);
    OneFillEach(b, taker, fills, k, l, i);
  }

  /** A maker filled only in part ends the allocation, and then no lots are left. */
  lemma PartialIsLast(b: seq<Order>, taker: Side, limit: int, qty: nat, fills: seq<Fill>, left: nat, k: nat, i: nat)
    requires Allocation(b, taker, limit, qty, fills, left)
    requires k < |fills| && FairFill(b, taker, limit, fills[k], i) && fills[k].qty < b[i].qty
    ensures Traded(fills[..k]) + fills[k].qty == qty
  {
    assert By(b, fills, k, i);
    TradedAt(fills, k);
    if k + 1 < |fills| {
      assert HasMaker(b, taker, limit, fills[k + 1]);
      var j: nat :| FairFill(b, taker, limit, fills[k + 1], j);
      assert By(b, fills, k + 1, j);
      assert UsedUp(b, fills, k + 1, i);
      UsedUpIsFill(b, taker, fills, k + 1, k, i);
      assert false;
    } else if left > 0 {
      UsedUpIsFill(b, taker, fills, |fills|, k, i);
      assert false;
    }
    assert fills[k + 1..] == [];
  }

  /** Two allocations that agree on `k` fills agree on the next maker. */
  lemma NextMaker(b: seq<Order>, taker: Side, limit: int, qty: nat,
                  f: seq<Fill>, fl: nat, g: seq<Fill>, gl: nat, k: nat, i: nat, j: nat)
    requires Allocation(b, taker, limit, qty, f, fl) && Allocation(b, taker, limit, qty, g, gl)
    requires k < |f| && k < |g| && f[..k] == g[..k]
    requires FairFill(b, taker, limit, f[k], i) && FairFill(b, taker, limit, g[k], j)
    ensures i == j
  {
    assert By(b, f, k, i) && By(b, g, k, j);
    if i != j {
      if Ahead(b, taker, i, j) {
        assert UsedUp(b, g, k, i);
        var l: nat :| l < k && g[l] == Fill(b[i].id, b[i].price, b[i].qty);
        assert f[l] == f[..k][l] == g[..k][l];
        OneFillEach(b, taker, f, l, k, i);
      } else {
        assert Ahead(b, taker, j, i);
        assert UsedUp(b, f, k, j);
        var l: nat :| l < k && f[l] == Fill(b[j].id, b[j].price, b[j].qty);
        assert g[l] == g[..k][l] == f[..k][l];
        OneFillEach(b, taker, g, l, k, j);
      }
    }
  }

  lemma NextFill(b: seq<Order>, taker: Side, limit: int, qty: nat,
                 f: seq<Fill>, fl: nat, g: seq<Fill>, gl: nat, k: nat)
    requires Allocation(b, taker, limit, qty, f, fl) && Allocation(b, taker, limit, qty, g, gl)
    requires k < |f| && k <= |g| && f[..k] == g[..k]
    ensures k < |g| && f[k] == g[k]
  {
    assert HasMaker(b, taker, limit, f[k]);
    var i: nat :| FairFill(b, taker, limit, f[k], i);
    assert By(b, f, k, i);
    TradedAt(f, k);
    if k == |g| {
      assert g == g[..k];
      assert UsedUp(b, g, |g|, i);
      var l: nat :| l < |g| && g[l] == Fill(b[i].id, b[i].price, b[i].qty);
      assert f[l] == f[..k][l];
      OneFillEach(b, taker, f, l, k, i);
      assert false;
    }
    assert HasMaker(b, taker, limit, g[k]);
    var j: nat :| FairFill(b, taker, limit, g[k], j);
    TradedAt(g, k);
    NextMaker(b, taker, limit, qty, f, fl, g, gl, k, i, j);
    if f[k].qty < b[i].qty { PartialIsLast(b, taker, limit, qty, f, fl, k, i); }
    if g[k].qty < b[i].qty { PartialIsLast(b, taker, limit, qty, g, gl, k, i); }
  }

  /** Price-time priority leaves no choice: the fills of any allocation are the matcher's. */
  lemma {:induction false} AllocationUnique(b: seq<Order>, taker: Side, limit: int, qty: nat,
                                            f: seq<Fill>, fl: nat, g: seq<Fill>, gl: nat)
    requires Allocation(b, taker, limit, qty, f, fl) && Allocation(b, taker, limit, qty, g, gl)
    ensures f == g && fl == gl
  {
    var k := 0;
    while k < |f|
      invariant k <= |f| && k <= |g| && f[..k] == g[..k]
    {
      NextFill(b, taker, limit, qty, f, fl, g, gl, k);
      assert f[..k + 1] == f[..k] + [f[k]] && g[..k + 1] == g[..k] + [g[k]];
      k := k + 1;
    }
    assert f[..k] == f;
    if k < |g| {
      NextFill(b, taker, limit, qty, g, gl, f, fl, k);
    }
    assert g[..k] == g;
  }

  /** In every admissible run each message that enters an order allocates it by price-time
      priority against the book it met. */
  lemma RunAllocates(b: seq<Order>, msgs: seq<Msg>, n: nat)
    requires WellFormed(b) && Uncrossed(b) && AdmissibleRun(b, msgs) && n < |msgs|
    ensures var met := Run(b, msgs[..n]).book;
            match Run(b, msgs[..n + 1]).events[n]
            case Accepted(o, _, fills, left, _) => Allocation(met, o.side, o.price, o.qty, fills, left)
            case Modified(gone, o, _, fills, left) =>
              exists at: nat | at < |met| ::
                met[at] == gone && gone.id == o.id && Allocation(RemoveAt(met, at), o.side, o.price, o.qty, fills, left)
            case _ => true
  {
    hide Allocation, WellFormed, Uncrossed, Match, Find;
    var met := Run(b, msgs[..n]).book;
    RunKeeps(b, msgs, n);
    RunPrefix(b, msgs, n);
    match msgs[n]
    case New(id, _, price, qty, side, ioc) =>
      MatchAllocates(met, side, price, qty);
    case Cancel(_, _) =>
    case Modify(id, _, price, qty, side) =>
      var at := Find(met, id);
      if at.Some? {
        RemovedKeeps(met, at.value);
        MatchAllocates(RemoveAt(met, at.value), side, price, qty);
      }
  }

  // ----- cancel and reinsert ------------------------------------------------------------

  /** Resting the residual of an immediate-or-cancel order and cancelling it by id leaves
      the book as if it had never rested. */
  lemma IocUndone(b: seq<Order>, o: Order)
    requires WellFormed(b) && !Resting(b, o.id)
    ensures var e := Enter(b, o, false);
            && e.fills == Enter(b, o, true).fills && e.left == Enter(b, o, true).left
            && if e.left == 0 then e.book == Enter(b, o, true).book
            else Find(e.book, o.id) == Some(|e.book| - 1) && RemoveAt(e.book, |e.book| - 1) == Enter(b, o, true).book
  {}

  lemma EnterFilled(b: seq<Order>, o: Order, ioc: bool)
    ensures var e := Enter(b, o, ioc); Traded(e.fills) + e.left == o.qty
  {
    MatchConserves(b, o.side, o.price, o.qty);
  }

  lemma TradedNext(fills: seq<Fill>, k: nat)
    requires k < |fills|
    ensures Traded(fills[..k + 1]) == Traded(fills[..k]) + fills[k].qty
    ensures Traded(fills[..0]) == 0
  {
    assert fills[..k + 1] == fills[..k] + [fills[k]];
    TradedConcat(fills[..k], [fills[k]]);
    assert [fills[k]][1..] == [];
  }
}
