/** Types shared by every module. */
module Basics {
  const TWO_32: nat := 0x1_0000_0000
  const TWO_64: nat := 0x1_0000_0000_0000_0000

  datatype Option<+T> = None | Some(value: T)

  function Min(a: nat, b: nat): nat {
    if a <= b then a else b
  }

  /** `s` without the element at index `i`. */
  function RemoveAt<T>(s: seq<T>, i: nat): seq<T>
    requires i < |s|
  {
    s[..i] + s[i + 1..]
  }
}

/** The matching-engine contract, stated over one flat list of resting orders kept in
    arrival order: an incoming order trades with the best-priced crossing maker, and among
    equal prices with the oldest one. */
module Contract {
  import opened Basics

  datatype Side = Buy | Sell {
    function Opposite(): Side {
      if Buy? then Sell else Buy
    }

    /** The wire encoding of a side: 0 = buy, 1 = sell. */
    function Code(): nat {
      if Buy? then 0 else 1
    }
  }

  datatype Order = Order(id: nat, side: Side, price: int, qty: nat)
  datatype Fill = Fill(maker: nat, price: int, qty: nat)

  datatype Msg =
    | New(id: nat, seqno: nat, price: int, qty: nat, side: Side, ioc: bool)
    | Cancel(id: nat, seqno: nat)
    | Modify(id: nat, seqno: nat, price: int, qty: nat, side: Side)

  /** What the contract says happened, before any engine words it as reports. */
  datatype Event =
    | Accepted(o: Order, seqno: nat, fills: seq<Fill>, left: nat, ioc: bool)
    | Cancelled(gone: Order, seqno: nat)
    | Modified(gone: Order, o: Order, seqno: nat, fills: seq<Fill>, left: nat)
    | CancelRejected(id: nat, seqno: nat)
    | ModifyRejected(id: nat, seqno: nat)

  datatype Outcome = Outcome(fills: seq<Fill>, book: seq<Order>, left: nat)
  datatype Stepped = Stepped(book: seq<Order>, event: Event)
  datatype RunResult = RunResult(book: seq<Order>, events: seq<Event>)

  predicate Crosses(taker: Side, limit: int, price: int) {
    if taker.Buy? then price <= limit else price >= limit
  }

  /** `p` is a strictly better maker price than `q` for an order on side `taker`. */
  predicate Better(taker: Side, p: int, q: int) {
    if taker.Buy? then p < q else p > q
  }

  predicate Matchable(o: Order, taker: Side, limit: int) {
    o.side == taker.Opposite() && Crosses(taker, limit, o.price)
  }

  /** What the limit means: a buy trades with sells at its limit or below, a sell with buys at its
      limit or above. */
  ghost predicate Eligible(o: Order, taker: Side, limit: int) {
    match taker
    case Buy => o.side == Sell && o.price <= limit
    case Sell => o.side == Buy && o.price >= limit
  }

  /** Price-time priority: the order at `i` is served before the order at `j`. */
  ghost predicate Ahead(b: seq<Order>, taker: Side, i: nat, j: nat)
    requires i < |b| && j < |b|
  {
    || (b[i].price == b[j].price && i < j)
    || match taker
       case Buy => b[i].price < b[j].price
       case Sell => b[i].price > b[j].price
  }

  ghost predicate IsBest(b: seq<Order>, taker: Side, limit: int, i: nat) {
    && i < |b|
    && Eligible(b[i], taker, limit)
    && forall j | 0 <= j < |b| && j != i && Eligible(b[j], taker, limit) :: Ahead(b, taker, i, j)
  }

  /** The maker an incoming order trades with next. */
  function BestMaker(b: seq<Order>, taker: Side, limit: int): (r: Option<nat>)
    ensures r.Some? ==> r.value < |b| && Eligible(b[r.value], taker, limit)
  {
    if b == [] then None
    else
      var n := |b| - 1;
      var before := BestMaker(b[..n], taker, limit);
      if !Matchable(b[n], taker, limit) then before
      else if before.None? then Some(n)
      else if Better(taker, b[n].price, b[before.value].price) then Some(n)
      else before
  }

  /** The scan finds the best crossing maker, and finds one whenever there is one. */
  lemma {:induction false} BestMakerIsBest(b: seq<Order>, taker: Side, limit: int)
    ensures var r := BestMaker(b, taker, limit);
            && (r.None? ==> forall j | 0 <= j < |b| :: !Eligible(b[j], taker, limit))
            && (r.Some? ==> IsBest(b, taker, limit, r.value))
  {
    if b != [] {
      BestMakerIsBest(b[..|b| - 1], taker, limit);
    }
  }

  /** The book after `q` lots of the order at `i` have traded. */
  function Take(b: seq<Order>, i: nat, q: nat): seq<Order>
    requires i < |b| && q <= b[i].qty
  {
    if q == b[i].qty then RemoveAt(b, i) else b[i := b[i].(qty := b[i].qty - q)]
  }

  /** Trades `qty` lots arriving on side `taker` at `limit` against the book. */
  function Match(b: seq<Order>, taker: Side, limit: int, qty: nat): Outcome
    decreases |b| + qty
  {
    var best := BestMaker(b, taker, limit);
    if qty == 0 || best.None? then Outcome([], b, qty)
    else
      var i := best.value;
      var q := Min(b[i].qty, qty);
      var rest := Match(Take(b, i, q), taker, limit, qty - q);
      Outcome([Fill(b[i].id, b[i].price, q)] + rest.fills, rest.book, rest.left)
  }

  /** Matches an order and rests what is left of it, unless it is immediate-or-cancel. */
  function Enter(b: seq<Order>, o: Order, ioc: bool): Outcome {
    var m := Match(b, o.side, o.price, o.qty);
    if m.left > 0 && !ioc then m.(book := m.book + [o.(qty := m.left)]) else m
  }

  function Find(b: seq<Order>, id: nat): (r: Option<nat>)
    ensures r.None? ==> forall j | 0 <= j < |b| :: b[j].id != id
    ensures r.Some? ==> r.value < |b| && b[r.value].id == id
  {
    if b == [] then None
    else if b[|b| - 1].id == id then Some(|b| - 1)
    else Find(b[..|b| - 1], id)
  }

  /** One message. */
  function Step(b: seq<Order>, m: Msg): Stepped {
    match m
    case New(id, s, price, qty, side, ioc) =>
      var o := Order(id, side, price, qty);
      var e := Enter(b, o, ioc);
      Stepped(e.book, Accepted(o, s, e.fills, e.left, ioc))
    case Cancel(id, s) =>
      var at := Find(b, id);
      if at.None? then Stepped(b, CancelRejected(id, s))
      else Stepped(RemoveAt(b, at.value), Cancelled(b[at.value], s))
    case Modify(id, s, price, qty, side) =>
      var at := Find(b, id);
      if at.None? then Stepped(b, ModifyRejected(id, s))
      else
        var o := Order(id, side, price, qty);
        var e := Enter(RemoveAt(b, at.value), o, false);
        Stepped(e.book, Modified(b[at.value], o, s, e.fills, e.left))
  }

  /** A whole message sequence from a given book. */
  function Run(b: seq<Order>, msgs: seq<Msg>): (r: RunResult)
    ensures |r.events| == |msgs|
  {
    if msgs == [] then RunResult(b, [])
    else
      var before := Run(b, msgs[..|msgs| - 1]);
      var s := Step(before.book, msgs[|msgs| - 1]);
      RunResult(s.book, before.events + [s.event])
  }

  // ----- queries ---------------------------------------------------------------

  function BestPrice(b: seq<Order>, side: Side): (r: Option<int>)
    ensures r.None? <==> forall j | 0 <= j < |b| :: b[j].side != side
    ensures r.Some? ==> exists j | 0 <= j < |b| :: b[j].side == side && b[j].price == r.value
    ensures r.Some? ==> forall j | 0 <= j < |b| && b[j].side == side ::
                          if side == Buy then b[j].price <= r.value else b[j].price >= r.value
  {
    if b == [] then None
    else
      var last := b[|b| - 1];
      var before := BestPrice(b[..|b| - 1], side);
      if last.side != side then before
      else if before.None? || Better(side.Opposite(), last.price, before.value) then Some(last.price)
      else before
  }

  function Depth(b: seq<Order>, side: Side, price: int): nat {
    if b == [] then 0
    else
      var last := b[|b| - 1];
      Depth(b[..|b| - 1], side, price) + (if last.side == side && last.price == price then last.qty else 0)
  }

  // ----- invariants of the flat book --------------------------------------------

  ghost predicate DistinctIds(b: seq<Order>) {
    forall i, j | 0 <= i < j < |b| :: b[i].id != b[j].id
  }

  ghost predicate AllLive(b: seq<Order>) {
    forall i | 0 <= i < |b| :: b[i].qty > 0
  }

  ghost predicate Uncrossed(b: seq<Order>) {
    forall i, j | 0 <= i < |b| && 0 <= j < |b| && b[i].side == Buy && b[j].side == Sell ::
      b[i].price < b[j].price
  }

  ghost predicate WellFormed(b: seq<Order>) {
    DistinctIds(b) && AllLive(b)
  }

  ghost predicate Resting(b: seq<Order>, id: nat) {
    exists i | 0 <= i < |b| :: b[i].id == id
  }

  /** What the engines demand of a message: a new order's id is not resting at the moment,
      and quantities are positive. */
  ghost predicate Admissible(b: seq<Order>, m: Msg) {
    match m
    case New(id, _, _, qty, _, _) => !Resting(b, id) && qty > 0
    case Cancel(_, _) => true
    case Modify(_, _, _, qty, _) => qty > 0
  }

  /** Every message of the run is admissible at the moment it is delivered. */
  ghost predicate AdmissibleRun(b: seq<Order>, msgs: seq<Msg>) {
    forall k | 0 <= k < |msgs| :: Admissible(Run(b, msgs[..k]).book, msgs[k])
  }
}
