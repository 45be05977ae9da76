/** The report stream of api/matching_engine_api.h, and the freedom adapters take in wording
    one event as reports. */
module Reports {
  import opened Basics
  import opened Contract

  const ORDER_ACK: nat := 0
  const TRADE: nat := 1
  const CANCEL_ACK: nat := 2
  const MODIFY_ACK: nat := 3
  const CANCEL_REJECT: nat := 4
  const MODIFY_REJECT: nat := 5

  const INT64_MIN: int := -0x8000_0000_0000_0000
  const INT64_MAX: int := 0x7FFF_FFFF_FFFF_FFFF

  datatype Report = Report(kind: nat, seqno: nat, side: nat, orderId: nat, price: int, qty: nat, maker: nat, taker: nat)

  function Ack(kind: nat, seqno: nat, orderId: nat, side: nat, price: int, qty: nat): Report {
    Report(kind, seqno, side, orderId, price, qty, 0, 0)
  }

  /** How an adapter words an event: which side and order id it puts on its trades, whether
      a modify is acknowledged before its trades, and whether a cancel ack carries the
      cancelled quantity. */
  datatype Wording = Wording(sideOnTrades: bool, makerIdOnTrades: bool, modifyAckFirst: bool, qtyOnCancelAck: bool)

  const TECHIEBOY: Wording := Wording(true, false, true, true)
  const LIQUIBOOK: Wording := Wording(false, false, false, false)
  const KAUTENJA: Wording := Wording(false, true, true, true)

  function TradeReport(w: Wording, seqno: nat, taker: Order, f: Fill): Report {
    Report(TRADE, seqno, if w.sideOnTrades then taker.side.Code() else 0,
           if w.makerIdOnTrades then f.maker else 0, f.price, f.qty, f.maker, taker.id)
  }

  function Trades(w: Wording, seqno: nat, taker: Order, fills: seq<Fill>): seq<Report> {
    if fills == [] then []
    else Trades(w, seqno, taker, fills[..|fills| - 1]) + [TradeReport(w, seqno, taker, fills[|fills| - 1])]
  }

  lemma TradesNext(w: Wording, seqno: nat, taker: Order, fills: seq<Fill>, k: nat)
    requires k < |fills|
    ensures Trades(w, seqno, taker, fills[..k + 1])
         == Trades(w, seqno, taker, fills[..k]) + [TradeReport(w, seqno, taker, fills[k])]
    ensures fills[..|fills|] == fills && Trades(w, seqno, taker, fills[..0]) == []
  {
    assert fills[..k + 1][..k] == fills[..k];
  }

  /** The reports of one event. */
  function Worded(w: Wording, e: Event): seq<Report> {
    match e
    case Accepted(o, s, fills, left, ioc) =>
      [Ack(ORDER_ACK, s, o.id, o.side.Code(), o.price, o.qty)]
      + Trades(w, s, o, fills)
      + (if ioc && left > 0 then [Ack(CANCEL_ACK, s, o.id, o.side.Code(), o.price, left)] else [])
    case Cancelled(gone, s) =>
      [Ack(CANCEL_ACK, s, gone.id, gone.side.Code(), gone.price, if w.qtyOnCancelAck then gone.qty else 0)]
    case Modified(_, o, s, fills, _) =>
      var ack := [Ack(MODIFY_ACK, s, o.id, o.side.Code(), o.price, o.qty)];
      if w.modifyAckFirst then ack + Trades(w, s, o, fills) else Trades(w, s, o, fills) + ack
    case CancelRejected(id, s) => [Ack(CANCEL_REJECT, s, id, 0, 0, 0)]
    case ModifyRejected(id, s) => [Ack(MODIFY_REJECT, s, id, 0, 0, 0)]
  }

  /** The whole stream of a run. */
  function Stream(w: Wording, events: seq<Event>): seq<Report> {
    if events == [] then []
    else Stream(w, events[..|events| - 1]) + Worded(w, events[|events| - 1])
  }

  lemma StreamNext(w: Wording, b: seq<Order>, msgs: seq<Msg>, k: nat)
    requires k < |msgs|
    ensures msgs[..k + 1][..k] == msgs[..k]
    ensures Run(b, msgs[..k + 1]).book == Step(Run(b, msgs[..k]).book, msgs[k]).book
    ensures Stream(w, Run(b, msgs[..k + 1]).events)
         == Stream(w, Run(b, msgs[..k]).events) + Worded(w, Step(Run(b, msgs[..k]).book, msgs[k]).event)
  {}

  lemma EmptyStream(w: Wording, msgs: seq<Msg>)
    ensures Run([], msgs[..0]).book == [] && Stream(w, Run([], msgs[..0]).events) == []
  {}

  // ----- what the reports carry, field by field ------------------------------------------

  /** An ack of one order: side 0 is a buy and 1 a sell. */
  ghost predicate AckCarries(r: Report, kind: nat, seqno: nat, id: nat, side: Side, price: int, qty: nat) {
    && r.kind == kind && r.seqno == seqno && r.orderId == id && r.price == price && r.qty == qty
    && r.side == (if side == Buy then 0 else 1) && r.maker == 0 && r.taker == 0
  }

  ghost predicate RejectCarries(r: Report, kind: nat, seqno: nat, id: nat) {
    r == Report(kind, seqno, 0, id, 0, 0, 0, 0)
  }

  /** One trade per fill, in order: the maker, its price and the lots, and the taker. */
  ghost predicate TradesCarry(w: Wording, rs: seq<Report>, seqno: nat, side: Side, taker: nat, fills: seq<Fill>) {
    && |rs| == |fills|
    && forall k | 0 <= k < |rs| ::
         && rs[k].kind == 1 && rs[k].seqno == seqno && rs[k].taker == taker
         && rs[k].maker == fills[k].maker && rs[k].price == fills[k].price && rs[k].qty == fills[k].qty
         && rs[k].side == (if w.sideOnTrades && side == Sell then 1 else 0)
         && rs[k].orderId == (if w.makerIdOnTrades then fills[k].maker else 0)
  }

  /** What a message that meets the book `b` is answered with. A new order: its ack, its trades, and
      a cancel ack of the residual if it is immediate-or-cancel. A cancel or a modify: a reject
      unless its order rests; a cancel ack with the resting order's fields; a modify ack with the
      message's fields, before or behind the trades. */
  ghost predicate Reported(w: Wording, b: seq<Order>, m: Msg, rs: seq<Report>) {
    var at := Find(b, m.id);
    match m
    case New(id, s, price, qty, side, ioc) =>
      var e := Enter(b, Order(id, side, price, qty), ioc);
      var tail := if ioc && e.left > 0 then 1 else 0;
      && |rs| == 1 + |e.fills| + tail
      && AckCarries(rs[0], 0, s, id, side, price, qty)
      && TradesCarry(w, rs[1..1 + |e.fills|], s, side, id, e.fills)
      && (tail == 1 ==> AckCarries(rs[|rs| - 1], 2, s, id, side, price, e.left))
    case Cancel(id, s) =>
      && |rs| == 1
      && (if at.None? then RejectCarries(rs[0], 4, s, id)
          else
            var o := b[at.value];
            AckCarries(rs[0], 2, s, id, o.side, o.price, if w.qtyOnCancelAck then o.qty else 0))
    case Modify(id, s, price, qty, side) =>
      if at.None? then |rs| == 1 && RejectCarries(rs[0], 5, s, id)
      else
        var fills := Enter(RemoveAt(b, at.value), Order(id, side, price, qty), false).fills;
        && |rs| == 1 + |fills|
        && AckCarries(rs[if w.modifyAckFirst then 0 else |fills|], 3, s, id, side, price, qty)
        && TradesCarry(w, if w.modifyAckFirst then rs[1..] else rs[..|fills|], s, side, id, fills)
  }

  lemma {:induction false} TradesAre(w: Wording, seqno: nat, taker: Order, fills: seq<Fill>)
    ensures TradesCarry(w, Trades(w, seqno, taker, fills), seqno, taker.side, taker.id, fills)
  {
    if fills != [] {
      TradesAre(w, seqno, taker, fills[..|fills| - 1]);
    }
  }

  /** Every wording answers every message so. */
  lemma MessageReported(w: Wording, b: seq<Order>, m: Msg)
    ensures Reported(w, b, m, Worded(w, Step(b, m).event))
  {
    hide Enter, Find, Trades, TradesCarry;
    var at, rs := Find(b, m.id), Worded(w, Step(b, m).event);
    if m.New? {
      var o := Order(m.id, m.side, m.price, m.qty);
      var trades := Trades(w, m.seqno, o, Enter(b, o, m.ioc).fills);
      TradesAre(w, m.seqno, o, Enter(b, o, m.ioc).fills);
      TradeCount(w, m.seqno, o, Enter(b, o, m.ioc).fills);
      assert rs[1..1 + |trades|] == trades;
    } else if m.Modify? && at.Some? {
      var o := Order(m.id, m.side, m.price, m.qty);
      var fills := Enter(RemoveAt(b, at.value), o, false).fills;
      var trades := Trades(w, m.seqno, o, fills);
      TradesAre(w, m.seqno, o, fills);
      TradeCount(w, m.seqno, o, fills);
      assert (if w.modifyAckFirst then rs[1..] else rs[..|fills|]) == trades;
    }
  }

  lemma {:induction false} TradeCount(w: Wording, seqno: nat, taker: Order, fills: seq<Fill>)
    ensures |Trades(w, seqno, taker, fills)| == |fills|
  {
    if fills != [] {
      TradeCount(w, seqno, taker, fills[..|fills| - 1]);
    }
  }

  /** The stream of a run is its messages' answers, one behind the other. */
  lemma {:induction false} StreamReported(w: Wording, msgs: seq<Msg>, k: nat)
    requires k < |msgs|
    ensures var all := Stream(w, Run([], msgs).events);
            var from, till := |Stream(w, Run([], msgs[..k]).events)|, |Stream(w, Run([], msgs[..k + 1]).events)|;
            && from <= till <= |all| && Reported(w, Run([], msgs[..k]).book, msgs[k], all[from..till])
            && Stream(w, Run([], msgs[..k]).events) == all[..from]
  {
    hide Step, Run, Worded, Reported, Stream;
    var n := |msgs| - 1;
    StreamNext(w, [], msgs, n);
    assert msgs[..n + 1] == msgs;
    if k < n {
      StreamReported(w, msgs[..n], k);
      assert msgs[..n][..k] == msgs[..k] && msgs[..n][..k + 1] == msgs[..k + 1];
      var all, before := Stream(w, Run([], msgs).events), Stream(w, Run([], msgs[..n]).events);
      var from, till := |Stream(w, Run([], msgs[..k]).events)|, |Stream(w, Run([], msgs[..k + 1]).events)|;
      assert all[from..till] == before[from..till];
    } else {
      var before, own := Stream(w, Run([], msgs[..k]).events), Worded(w, Step(Run([], msgs[..k]).book, msgs[k]).event);
      assert (before + own)[|before|..|before + own|] == own;
      MessageReported(w, Run([], msgs[..k]).book, msgs[k]);
    }
  }

  // ----- the answers the contract asks of the queries ---------------------------------

  function BestBidAnswer(b: seq<Order>): int {
    var p := BestPrice(b, Buy);
    if p.Some? then p.value else INT64_MIN
  }

  function BestAskAnswer(b: seq<Order>): int {
    var p := BestPrice(b, Sell);
    if p.Some? then p.value else INT64_MAX
  }
}
