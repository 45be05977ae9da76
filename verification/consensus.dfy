/** Engines that word the contract's events differently agree on the canonical text. */
module Consensus {
  import opened Basics
  import opened Contract
  import opened Reports
  import opened Canonical

  lemma {:induction false} TradesRendering(w: Wording, v: Wording, s: nat, taker: Order, fills: seq<Fill>)
    ensures Views(Trades(w, s, taker, fills)) == Views(Trades(v, s, taker, fills))
    ensures forall i | 0 <= i < |Trades(w, s, taker, fills)| :: Trades(w, s, taker, fills)[i].kind == TRADE
  {
    if fills != [] {
      var n := |fills| - 1;
      TradesRendering(w, v, s, taker, fills[..n]);
      ViewsOne(Trades(w, s, taker, fills[..n]), TradeReport(w, s, taker, fills[n]));
      ViewsOne(Trades(v, s, taker, fills[..n]), TradeReport(v, s, taker, fills[n]));
    }
  }

  lemma SameViewsSameRendering(a: seq<Report>, b: seq<Report>)
    requires Views(a) == Views(b)
    ensures SameRendering(a, b)
  {
    hide Pick, Views;
    forall s: nat, t: nat | t <= MODIFY_REJECT ensures Views(Pick(a, s, t)) == Views(Pick(b, s, t)) {
      PickViews(a, s, t);
      PickViews(b, s, t);
    }
  }

  lemma SameRenderingConcat(a: seq<Report>, a': seq<Report>, b: seq<Report>, b': seq<Report>)
    requires SameRendering(a, b) && SameRendering(a', b')
    ensures SameRendering(a + a', b + b')
  {
    hide Pick, Views;
    forall s: nat, t: nat | t <= MODIFY_REJECT ensures Views(Pick(a + a', s, t)) == Views(Pick(b + b', s, t)) {
      PickConcat(a, a', s, t);
      PickConcat(b, b', s, t);
      ViewsConcat(Pick(a, s, t), Pick(a', s, t));
      ViewsConcat(Pick(b, s, t), Pick(b', s, t));
    }
  }

  /** Streams without a common (sequence number, kind) may be emitted in either order. */
  lemma SwapRendering(a: seq<Report>, b: seq<Report>, ka: nat, kb: nat)
    requires ka != kb
    requires forall i | 0 <= i < |a| :: a[i].kind == ka
    requires forall i | 0 <= i < |b| :: b[i].kind == kb
    ensures SameRendering(a + b, b + a)
  {
    hide Pick, Views;
    forall s: nat, t: nat | t <= MODIFY_REJECT ensures Views(Pick(a + b, s, t)) == Views(Pick(b + a, s, t)) {
      PickConcat(a, b, s, t);
      PickConcat(b, a, s, t);
      PickMembers(a, s, t);
      PickMembers(b, s, t);
      if t == ka {
        assert Pick(a, s, t) + [] == [] + Pick(a, s, t);
      } else {
        assert Pick(b, s, t) + [] == [] + Pick(b, s, t);
      }
    }
  }

  lemma SameRenderingTransitive(a: seq<Report>, b: seq<Report>, c: seq<Report>)
    requires SameRendering(a, b) && SameRendering(b, c)
    ensures SameRendering(a, c)
  {}

  lemma EventRendering(w: Wording, v: Wording, e: Event)
    ensures SameRendering(Worded(w, e), Worded(v, e))
  {
    hide Pick, Views, Trades, SameRendering;
    match e
    case Accepted(o, s, fills, left, ioc) =>
      TradesRendering(w, v, s, o, fills);
      var ack := [Ack(ORDER_ACK, s, o.id, o.side.Code(), o.price, o.qty)];
      var tail := if ioc && left > 0 then [Ack(CANCEL_ACK, s, o.id, o.side.Code(), o.price, left)] else [];
      ViewsConcat(ack + Trades(w, s, o, fills), tail);
      ViewsConcat(ack, Trades(w, s, o, fills));
      ViewsConcat(ack + Trades(v, s, o, fills), tail);
      ViewsConcat(ack, Trades(v, s, o, fills));
      SameViewsSameRendering(Worded(w, e), Worded(v, e));
    case Modified(_, o, s, fills, _) =>
      ModifiedRendering(w, v, e);
    case _ =>
      OneViewSame(Worded(w, e)[0], Worded(v, e)[0]);
  }

  lemma OneViewSame(a: Report, b: Report)
    requires Known(a) && Known(b) && View(a) == View(b)
    ensures SameRendering([a], [b])
  {
    assert [a] == [] + [a] && [b] == [] + [b];
    ViewsOne([], a);
    ViewsOne([], b);
    SameViewsSameRendering([a], [b]);
  }

  lemma ModifiedRendering(w: Wording, v: Wording, e: Event)
    requires e.Modified?
    ensures SameRendering(Worded(w, e), Worded(v, e))
  {
    hide Pick, Views, Trades, SameRendering;
    var ack := [Ack(MODIFY_ACK, e.seqno, e.o.id, e.o.side.Code(), e.o.price, e.o.qty)];
    var tw, tv := Trades(w, e.seqno, e.o, e.fills), Trades(v, e.seqno, e.o, e.fills);
    TradesRendering(w, v, e.seqno, e.o, e.fills);
    TradesRendering(v, w, e.seqno, e.o, e.fills);
    SameViewsSameRendering(tw, tv);
    SameViewsSameRendering(ack, ack);
    SwapRendering(ack, tv, MODIFY_ACK, TRADE);
    SwapRendering(tv, ack, TRADE, MODIFY_ACK);
    SameRenderingConcat(ack, tw, ack, tv);
    SameRenderingConcat(tw, ack, tv, ack);
    if w.modifyAckFirst && !v.modifyAckFirst {
      SameRenderingTransitive(ack + tw, ack + tv, tv + ack);
    } else if !w.modifyAckFirst && v.modifyAckFirst {
      SameRenderingTransitive(tw + ack, tv + ack, ack + tv);
    }
  }

  lemma {:induction false} StreamRendering(w: Wording, v: Wording, events: seq<Event>)
    ensures SameRendering(Stream(w, events), Stream(v, events))
  {
    if events != [] {
      hide Pick, Views, Worded, SameRendering;
      var n := |events| - 1;
      StreamRendering(w, v, events[..n]);
      EventRendering(w, v, events[n]);
      SameRenderingConcat(Stream(w, events[..n]), Worded(w, events[n]), Stream(v, events[..n]), Worded(v, events[n]));
    }
  }

  /** Consensus: whatever the wording, one run has one canonical text. */
  lemma OneCanonicalText(w: Wording, v: Wording, events: seq<Event>)
    ensures CanonicalText(Stream(w, events)) == CanonicalText(Stream(v, events))
  {
    hide CanonicalText, SameRendering;
    StreamRendering(w, v, events);
    NormalForm(Stream(w, events), Stream(v, events));
  }

  /** The raw streams do differ: a crossing modify is acknowledged first by one adapter and
      last by the other. */
  lemma RawStreamsDiffer()
    ensures var e := Modified(Order(2, Buy, 99, 10), Order(2, Buy, 100, 10), 2, [Fill(1, 100, 10)], 0);
            && Worded(TECHIEBOY, e) != Worded(LIQUIBOOK, e)
            && CanonicalText(Worded(TECHIEBOY, e)) == CanonicalText(Worded(LIQUIBOOK, e))
  {
    hide CanonicalText, SameRendering;
    var e := Modified(Order(2, Buy, 99, 10), Order(2, Buy, 100, 10), 2, [Fill(1, 100, 10)], 0);
    EventRendering(TECHIEBOY, LIQUIBOOK, e);
    NormalForm(Worded(TECHIEBOY, e), Worded(LIQUIBOOK, e));
    assert Worded(TECHIEBOY, e)[0].kind == MODIFY_ACK;
    TradesNext(LIQUIBOOK, 2, Order(2, Buy, 100, 10), [Fill(1, 100, 10)], 0);
    assert Worded(LIQUIBOOK, e)[0].kind == TRADE;
  }

  // ----- reports of wire messages fit the wire -------------------------------------------

  ghost predicate WireOrder(o: Order) {
    o.id < TWO_64 && INT64_MIN <= o.price <= INT64_MAX && o.qty < TWO_32
  }

  ghost predicate WireMsg(m: Msg) {
    && m.id < TWO_64 && m.seqno < TWO_64
    && (m.Cancel? || (INT64_MIN <= m.price <= INT64_MAX && m.qty < TWO_32))
  }

  ghost predicate WireBook(b: seq<Order>) {
    forall i | 0 <= i < |b| :: WireOrder(b[i])
  }

  ghost predicate WireFills(fills: seq<Fill>) {
    forall i | 0 <= i < |fills| :: WireOrder(Order(fills[i].maker, Buy, fills[i].price, fills[i].qty))
  }

  ghost predicate WireEvent(e: Event) {
    match e
    case Accepted(o, s, fills, left, _) => WireOrder(o) && s < TWO_64 && WireFills(fills) && left < TWO_32
    case Cancelled(gone, s) => WireOrder(gone) && s < TWO_64
    case Modified(_, o, s, fills, _) => WireOrder(o) && s < TWO_64 && WireFills(fills)
    case CancelRejected(id, s) => id < TWO_64 && s < TWO_64
    case ModifyRejected(id, s) => id < TWO_64 && s < TWO_64
  }

  ghost predicate AllRanged(rs: seq<Report>) {
    forall i | 0 <= i < |rs| :: Ranged(rs[i])
  }

  lemma {:induction false} MatchWire(b: seq<Order>, taker: Side, limit: int, qty: nat)
    requires WireBook(b)
    ensures var m := Match(b, taker, limit, qty); WireBook(m.book) && WireFills(m.fills) && m.left <= qty
    decreases |b| + qty
  {
    var best := BestMaker(b, taker, limit);
    if qty > 0 && best.Some? {
      var i := best.value;
      assert WireOrder(b[i]);
      MatchWire(Take(b, i, Min(b[i].qty, qty)), taker, limit, qty - Min(b[i].qty, qty));
    }
  }

  lemma StepWire(b: seq<Order>, m: Msg)
    requires WireBook(b) && WireMsg(m)
    ensures WireBook(Step(b, m).book) && WireEvent(Step(b, m).event)
  {
    hide Match, Find;
    match m
    case New(id, _, price, qty, side, ioc) =>
      MatchWire(b, side, price, qty);
    case Cancel(id, _) =>
    case Modify(id, _, price, qty, side) =>
      var at := Find(b, id);
      if at.Some? {
        MatchWire(RemoveAt(b, at.value), side, price, qty);
      }
  }

  lemma {:induction false} TradesRanged(w: Wording, s: nat, taker: Order, fills: seq<Fill>)
    requires s < TWO_64 && WireOrder(taker) && WireFills(fills)
    ensures AllRanged(Trades(w, s, taker, fills))
  {
    if fills != [] {
      TradesRanged(w, s, taker, fills[..|fills| - 1]);
    }
  }

  lemma WordedRanged(w: Wording, e: Event)
    requires WireEvent(e)
    ensures AllRanged(Worded(w, e))
  {
    hide Trades;
    match e
    case Accepted(o, s, fills, left, ioc) => TradesRanged(w, s, o, fills);
    case Modified(_, o, s, fills, _) => TradesRanged(w, s, o, fills);
    case _ =>
  }

  /** Messages within the wire widths produce reports within the wire widths. */
  lemma {:induction false} StreamRanged(w: Wording, msgs: seq<Msg>)
    requires forall k | 0 <= k < |msgs| :: WireMsg(msgs[k])
    ensures AllRanged(Stream(w, Run([], msgs).events)) && WireBook(Run([], msgs).book)
  {
    hide Step, Worded;
    if msgs != [] {
      var n := |msgs| - 1;
      StreamRanged(w, msgs[..n]);
      StreamNext(w, [], msgs, n);
      assert msgs[..n + 1] == msgs;
      StepWire(Run([], msgs[..n]).book, msgs[n]);
      WordedRanged(w, Step(Run([], msgs[..n]).book, msgs[n]).event);
    }
  }
}
