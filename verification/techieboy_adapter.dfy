/** The TechieBoy handlers above the patched book: they word the contract's events as reports. */
module TechieBoyAdapter {
  import opened Basics
  import opened Contract
  import opened MatchingLaws
  import opened PriceLevels
  import opened Reports
  import opened TechieBoyBook

  /** Negative ticks are clamped to 0 before they reach the engine. */
  function Clamp(price: int): nat {
    if price < 0 then 0 else price
  }

  /** The message as the engine sees it. */
  function Clamped(m: Msg): Msg {
    if m.Cancel? then m else m.(price := Clamp(m.price))
  }

  /** The event with the message's own price, which the acks repeat unclamped. */
  function Echoed(e: Event, m: Msg): Event {
    if m.Cancel? then e
    else
      match e
      case Accepted(o, s, fills, left, ioc) => Accepted(o.(price := m.price), s, fills, left, ioc)
      case Modified(gone, o, s, fills, left) => Modified(gone, o.(price := m.price), s, fills, left)
      case _ => e
  }

  /** What an entering message of any price does: it trades and rests at its price, or at 0 when that
      is negative, and its acks repeat the price unclamped. */
  lemma ClampedReported(b: seq<Order>, m: Msg)
    requires !m.Cancel?
    ensures var price := if m.price < 0 then 0 else m.price;
            var s := Step(b, Clamped(m));
            var rs := Worded(TECHIEBOY, Echoed(s.event, m));
            var at := Find(b, m.id);
            if m.Modify? && at.None? then s.book == b && |rs| == 1 && RejectCarries(rs[0], 5, m.seqno, m.id)
            else
              var before := if m.New? then b else RemoveAt(b, at.value);
              var e := Enter(before, Order(m.id, m.side, price, m.qty), m.New? && m.ioc);
              var tail := if m.New? && m.ioc && e.left > 0 then 1 else 0;
              && s.book == e.book && |rs| == 1 + |e.fills| + tail
              && AckCarries(rs[0], if m.New? then 0 else 3, m.seqno, m.id, m.side, m.price, m.qty)
              && TradesCarry(TECHIEBOY, rs[1..1 + |e.fills|], m.seqno, m.side, m.id, e.fills)
              && (tail == 1 ==> AckCarries(rs[|rs| - 1], 2, m.seqno, m.id, m.side, m.price, e.left))
  {
    hide Enter, Find, Trades, TradesCarry;
    var at := Find(b, m.id);
    if m.New? || at.Some? {
      var before := if m.New? then b else RemoveAt(b, at.value);
      var fills := Enter(before, Order(m.id, m.side, Clamp(m.price), m.qty), m.New? && m.ioc).fills;
      var o := Order(m.id, m.side, m.price, m.qty);
      TradesAre(TECHIEBOY, m.seqno, o, fills);
      TradeCount(TECHIEBOY, m.seqno, o, fills);
      var rs := Worded(TECHIEBOY, Echoed(Step(b, Clamped(m)).event, m));
      assert rs[1..1 + |fills|] == Trades(TECHIEBOY, m.seqno, o, fills);
    }
  }

  /** On messages without negative prices clamping and echoing change nothing. */
  lemma NothingToClamp(b: seq<Order>, m: Msg)
    requires m.Cancel? || m.price >= 0
    ensures Clamped(m) == m && Echoed(Step(b, m).event, m) == Step(b, m).event
  {}

  /** The wording of trades does not look at the taker's limit. */
  lemma {:induction false} TradesIgnorePrice(seqno: nat, taker: Order, price: int, fills: seq<Fill>)
    ensures Trades(TECHIEBOY, seqno, taker.(price := price), fills) == Trades(TECHIEBOY, seqno, taker, fills)
  {
    if fills != [] {
      TradesIgnorePrice(seqno, taker, price, fills[..|fills| - 1]);
    }
  }

  class Adapter {
    const book: OrderBook
    var reports: seq<Report>

    ghost predicate Valid()
      reads this, book
    {
      book.Valid()
    }

    constructor ()
      ensures Valid() && fresh(book) && book.flat == [] && reports == []
    {
      book := new OrderBook();
      reports := [];
    }

    method EmitTrades(seqno: nat, taker: Order, fills: seq<Fill>)
      modifies this`reports
      ensures reports == old(reports) + Trades(TECHIEBOY, seqno, taker, fills)
    {
      var k := 0;
      while k < |fills|
        invariant k <= |fills|
        invariant reports == old(reports) + Trades(TECHIEBOY, seqno, taker, fills[..k])
      {
        TradesNext(TECHIEBOY, seqno, taker, fills, k);
        var f := fills[k];
        reports := reports + [Report(TRADE, seqno, taker.side.Code(), 0, f.price, f.qty, f.maker, taker.id)];
        k := k + 1;
      }
      assert fills[..k] == fills;
    }

    method OnNewOrder(m: Msg)
      requires Valid() && m.New? && Admissible(book.flat, m)
      modifies this, book
      ensures Valid()
      ensures var s := Step(old(book.flat), Clamped(m));
              book.flat == s.book && reports == old(reports) + Worded(TECHIEBOY, Echoed(s.event, m))
    {
      hide Match, Enter, Find, Trades, BestPrice, Holds, Indexed;
      reports := reports + [Ack(ORDER_ACK, m.seqno, m.id, m.side.Code(), m.price, m.qty)];
      var price := Clamp(m.price);
      TradesIgnorePrice(m.seqno, Order(m.id, m.side, price, m.qty), m.price,
                        Match(book.flat, m.side, price, m.qty).fills);
      IocUndone(book.flat, Order(m.id, m.side, price, m.qty));
      var fr := book.AddLimitOrder(m.side, price, m.qty, m.id);
      EmitTrades(m.seqno, Order(m.id, m.side, m.price, m.qty), fr.makerFills);
      if m.ioc {
        if fr.remainingQty > 0 {
          var _ := book.CancelOrder(m.id);
          reports := reports + [Ack(CANCEL_ACK, m.seqno, m.id, m.side.Code(), m.price, fr.remainingQty)];
        }
      }
    }

    method OnCancel(m: Msg)
      requires Valid() && m.Cancel?
      modifies this, book
      ensures Valid()
      ensures var s := Step(old(book.flat), Clamped(m));
              book.flat == s.book && reports == old(reports) + Worded(TECHIEBOY, Echoed(s.event, m))
    {
      hide Find, BestPrice, Holds, Indexed, WellFormed;
      var r := book.CancelOrder(m.id);
      match r
      case Some(o) =>
        reports := reports + [Ack(CANCEL_ACK, m.seqno, m.id, o.side.Code(), o.price, o.qty)];
      case None =>
        reports := reports + [Ack(CANCEL_REJECT, m.seqno, m.id, 0, 0, 0)];
    }

    method OnModify(m: Msg)
      requires Valid() && m.Modify? && Admissible(book.flat, m)
      modifies this, book
      ensures Valid()
      ensures var s := Step(old(book.flat), Clamped(m));
              book.flat == s.book && reports == old(reports) + Worded(TECHIEBOY, Echoed(s.event, m))
    {
      hide Match, Enter, Find, Trades, BestPrice, Holds, Indexed;
      ghost var at := Find(book.flat, m.id);
      if at.Some? {
        RemovedKeeps(book.flat, at.value);
      }
      var r := book.CancelOrder(m.id);
      match r
      case Some(_) =>
        reports := reports + [Ack(MODIFY_ACK, m.seqno, m.id, m.side.Code(), m.price, m.qty)];
        var price := Clamp(m.price);
        TradesIgnorePrice(m.seqno, Order(m.id, m.side, price, m.qty), m.price,
                          Match(book.flat, m.side, price, m.qty).fills);
        var fr := book.AddLimitOrder(m.side, price, m.qty, m.id);
        EmitTrades(m.seqno, Order(m.id, m.side, m.price, m.qty), fr.makerFills);
      case None =>
        reports := reports + [Ack(MODIFY_REJECT, m.seqno, m.id, 0, 0, 0)];
    }

    /** The empty-side sentinel 0 makes a best bid at price 0 read as "no bids": the answer
        is the contract's exactly when the best bid is not 0. */
    method QueryBestBid() returns (r: int)
      requires Valid()
      ensures r == if BestPrice(book.flat, Buy) == Some(0) then INT64_MIN else BestBidAnswer(book.flat)
      ensures r == BestBidAnswer(book.flat) <==> BestPrice(book.flat, Buy) != Some(0)
    {
      var b := book.BestBidRaw();
      r := if b == 0 then INT64_MIN else b;
    }

    /** The ask sentinel lies outside the tick range, so every best ask is answered. */
    method QueryBestAsk() returns (r: int)
      requires Valid()
      ensures r == if BestPrice(book.flat, Sell) == Some(U64_MAX) then INT64_MAX else BestAskAnswer(book.flat)
      ensures r == BestAskAnswer(book.flat) <==> BestPrice(book.flat, Sell) != Some(U64_MAX)
    {
      var a := book.BestAskRaw();
      r := if a == U64_MAX then INT64_MAX else a;
    }

    method QueryDepthAt(price: int, side: Side) returns (total: nat)
      requires Valid()
      ensures total == Depth(book.flat, side, price)
    {
      hide Queue, Depth, BestPrice, Indexed, WellFormed;
      if price < 0 {
        DepthIsQueueSum(book.flat, side, price);
        assert LevelAt(HalfOf(book.bidBook, book.askBook, side), price) == Queue(book.flat, side, price);
        return 0;
      }
      total := book.DepthAt(price, side);
    }

    method OnMessage(m: Msg)
      requires Valid() && Admissible(book.flat, m)
      modifies this, book
      ensures Valid()
      ensures var s := Step(old(book.flat), Clamped(m));
              book.flat == s.book && reports == old(reports) + Worded(TECHIEBOY, Echoed(s.event, m))
    {
      match m
      case New(_, _, _, _, _, _) => OnNewOrder(m);
      case Cancel(_, _) => OnCancel(m);
      case Modify(_, _, _, _, _) => OnModify(m);
    }

    /** Delivers a workload of any prices, one message at a time: the invariant holds, the book is
        the contract's of the clamped messages, and the stream is the contract's events for them,
        with the messages' own prices in the acks, in TechieBoy's wording. */
    method Deliver(msgs: seq<Msg>)
      requires Valid() && book.flat == [] && reports == []
      requires AdmissibleRun([], ClampedAll(msgs))
      modifies this, book
      ensures Valid() && book.flat == Run([], ClampedAll(msgs)).book
      ensures reports == Stream(TECHIEBOY, EchoedEvents(msgs))
    {
      hide Step, Worded, Stream, Run, Admissible, OrderBook.Valid, Clamped, Echoed, EchoedEvents, ClampedAll;
      var k := 0;
      NothingEchoed(msgs);
      while k < |msgs|
        invariant k <= |msgs|
        invariant Valid() && book.flat == Run([], ClampedAll(msgs[..k])).book
        invariant reports == Stream(TECHIEBOY, EchoedEvents(msgs[..k]))
      {
        EchoedNext(msgs, k);
        ClampedAdmissible(msgs, k);
        OnMessage(msgs[k]);
        k := k + 1;
      }
      assert msgs[..k] == msgs;
    }
  }

  // ----- whole runs -----------------------------------------------------------------------------------------

  /** The messages as the engine sees them. */
  function ClampedAll(msgs: seq<Msg>): (r: seq<Msg>)
    ensures |r| == |msgs|
  {
    seq(|msgs|, i requires 0 <= i < |msgs| => Clamped(msgs[i]))
  }

  /** The contract's events for the clamped messages, with each message's own price. */
  function EchoedEvents(msgs: seq<Msg>): (r: seq<Event>)
    ensures |r| == |msgs|
  {
    var events := Run([], ClampedAll(msgs)).events;
    seq(|msgs|, i requires 0 <= i < |msgs| => Echoed(events[i], msgs[i]))
  }

  lemma NothingEchoed(msgs: seq<Msg>)
    ensures Run([], ClampedAll(msgs[..0])).book == [] && Stream(TECHIEBOY, EchoedEvents(msgs[..0])) == []
  {}

  lemma ClampedPrefix(msgs: seq<Msg>, k: nat)
    requires k <= |msgs|
    ensures ClampedAll(msgs)[..k] == ClampedAll(msgs[..k])
  {}

  lemma ClampedAdmissible(msgs: seq<Msg>, k: nat)
    requires k < |msgs| && AdmissibleRun([], ClampedAll(msgs))
    ensures Admissible(Run([], ClampedAll(msgs[..k])).book, msgs[k])
  {
    hide Run, Resting;
    ClampedPrefix(msgs, k);
    assert Admissible(Run([], ClampedAll(msgs)[..k]).book, ClampedAll(msgs)[k]);
  }

  lemma EchoedNext(msgs: seq<Msg>, k: nat)
    requires k < |msgs|
    ensures var s := Step(Run([], ClampedAll(msgs[..k])).book, Clamped(msgs[k]));
            && Run([], ClampedAll(msgs[..k + 1])).book == s.book
            && Stream(TECHIEBOY, EchoedEvents(msgs[..k + 1]))
            == Stream(TECHIEBOY, EchoedEvents(msgs[..k])) + Worded(TECHIEBOY, Echoed(s.event, msgs[k]))
  {
    hide Step, Worded, Run, Echoed, Clamped;
    var all := ClampedAll(msgs[..k + 1]);
    ClampedPrefix(msgs, k);
    ClampedPrefix(msgs, k + 1);
    assert all[..k + 1] == all && all[..k] == ClampedAll(msgs[..k]);
    RunPrefix([], all, k);
    var e := EchoedEvents(msgs[..k + 1]);
    assert e[..k] == EchoedEvents(msgs[..k]);
    assert e[k] == Echoed(Run([], all).events[k], msgs[k]);
  }

  /** Without negative prices those are the contract's own book and events. */
  lemma EchoedIsRun(msgs: seq<Msg>)
    requires forall k | 0 <= k < |msgs| :: msgs[k].Cancel? || msgs[k].price >= 0
    ensures ClampedAll(msgs) == msgs && EchoedEvents(msgs) == Run([], msgs).events
  {
    hide Step, Run, Echoed, Clamped;
    forall k | 0 <= k < |msgs| ensures ClampedAll(msgs)[k] == msgs[k] {
      NothingToClamp([], msgs[k]);
    }
    assert ClampedAll(msgs) == msgs;
    forall k | 0 <= k < |msgs| ensures EchoedEvents(msgs)[k] == Run([], msgs).events[k] {
      RunEventAt([], msgs, k);
      NothingToClamp(Run([], msgs[..k]).book, msgs[k]);
    }
  }
}
