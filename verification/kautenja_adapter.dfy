/** The Kautenja adapter: prices at an offset into the engine's unsigned price space, a
    liveness shadow fed by the per-fill hook, and queries answered by the engine's own book. */
module KautenjaAdapter {
  import opened Basics
  import opened Contract
  import opened MatchingLaws
  import opened Reports
  import opened Shadow
  import opened EngineImages

  const PX_OFF: int := 0x4000_0000
  const INITIAL_SLOTS: nat := 0x40_0000

  // ----- the price offset ---------------------------------------------------------------------------

  const TWO_63: int := 0x8000_0000_0000_0000

  /** Engine prices are unsigned 64-bit; 0 marks a market order. */
  function ToEngine(ticks: int): nat {
    (ticks + PX_OFF) % TWO_64
  }

  /** Back through a signed 64-bit number. */
  function FromEngine(p: int): int {
    (if p < TWO_63 then p else p - TWO_64) - PX_OFF
  }

  /** Ticks that the offset neither carries past 64 bits nor maps to the market-order price. */
  predicate Takes(ticks: int) {
    INT64_MIN <= ticks <= INT64_MAX - PX_OFF && ticks != -PX_OFF
  }

  /** Of those, the ones above the negated offset. */
  predicate PriceFits(ticks: int) {
    -PX_OFF < ticks <= INT64_MAX - PX_OFF
  }

  /** The engine's price, less the offset. */
  function Seen(ticks: int): int {
    ToEngine(ticks) - PX_OFF
  }

  function Unseen(p: int): int {
    FromEngine(p + PX_OFF)
  }

  /** Every price comes back as itself, and is a limit price unless it is the negated offset; the
      engine sees it at its own place exactly when it is not below the negated offset. */
  lemma OffsetExact(ticks: int)
    requires INT64_MIN <= ticks <= INT64_MAX - PX_OFF
    ensures FromEngine(ToEngine(ticks)) == ticks == Unseen(Seen(ticks))
    ensures ToEngine(ticks) == 0 <==> ticks == -PX_OFF
    ensures Seen(ticks) == ticks <==> ticks >= -PX_OFF
  {}

  /** The mapping keeps a comparison exactly when both prices lie on the same side of the negated
      offset. */
  lemma OffsetKeepsOrder(p: int, q: int)
    requires INT64_MIN <= p <= INT64_MAX - PX_OFF && INT64_MIN <= q <= INT64_MAX - PX_OFF
    ensures (ToEngine(p) < ToEngine(q) <==> p < q) <==> (p < -PX_OFF <==> q < -PX_OFF)
  {}

  // ----- the shadow ------------------------------------------------------------------------------------

  datatype Slot = Slot(price: int, remaining: nat, side: Side, alive: bool)

  const DEAD: Slot := Slot(0, 0, Buy, false)

  predicate AliveAt(slots: seq<Slot>, id: nat) {
    id < |slots| && slots[id].alive
  }

  function View(slots: seq<Slot>): map<nat, Rest> {
    map id: nat | 0 <= id < |slots| && AliveAt(slots, id) :: Rest(slots[id].side, slots[id].price, slots[id].remaining)
  }

  function FillSlot(s: Slot, qty: nat): Slot {
    var rem := if s.remaining >= qty then s.remaining - qty else 0;
    s.(remaining := rem, alive := s.alive && rem != 0)
  }

  lemma FillSlotView(slots: seq<Slot>, f: Fill)
    requires f.maker in View(slots)
    ensures View(slots[f.maker := FillSlot(slots[f.maker], f.qty)]) == ApplyFill(View(slots), f)
  {}

  lemma SlotView(slots: seq<Slot>, id: nat)
    ensures id in View(slots) <==> AliveAt(slots, id)
    ensures id in View(slots) ==> View(slots)[id] == Rest(slots[id].side, slots[id].price, slots[id].remaining)
    ensures id < |slots| ==> View(slots[id := slots[id].(alive := false, remaining := 0)]) == View(slots) - {id}
  {}

  lemma SlotWritten(slots: seq<Slot>, id: nat, r: Rest)
    requires id < |slots|
    ensures View(slots[id := Slot(r.price, r.qty, r.side, true)]) == View(slots)[id := r]
  {}

  lemma Grown(slots: seq<Slot>, n: nat)
    ensures View(slots + seq(n, _ => DEAD)) == View(slots)
  {}

  // ----- the book in harness ticks ---------------------------------------------------------------------

  function Same(): nat -> nat {
    (id: nat) => id
  }

  function InTicks(engine: seq<Order>): (b: seq<Order>)
    ensures |b| == |engine|
  {
    Image(engine, Same(), -PX_OFF)
  }

  lemma {:induction false} FindInTicks(engine: seq<Order>, id: nat)
    ensures Find(InTicks(engine), id) == Find(engine, id)
  {
    if engine != [] {
      var n := |engine| - 1;
      FindInTicks(engine[..n], id);
      assert InTicks(engine)[..n] == InTicks(engine[..n]);
    }
  }

  lemma {:induction false} BestInTicks(engine: seq<Order>, side: Side)
    ensures BestPrice(InTicks(engine), side)
         == match BestPrice(engine, side) case None => None case Some(p) => Some(p - PX_OFF)
  {
    hide BestPrice, InTicks;
    InTicksLast(engine);
    if engine != [] {
      var n := |engine| - 1;
      BestInTicks(engine[..n], side);
      BestPriceNext(engine, side);
      BestPriceNext(InTicks(engine), side);
    } else {
      NoBestPrice(side);
    }
  }

  lemma InTicksLast(engine: seq<Order>)
    ensures engine == [] ==> InTicks(engine) == []
    ensures engine != [] ==>
              var n := |engine| - 1;
              && InTicks(engine)[..n] == InTicks(engine[..n])
              && InTicks(engine)[n] == engine[n].(price := engine[n].price - PX_OFF)
  {}

  lemma NoBestPrice(side: Side)
    ensures BestPrice([], side) == None
  {}

  lemma BestPriceNext(b: seq<Order>, side: Side)
    requires b != []
    ensures var last := b[|b| - 1];
            var before := BestPrice(b[..|b| - 1], side);
            BestPrice(b, side) == if last.side != side then before
                                  else if before.None? || Better(side.Opposite(), last.price, before.value)
                                  then Some(last.price) else before
  {}

  lemma {:induction false} DepthInTicks(engine: seq<Order>, side: Side, price: int)
    ensures Depth(InTicks(engine), side, price) == Depth(engine, side, price + PX_OFF)
  {
    if engine != [] {
      var n := |engine| - 1;
      DepthInTicks(engine[..n], side, price);
      assert InTicks(engine)[..n] == InTicks(engine[..n]);
    }
  }

  // ----- which side a modify takes -----------------------------------------------------------------------

  /** The message as the adapter applies it: a modify takes the resting order's side. */
  function Resided(b: seq<Order>, m: Msg): Msg {
    match m
    case Modify(id, s, price, qty, _) =>
      var at := Find(b, id);
      if at.Some? then Modify(id, s, price, qty, b[at.value].side) else m
    case _ => m
  }

  /** The side shows in the ack: the adapter's reports are the contract's if and only if the
      modify carried the resting order's side. */
  lemma SideIsEchoed(b: seq<Order>, m: Msg)
    ensures Worded(KAUTENJA, Step(b, Resided(b, m)).event) == Worded(KAUTENJA, Step(b, m).event) <==> Resided(b, m) == m
  {
    hide Enter, Trades;
    if m.Modify? && Find(b, m.id).Some? {
      var x := Worded(KAUTENJA, Step(b, Resided(b, m)).event);
      var y := Worded(KAUTENJA, Step(b, m).event);
      assert x[0].side == b[Find(b, m.id).value].side.Code() && y[0].side == m.side.Code();
    }
  }

  // ----- what the adapter does ---------------------------------------------------------------------------

  /** The message at the price the engine sees. */
  function AtEngine(m: Msg): Msg {
    match m
    case New(id, s, price, qty, side, ioc) => New(id, s, Seen(price), qty, side, ioc)
    case Modify(id, s, price, qty, side) => Modify(id, s, Seen(price), qty, side)
    case Cancel(_, _) => m
  }

  function UnseenOrder(o: Order): Order {
    o.(price := Unseen(o.price))
  }

  function UnseenFills(fills: seq<Fill>): (r: seq<Fill>)
    ensures |r| == |fills|
  {
    seq(|fills|, i requires 0 <= i < |fills| => fills[i].(price := Unseen(fills[i].price)))
  }

  /** The event with its prices back in ticks. */
  function UnseenEvent(e: Event): Event {
    match e
    case Accepted(o, s, fills, left, ioc) => Accepted(UnseenOrder(o), s, UnseenFills(fills), left, ioc)
    case Cancelled(gone, s) => Cancelled(UnseenOrder(gone), s)
    case Modified(gone, o, s, fills, left) => Modified(UnseenOrder(gone), UnseenOrder(o), s, UnseenFills(fills), left)
    case _ => e
  }

  /** One message: the contract's step at the engine's prices and on the resting order's side. */
  function Applied(b: seq<Order>, m: Msg): Stepped {
    var s := Step(b, AtEngine(Resided(b, m)));
    Stepped(s.book, UnseenEvent(s.event))
  }

  function AppliedRun(msgs: seq<Msg>): (r: RunResult)
    ensures |r.events| == |msgs|
  {
    if msgs == [] then RunResult([], [])
    else
      var before := AppliedRun(msgs[..|msgs| - 1]);
      var s := Applied(before.book, msgs[|msgs| - 1]);
      RunResult(s.book, before.events + [s.event])
  }

  lemma AppliedNext(msgs: seq<Msg>, k: nat)
    requires k < |msgs|
    ensures var s := Applied(AppliedRun(msgs[..k]).book, msgs[k]);
            && AppliedRun(msgs[..k + 1]).book == s.book
            && AppliedRun(msgs[..k + 1]).events == AppliedRun(msgs[..k]).events + [s.event]
            && Stream(KAUTENJA, AppliedRun(msgs[..k + 1]).events)
            == Stream(KAUTENJA, AppliedRun(msgs[..k]).events) + Worded(KAUTENJA, s.event)
  {
    assert msgs[..k + 1][..k] == msgs[..k];
    var e := AppliedRun(msgs[..k + 1]).events;
    assert e[..|e| - 1] == AppliedRun(msgs[..k]).events;
  }

  lemma FittingFills(fills: seq<Fill>)
    requires FillsPriced(fills, PriceFits)
    ensures UnseenFills(fills) == fills
  {}

  /** At fitting prices, and on the resting order's side, that is the contract's step. */
  lemma AppliedIsStep(b: seq<Order>, m: Msg)
    requires AllPriced(b, PriceFits) && (m.Cancel? || PriceFits(m.price)) && Resided(b, m) == m
    ensures Applied(b, m) == Step(b, m) && AllPriced(Step(b, m).book, PriceFits)
  {
    hide Match, Find, UnseenFills;
    var at := Find(b, m.id);
    match m
    case New(_, _, price, qty, side, ioc) =>
      MatchPriced(b, side, price, qty, PriceFits);
      FittingFills(Match(b, side, price, qty).fills);
    case Cancel(_, _) =>
    case Modify(_, _, price, qty, side) =>
      if at.Some? {
        MatchPriced(RemoveAt(b, at.value), side, price, qty, PriceFits);
        FittingFills(Match(RemoveAt(b, at.value), side, price, qty).fills);
      }
  }

  /** So runs of fitting prices, with modifies on the resting side, are the contract's. */
  lemma {:induction false} AppliedRunIsRun(msgs: seq<Msg>, n: nat)
    requires forall k | 0 <= k < |msgs| :: msgs[k].Cancel? || PriceFits(msgs[k].price)
    requires forall k | 0 <= k < |msgs| :: Resided(Run([], msgs[..k]).book, msgs[k]) == msgs[k]
    requires n <= |msgs|
    ensures AppliedRun(msgs[..n]) == Run([], msgs[..n]) && AllPriced(Run([], msgs[..n]).book, PriceFits)
  {
    hide Applied, Step, Resided, AllPriced, PriceFits;
    if n == 0 {
      NothingApplied(msgs);
    } else {
      AppliedRunIsRun(msgs, n - 1);
      AppliedNext(msgs, n - 1);
      RunPrefix([], msgs, n - 1);
      AppliedIsStep(Run([], msgs[..n - 1]).book, msgs[n - 1]);
    }
  }

  lemma NothingApplied(msgs: seq<Msg>)
    ensures AppliedRun(msgs[..0]) == Run([], msgs[..0]) == RunResult([], []) && AllPriced([], PriceFits)
    ensures Stream(KAUTENJA, []) == []
  {}

  /** The shadow in step with the book at engine prices: it keeps ticks. */
  ghost predicate InStep(b: seq<Order>, slots: seq<Slot>) {
    WellFormed(b) && View(slots) == Repriced(Records(b), Unseen)
  }

  class Adapter {
    /** The engine's book, in engine prices. */
    var engine: seq<Order>
    var slots: seq<Slot>
    var curSeq: nat
    var takerId: nat
    var takerFill: nat
    var reports: seq<Report>

    ghost function Flat(): seq<Order>
      reads this
    {
      InTicks(engine)
    }

    ghost predicate Valid()
      reads this
    {
      InStep(Flat(), slots)
    }

    constructor ()
      ensures Valid() && Flat() == [] && reports == []
    {
      engine, reports, curSeq, takerId, takerFill := [], [], 0, 0, 0;
      slots := seq(INITIAL_SLOTS, _ => DEAD);
      new;
      assert View(slots) == map[];
      assert Repriced(map[], Unseen) == map[];
    }

    /** The slot of an id; the table grows when it has none yet. */
    method ShadowSlot(id: nat)
      modifies this`slots
      ensures id < |slots| && View(slots) == View(old(slots))
      ensures |slots| >= old(|slots|) && slots[..old(|slots|)] == old(slots)
    {
      if id >= |slots| {
        Grown(slots, id + 1 - |slots|);
        slots := slots + seq(id + 1 - |slots|, _ => DEAD);
      }
    }

    /** The per-fill hook: one Trade at the maker's price in ticks, and the maker's slot loses
        the filled lots. */
    method TradeHook(maker: nat, makerPrice: int, qty: nat)
      requires maker in View(slots)
      modifies this`reports, this`slots, this`takerFill
      ensures reports == old(reports) + [Report(TRADE, curSeq, 0, maker, FromEngine(makerPrice), qty, maker, takerId)]
      ensures takerFill == old(takerFill) + qty
      ensures View(slots) == ApplyFill(View(old(slots)), Fill(maker, makerPrice, qty))
    {
      reports := reports + [Report(TRADE, curSeq, 0, maker, FromEngine(makerPrice), qty, maker, takerId)];
      takerFill := takerFill + qty;
      ShadowSlot(maker);
      SlotView(slots, maker);
      FillSlotView(slots, Fill(maker, makerPrice, qty));
      var s := slots[maker];
      var rem := if s.remaining >= qty then s.remaining - qty else 0;
      slots := slots[maker := s.(remaining := rem, alive := if rem == 0 then false else s.alive)];
    }

    /** The engine's limit(): it matches, calling the hook once per fill in match order, and
        rests what is left. Price 0 would make it a market order. */
    method Limit(side: Side, uid: nat, qty: nat, price: nat)
      requires Valid() && qty > 0 && price > 0 && takerId == uid && takerFill == 0 && !Resting(Flat(), uid)
      modifies this`engine, this`reports, this`slots, this`takerFill
      ensures var o := Order(uid, side, price - PX_OFF, qty);
              var m := Match(old(Flat()), o.side, o.price, o.qty);
              && Flat() == Enter(old(Flat()), o, false).book
              && View(slots) == Repriced(Records(m.book), Unseen) && takerFill == Traded(m.fills)
              && reports == old(reports) + Trades(KAUTENJA, curSeq, o, UnseenFills(m.fills))
    {
      hide Lockstep, Match, Traded, Trades, View, FillsImage, UnseenFills, Image, Resting, Repriced, Records,
        WellFormed, FromEngine;
      ghost var o := Order(uid, side, price - PX_OFF, qty);
      ghost var m := Match(Flat(), side, o.price, qty);
      var e := Match(engine, side, price, qty);
      MatchImage(engine, side, price, qty, Same(), -PX_OFF);
      ShadowAfter(Flat(), slots, side, o.price, qty);
      ghost var shown := UnseenFills(m.fills);
      ghost var target := ApplyFills(View(slots), m.fills);
      assert m.fills[0..] == m.fills;
      NoneYet(curSeq, o, shown, m.fills);
      var k := 0;
      while k < |e.fills|
        invariant k <= |e.fills| == |m.fills| == |shown| && engine == old(engine)
        invariant Alive(View(slots), m.fills[k..]) && ApplyFills(View(slots), m.fills[k..]) == target
        invariant takerFill == Traded(m.fills[..k])
        invariant reports == old(reports) + Trades(KAUTENJA, curSeq, o, shown[..k])
      {
        var f := e.fills[k];
        TickFill(e.fills, m.fills, k);
        assert m.fills[k..][0] == m.fills[k] && m.fills[k..][1..] == m.fills[k + 1..];
        TradesNext(KAUTENJA, curSeq, o, shown, k);
        TradedNext(m.fills, k);
        PriceBlind(View(slots), m.fills[k], f.price);
        TradeHook(f.maker, f.price, f.qty);
        k := k + 1;
      }
      assert m.fills[..k] == m.fills && m.fills[k..] == [] && shown[..k] == shown;
      ImageAppend(e.book, Order(uid, side, price, e.left), Same(), -PX_OFF);
      engine := if e.left > 0 then e.book + [Order(uid, side, price, e.left)] else e.book;
    }

    /** The engine's cancel(). */
    method CancelNative(uid: nat)
      requires Find(engine, uid).Some?
      modifies this`engine
      ensures var at := Find(old(Flat()), uid); at.Some? && Flat() == RemoveAt(old(Flat()), at.value)
    {
      FindInTicks(engine, uid);
      var at := Find(engine, uid).value;
      ImageRemove(engine, at, Same(), -PX_OFF);
      engine := RemoveAt(engine, at);
    }

    method OnNewOrder(m: Msg)
      requires Valid() && m.New? && Admissible(Flat(), m) && Takes(m.price)
      modifies this
      ensures Valid()
      ensures var s := Applied(old(Flat()), m);
              Flat() == s.book && reports == old(reports) + Worded(KAUTENJA, s.event)
    {
      hide Match, Enter, Traded, Trades, View, InTicks, Find, WellFormed, Resting, ToEngine, FromEngine, Repriced,
        Records, UnseenFills;
      ghost var b, o := Flat(), Order(m.id, m.side, Seen(m.price), m.qty);
      reports := reports + [Ack(ORDER_ACK, m.seqno, m.id, m.side.Code(), m.price, m.qty)];
      curSeq, takerId, takerFill := m.seqno, m.id, 0;
      OffsetExact(m.price);
      TradesIgnorePrice(m.seqno, o, m.price, UnseenFills(Match(b, o.side, o.price, o.qty).fills));
      Limit(m.side, m.id, m.qty, ToEngine(m.price));
      MatchSettles(b, o);
      var residual := if takerFill < m.qty then m.qty - takerFill else 0;
      if m.ioc {
        if residual > 0 {
          FindInTicks(engine, m.id);
          var has := Find(engine, m.id).Some?;
          if has {
            CancelNative(m.id);
          }
          reports := reports + [Ack(CANCEL_ACK, m.seqno, m.id, m.side.Code(), m.price, residual)];
        }
        return;
      }
      if residual > 0 {
        ShadowSlot(m.id);
        SlotWritten(slots, m.id, Rest(m.side, m.price, residual));
        RepricedPut(Records(Match(b, o.side, o.price, o.qty).book), m.id, Rest(m.side, o.price, residual), Unseen);
        slots := slots[m.id := Slot(m.price, residual, m.side, true)];
      }
    }

    method OnCancel(m: Msg)
      requires Valid() && m.Cancel?
      modifies this
      ensures Valid()
      ensures var s := Applied(old(Flat()), m);
              Flat() == s.book && reports == old(reports) + Worded(KAUTENJA, s.event)
    {
      hide View, InTicks, Find, Unseen, Repriced, Records, WellFormed;
      AliveIsResting(Flat(), slots, m.id);
      if m.id < |slots| && slots[m.id].alive {
        var s := slots[m.id];
        FindInTicks(engine, m.id);
        CancelNative(m.id);
        reports := reports + [Ack(CANCEL_ACK, m.seqno, m.id, s.side.Code(), s.price, s.remaining)];
        slots := slots[m.id := s.(alive := false, remaining := 0)];
      } else {
        reports := reports + [Ack(CANCEL_REJECT, m.seqno, m.id, 0, 0, 0)];
      }
    }

    /** A modify is applied on the side the shadow remembers. */
    method OnModify(m: Msg)
      requires Valid() && m.Modify? && Admissible(Flat(), m) && Takes(m.price)
      modifies this
      ensures Valid()
      ensures var s := Applied(old(Flat()), m);
              Flat() == s.book && reports == old(reports) + Worded(KAUTENJA, s.event)
    {
      hide Applied, Worded, Match, Enter, Traded, Trades, View, InTicks, Find, WellFormed, Resting, ToEngine,
        FromEngine, Repriced, Records, UnseenFills;
      ModifyApplied(Flat(), m);
      AliveIsResting(Flat(), slots, m.id);
      if !(m.id < |slots| && slots[m.id].alive) {
        reports := reports + [Ack(MODIFY_REJECT, m.seqno, m.id, 0, 0, 0)];
        return;
      }
      var side := slots[m.id].side;
      FindInTicks(engine, m.id);
      CancelNative(m.id);
      slots := slots[m.id := slots[m.id].(alive := false, remaining := 0)];
      reports := reports + [Ack(MODIFY_ACK, m.seqno, m.id, side.Code(), m.price, m.qty)];
      ghost var b, o := Flat(), Order(m.id, side, Seen(m.price), m.qty);
      curSeq, takerId, takerFill := m.seqno, m.id, 0;
      OffsetExact(m.price);
      TradesIgnorePrice(m.seqno, o, m.price, UnseenFills(Match(b, o.side, o.price, o.qty).fills));
      Limit(side, m.id, m.qty, ToEngine(m.price));
      MatchSettles(b, o);
      var residual := if takerFill < m.qty then m.qty - takerFill else 0;
      ShadowSlot(m.id);
      if residual > 0 {
        SlotWritten(slots, m.id, Rest(side, m.price, residual));
        RepricedPut(Records(Match(b, o.side, o.price, o.qty).book), m.id, Rest(side, o.price, residual), Unseen);
        slots := slots[m.id := Slot(m.price, residual, side, true)];
      } else {
        NotInShadow(Match(b, o.side, o.price, o.qty).book, slots, m.id);
        SlotView(slots, m.id);
        slots := slots[m.id := slots[m.id].(alive := false, remaining := 0)];
      }
    }

    // ----- queries ----------------------------------------------------------------------------------------

    /** The contract's best bid, in ticks, wherever the resting prices fit. */
    method QueryBestBid() returns (r: int)
      ensures r == match BestPrice(Flat(), Buy) case None => INT64_MIN case Some(p) => Unseen(p)
      ensures AllPriced(Flat(), PriceFits) ==> r == BestBidAnswer(Flat())
    {
      BestInTicks(engine, Buy);
      var p := BestPrice(engine, Buy);
      r := if p.None? then INT64_MIN else FromEngine(p.value);
    }

    method QueryBestAsk() returns (r: int)
      ensures r == match BestPrice(Flat(), Sell) case None => INT64_MAX case Some(p) => Unseen(p)
      ensures AllPriced(Flat(), PriceFits) ==> r == BestAskAnswer(Flat())
    {
      BestInTicks(engine, Sell);
      var p := BestPrice(engine, Sell);
      r := if p.None? then INT64_MAX else FromEngine(p.value);
    }

    method QueryDepthAt(price: int, side: Side) returns (total: nat)
      requires INT64_MIN <= price <= INT64_MAX - PX_OFF
      ensures total == Depth(Flat(), side, Seen(price))
    {
      DepthInTicks(engine, side, Seen(price));
      total := Depth(engine, side, ToEngine(price));
    }

    /** A whole run of messages whose prices the offset takes: what the adapter does, message by
        message. */
    method Deliver(msgs: seq<Msg>)
      requires Valid() && Flat() == [] && reports == []
      requires forall k | 0 <= k < |msgs| :: Admissible(AppliedRun(msgs[..k]).book, msgs[k])
      requires forall k | 0 <= k < |msgs| :: msgs[k].Cancel? || Takes(msgs[k].price)
      modifies this
      ensures Valid() && Flat() == AppliedRun(msgs).book
      ensures reports == Stream(KAUTENJA, AppliedRun(msgs).events)
    {
      hide Applied, Worded, Stream, AppliedRun, Admissible, Valid, InTicks;
      NothingApplied(msgs);
      var k := 0;
      while k < |msgs|
        invariant k <= |msgs| && Valid() && Flat() == AppliedRun(msgs[..k]).book
        invariant reports == Stream(KAUTENJA, AppliedRun(msgs[..k]).events)
      {
        AppliedNext(msgs, k);
        match msgs[k] {
          case New(_, _, _, _, _, _) => OnNewOrder(msgs[k]);
          case Cancel(_, _) => OnCancel(msgs[k]);
          case Modify(_, _, _, _, _) => OnModify(msgs[k]);
        }
        k := k + 1;
      }
      assert msgs[..k] == msgs;
    }
  }

  /** What an applied modify does and reports, spelled out. */
  lemma ModifyApplied(b: seq<Order>, m: Msg)
    requires m.Modify?
    ensures var at := Find(b, m.id);
            var s := Applied(b, m);
            if at.None? then
              s.book == b && Worded(KAUTENJA, s.event) == [Ack(MODIFY_REJECT, m.seqno, m.id, 0, 0, 0)]
            else
              var side := b[at.value].side;
              var o := Order(m.id, side, Seen(m.price), m.qty);
              var e := Enter(RemoveAt(b, at.value), o, false);
              && s.book == e.book
              && Worded(KAUTENJA, s.event)
                 == [Ack(MODIFY_ACK, m.seqno, m.id, side.Code(), Unseen(Seen(m.price)), m.qty)]
                    + Trades(KAUTENJA, m.seqno, o.(price := Unseen(Seen(m.price))), UnseenFills(e.fills))
  {
    hide Enter, Find, Trades, Unseen, Seen, UnseenFills;
  }

  lemma NoneYet(seqno: nat, taker: Order, shown: seq<Fill>, fills: seq<Fill>)
    ensures Trades(KAUTENJA, seqno, taker, shown[..0]) == [] && Traded(fills[..0]) == 0
  {}

  lemma {:induction false} TradesIgnorePrice(seqno: nat, taker: Order, price: int, fills: seq<Fill>)
    ensures Trades(KAUTENJA, seqno, taker.(price := price), fills) == Trades(KAUTENJA, seqno, taker, fills)
  {
    if fills != [] {
      TradesIgnorePrice(seqno, taker, price, fills[..|fills| - 1]);
    }
  }

  /** Every maker is alive when its callback comes. */
  ghost predicate Alive(sh: map<nat, Rest>, fills: seq<Fill>) {
    fills == [] || (fills[0].maker in sh && Alive(ApplyFill(sh, fills[0]), fills[1..]))
  }

  lemma {:induction false} BackedAlive(sh: map<nat, Rest>, taker: Side, fills: seq<Fill>, p: int -> int)
    requires Backed(sh, taker, fills)
    ensures Alive(Repriced(sh, p), fills)
    decreases fills
  {
    if fills != [] {
      BackedAlive(ApplyFill(sh, fills[0]), taker, fills[1..], p);
      assert Repriced(ApplyFill(sh, fills[0]), p) == ApplyFill(Repriced(sh, p), fills[0]);
    }
  }

  lemma PriceBlind(sh: map<nat, Rest>, f: Fill, price: int)
    ensures ApplyFill(sh, f.(price := price)) == ApplyFill(sh, f)
  {}

  /** The fills of a match leave the shadow in step with the matched book. */
  lemma ShadowAfter(b: seq<Order>, slots: seq<Slot>, side: Side, limit: int, qty: nat)
    requires InStep(b, slots)
    ensures var m := Match(b, side, limit, qty);
            && Alive(View(slots), m.fills)
            && ApplyFills(View(slots), m.fills) == Repriced(Records(m.book), Unseen)
  {
    hide Match, Lockstep, View, Records, Repriced, Unseen;
    var m := Match(b, side, limit, qty);
    RecordsLockstep(b);
    MatchLockstep(b, Records(b), side, limit, qty);
    MatchKeeps(b, side, limit, qty);
    BackedAlive(Records(b), side, m.fills, Unseen);
    RepricedFills(Records(b), m.fills, Unseen);
    LockstepIsRecords(m.book, ApplyFills(Records(b), m.fills));
  }

  lemma TickFill(engine: seq<Fill>, ticks: seq<Fill>, k: nat)
    requires k < |engine| && ticks == FillsImage(engine, Same(), -PX_OFF)
    ensures ticks[k] == Fill(engine[k].maker, engine[k].price - PX_OFF, engine[k].qty)
    ensures UnseenFills(ticks)[k] == Fill(engine[k].maker, FromEngine(engine[k].price), engine[k].qty)
  {}

  /** A slot is alive exactly when the book rests its id, and remembers the order in ticks; with
      the slot dead, the shadow is in step with the book without the order. */
  lemma AliveIsResting(b: seq<Order>, slots: seq<Slot>, id: nat)
    requires InStep(b, slots)
    ensures var at := Find(b, id);
            && (at.Some? <==> AliveAt(slots, id))
            && (at.Some? ==>
                  && UnseenOrder(b[at.value]) == Order(id, slots[id].side, slots[id].price, slots[id].remaining)
                  && !Resting(RemoveAt(b, at.value), id)
                  && InStep(RemoveAt(b, at.value), slots[id := slots[id].(alive := false, remaining := 0)]))
  {
    hide Lockstep, View, Records, Unseen, Find;
    RecordsLockstep(b);
    LockstepFinds(b, Records(b), id);
    SlotView(slots, id);
    FindSpec(b, id);
    assert id in Records(b) <==> id in Repriced(Records(b), Unseen);
    if Find(b, id).Some? {
      var at := Find(b, id).value;
      RemovedKeeps(b, at);
      LockstepRemove(b, Records(b), at);
      LockstepIsRecords(RemoveAt(b, at), Records(b) - {id});
      RepricedPut(Records(b), id, RestOf(b[at]), Unseen);
    }
  }

  /** What is left of an entering order rests behind the matched book, or is taken out again. */
  lemma MatchSettles(b: seq<Order>, o: Order)
    requires WellFormed(b) && !Resting(b, o.id) && o.qty > 0
    ensures var m := Match(b, o.side, o.price, o.qty);
            var e := Enter(b, o, false);
            && m.left == o.qty - Traded(m.fills) && e.left == m.left && e.fills == m.fills
            && Enter(b, o, true) == m && (m.left == 0 ==> e.book == m.book)
            && (m.left > 0 ==> var at := Find(e.book, o.id); at.Some? && RemoveAt(e.book, at.value) == m.book)
            && WellFormed(m.book) && !Resting(m.book, o.id) && WellFormed(e.book)
            && Records(e.book) == if m.left > 0 then Records(m.book)[o.id := Rest(o.side, o.price, m.left)]
                                  else Records(m.book)
  {
    hide Match, Traded, Find;
    var m := Match(b, o.side, o.price, o.qty);
    IocUndone(b, o);
    EnterFilled(b, o, true);
    MatchKeeps(b, o.side, o.price, o.qty);
    ShrunkResting(b, m.book, o.id);
    if m.left > 0 {
      var rested := m.book + [o.(qty := m.left)];
      assert rested[..|rested| - 1] == m.book;
    }
  }

  lemma NotInShadow(b: seq<Order>, slots: seq<Slot>, id: nat)
    requires WellFormed(b) && View(slots) == Repriced(Records(b), Unseen) && !Resting(b, id)
    ensures View(slots) - {id} == View(slots)
  {
    hide Lockstep, View, Records;
    RecordsLockstep(b);
    LockstepFinds(b, Records(b), id);
    FindSpec(b, id);
    assert id !in View(slots);
  }
}
