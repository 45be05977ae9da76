/** The QuantCup adapter: a shadow of every order kept from fill callbacks, native orders
    built in a prebuild pass and consumed by position, and queries that scan the shadow. */
module QuantCupAdapter {
  import opened Basics
  import opened Contract
  import opened MatchingLaws
  import opened Reports
  import opened Shadow
  import opened EngineImages

  const TABLE_SIZE: nat := 0x20_0000
  const MAX_NUM_ORDERS: nat := 2_200_000
  const PRICE_MIN: int := 1
  const PRICE_MAX: int := 262143

  // ----- the id in the trader field --------------------------------------------------------

  /** QuantCup's four-character trader field, as bytes. */
  datatype Field = Field(b0: nat, b1: nat, b2: nat, b3: nat)

  function EncodeId(id: nat): Field {
    Field(id % 256, id / 0x100 % 256, id / 0x1_0000 % 256, id / 0x100_0000 % 256)
  }

  function DecodeId(f: Field): nat {
    f.b0 + 0x100 * f.b1 + 0x1_0000 * f.b2 + 0x100_0000 * f.b3
  }

  /** The field carries an id exactly when the id fits 32 bits. */
  lemma IdRoundTrip(id: nat)
    ensures DecodeId(EncodeId(id)) == id <==> id < TWO_32
  {
    var a, b, c := id / 0x100, id / 0x1_0000, id / 0x100_0000;
    assert b == a / 0x100 && c == b / 0x100;
    assert id == id % 256 + 0x100 * (a % 256) + 0x1_0000 * (b % 256) + 0x100_0000 * c;
  }

  // ----- native orders and the shadow ---------------------------------------------------------

  datatype Native = Native(trader: Field, side: Side, price: int, size: nat)

  /** The prebuilt t_order of a NEW or MODIFY message; the price is cast to 32 bits. */
  function NativeOf(m: Msg): Native
    requires !m.Cancel?
  {
    Native(EncodeId(m.id), m.side, m.price % TWO_32, m.qty)
  }

  datatype OrderState = OrderState(price: int, qty: nat, side: Side, alive: bool, qcid: nat)

  const DEAD: OrderState := OrderState(0, 0, Buy, false, 0)

  predicate AliveAt(orders: seq<OrderState>, id: nat) {
    id < |orders| && orders[id].alive
  }

  function View(orders: seq<OrderState>): map<nat, Rest> {
    map id: nat | 0 <= id < |orders| && AliveAt(orders, id) :: Rest(orders[id].side, orders[id].price, orders[id].qty)
  }

  /** The maker-side callback's effect on the shadow. */
  function FillSlot(orders: seq<OrderState>, f: Fill): seq<OrderState> {
    if f.maker >= |orders| then orders
    else
      var s := orders[f.maker];
      if s.qty > f.qty then orders[f.maker := s.(qty := s.qty - f.qty)]
      else orders[f.maker := s.(qty := 0, alive := false)]
  }

  lemma FillSlotView(orders: seq<OrderState>, f: Fill, skip: nat)
    requires f.maker in View(orders) - {skip}
    ensures View(FillSlot(orders, f)) - {skip} == ApplyFill(View(orders) - {skip}, f)
  {}

  /** The harness id of a QuantCup order id. */
  function Names(traders: seq<Field>): nat -> nat {
    (id: nat) => if id < |traders| then DecodeId(traders[id]) else 0
  }

  /** The shadow slot of a resting order holds its QuantCup id. */
  ghost predicate Handled(id: nat, traders: seq<Field>, orders: seq<OrderState>) {
    && id < |traders| && DecodeId(traders[id]) < |orders|
    && orders[DecodeId(traders[id])].qcid == id
  }

  ghost predicate Handles(engine: seq<Order>, traders: seq<Field>, orders: seq<OrderState>) {
    forall i | 0 <= i < |engine| :: Handled(engine[i].id, traders, orders)
  }

  datatype State = State(engine: seq<Order>, traders: seq<Field>, orders: seq<OrderState>) {
    /** The book in harness ids. */
    ghost function Flat(): seq<Order> {
      Image(engine, Names(traders), 0)
    }
  }

  /** Engine book, arena and shadow belong together. */
  ghost predicate ValidState(s: State) {
    && WellFormed(s.engine) && WellFormed(s.Flat()) && Lockstep(s.Flat(), View(s.orders))
    && Handles(s.engine, s.traders, s.orders) && 0 < |s.traders|
  }

  // ----- queries over the shadow ---------------------------------------------------------------

  function ShadowDepth(orders: seq<OrderState>, side: Side, price: int): nat {
    if orders == [] then 0
    else
      var s := orders[|orders| - 1];
      ShadowDepth(orders[..|orders| - 1], side, price)
      + (if s.alive && s.side == side && s.price == price then s.qty else 0)
  }

  lemma {:induction false} ShadowDepthKill(orders: seq<OrderState>, id: nat, side: Side, price: int)
    requires id < |orders|
    ensures var s := orders[id];
            ShadowDepth(orders, side, price)
            == ShadowDepth(orders[id := s.(alive := false)], side, price)
               + (if s.alive && s.side == side && s.price == price then s.qty else 0)
  {
    var n := |orders| - 1;
    var killed := orders[id := orders[id].(alive := false)];
    if id < n {
      ShadowDepthKill(orders[..n], id, side, price);
      assert killed[..n] == orders[..n][id := orders[id].(alive := false)];
    } else {
      assert killed[..n] == orders[..n];
    }
  }

  lemma {:induction false} ShadowDepthEmpty(orders: seq<OrderState>, side: Side, price: int)
    requires View(orders) == map[]
    ensures ShadowDepth(orders, side, price) == 0
  {
    if orders != [] {
      var n := |orders| - 1;
      assert n !in View(orders);
      forall id: nat | 0 <= id < n ensures !AliveAt(orders[..n], id) {
        assert id !in View(orders);
      }
      ShadowDepthEmpty(orders[..n], side, price);
    }
  }

  lemma KillView(orders: seq<OrderState>, id: nat)
    requires id < |orders|
    ensures View(orders[id := orders[id].(alive := false)]) == View(orders) - {id}
  {}

  /** Summing over the shadow, in id order, gives the depth of the book, in arrival order. */
  lemma {:induction false} ShadowDepthIsDepth(b: seq<Order>, orders: seq<OrderState>, side: Side, price: int)
    requires WellFormed(b) && Lockstep(b, View(orders))
    ensures ShadowDepth(orders, side, price) == Depth(b, side, price)
  {
    hide View, Lockstep, ShadowDepth;
    if b == [] {
      EmptyLockstep(View(orders));
      ShadowDepthEmpty(orders, side, price);
    } else {
      var n := |b| - 1;
      var id := b[n].id;
      LockstepAt(b, View(orders), n);
      InView(orders, id);
      ShadowDepthKill(orders, id, side, price);
      KillView(orders, id);
      LockstepRemove(b, View(orders), n);
      assert RemoveAt(b, n) == b[..n];
      ShadowDepthIsDepth(b[..n], orders[id := orders[id].(alive := false)], side, price);
    }
  }

  lemma EmptyLockstep(sh: map<nat, Rest>)
    requires Lockstep([], sh)
    ensures sh == map[]
  {}

  lemma InView(orders: seq<OrderState>, id: nat)
    requires id in View(orders)
    ensures id < |orders| && orders[id].alive
    ensures View(orders)[id] == Rest(orders[id].side, orders[id].price, orders[id].qty)
  {}

  // ----- the adapter ------------------------------------------------------------------------------

  class Adapter {
    /** QuantCup's own book: orders under their QuantCup ids, which number the arena slots. */
    var engine: seq<Order>
    /** The trader field of every arena slot used so far; slot 0 is never used. */
    var traders: seq<Field>
    var orders: seq<OrderState>
    var pre: seq<Native>
    var preIdx: nat
    var preModify: seq<Native>
    var preModifyIdx: nat
    var limitCalls: nat
    var seqno: nat
    var takerId: nat
    var takerLeft: nat
    var takerSide: Side
    var reports: seq<Report>

    /** The book in harness ids. */
    ghost function Flat(): seq<Order>
      reads this
    {
      Image(engine, Names(traders), 0)
    }

    ghost predicate Valid()
      reads this
    {
      ValidState(State(engine, traders, orders))
    }

    constructor ()
      ensures Valid() && Flat() == [] && engine == [] && reports == []
      ensures |traders| == 1 && limitCalls == preIdx == preModifyIdx == 0 && pre == preModify == []
    {
      engine, traders, reports := [], [EncodeId(0)], [];
      orders := seq(TABLE_SIZE, _ => DEAD);
      pre, preIdx, preModify, preModifyIdx, limitCalls := [], 0, [], 0, 0;
      seqno, takerId, takerLeft, takerSide := 0, 0, 0, Buy;
    }

    /** QuantCup's fill callback, called once for each side of a match. */
    method Execution(side: Side, trader: Field, price: int, size: nat)
      modifies this`reports, this`orders, this`takerLeft
      ensures if side == takerSide then reports == old(reports) && orders == old(orders) && takerLeft == old(takerLeft)
              else
                && reports == old(reports) + [Report(TRADE, seqno, 0, 0, price, size, DecodeId(trader), takerId)]
                && orders == FillSlot(old(orders), Fill(DecodeId(trader), price, size))
                && takerLeft == (if old(takerLeft) >= size then old(takerLeft) - size else old(takerLeft))
    {
      hide DecodeId;
      var makerCall := if takerSide.Buy? then side.Sell? else side.Buy?;
      if !makerCall {
        return;
      }
      var makerId := DecodeId(trader);
      reports := reports + [Report(TRADE, seqno, 0, 0, price, size, makerId, takerId)];
      if takerLeft >= size {
        takerLeft := takerLeft - size;
      }
      if makerId < |orders| {
        var s := orders[makerId];
        if s.qty > size {
          orders := orders[makerId := s.(qty := s.qty - size)];
        } else {
          orders := orders[makerId := s.(qty := 0, alive := false)];
        }
      }
    }

    /** The match loop of limit(): for every fill, in match order, one callback per side. */
    method CallBack(fills: seq<Fill>, ghost taker: Order)
      requires taker.id == takerId && taker.side == takerSide && takerLeft >= Traded(fills)
      requires Backed(View(orders) - {takerId}, takerSide, FillsImage(fills, Names(traders), 0))
      requires forall k | 0 <= k < |fills| :: fills[k].maker < |traders|
      modifies this`reports, this`orders, this`takerLeft
      ensures SlotsStay(old(orders), orders, takerId)
      ensures takerLeft == old(takerLeft) - Traded(fills)
      ensures View(orders) - {takerId}
              == ApplyFills(old(View(orders)) - {takerId}, FillsImage(fills, Names(traders), 0))
      ensures reports == old(reports) + Trades(LIQUIBOOK, seqno, taker, FillsImage(fills, Names(traders), 0))
    {
      hide Traded, View, Trades, FillsImage, FillSlot;
      ghost var named := FillsImage(fills, Names(traders), 0);
      ghost var target := ApplyFills(View(orders) - {takerId}, named);
      assert named[0..] == named;
      var k := 0;
      NothingYet(seqno, taker, named, fills);
      while k < |fills|
        invariant k <= |fills| && SlotsStay(old(orders), orders, takerId)
        invariant Backed(View(orders) - {takerId}, takerSide, named[k..])
        invariant ApplyFills(View(orders) - {takerId}, named[k..]) == target
        invariant takerLeft == old(takerLeft) - Traded(fills[..k])
        invariant reports == old(reports) + Trades(LIQUIBOOK, seqno, taker, named[..k])
      {
        var f := fills[k];
        assert named[k..][0] == named[k] && named[k..][1..] == named[k + 1..];
        TradesNext(LIQUIBOOK, seqno, taker, named, k);
        TradedNext(fills, k);
        TradedPrefix(fills, k + 1);
        FillsImageAt(fills, k, Names(traders), 0);
        FillSlotView(orders, named[k], takerId);
        FillSlotStays(orders, named[k], takerId);
        var trader := traders[f.maker];
        Execution(takerSide, EncodeId(takerId), f.price, f.qty);
        Execution(takerSide.Opposite(), trader, f.price, f.qty);
        k := k + 1;
      }
      assert named[k..] == [] && named[..k] == named && fills[..k] == fills;
    }

    /** limit(): takes the next arena slot, matches, and rests what is left. The slot must
        exist: QuantCup does not check its arena. */
    method Limit(qo: Native) returns (qcid: nat)
      requires Enterable(State(engine, traders, orders), takerId)
      requires takerId == DecodeId(qo.trader) && takerLeft == qo.size > 0 && takerSide == qo.side
      requires |traders| < MAX_NUM_ORDERS
      modifies this`engine, this`traders, this`reports, this`orders, this`takerLeft
      ensures var o := Order(takerId, qo.side, qo.price, qo.size);
              && qcid == old(|traders|) && traders == old(traders) + [qo.trader]
              && Limited(old(State(engine, traders, orders)), State(engine, traders, orders), o)
              && takerLeft == Match(old(Flat()), qo.side, qo.price, qo.size).left
              && reports == old(reports)
                 + Trades(LIQUIBOOK, seqno, o, Match(old(Flat()), qo.side, qo.price, qo.size).fills)
    {
      hide Lockstep, Match, Enter, Image, Traded, View, Trades, FillsImage, WellFormed, Backed;
      qcid := |traders|;
      ghost var o := Order(takerId, qo.side, qo.price, qo.size);
      var e := Enter(engine, Order(qcid, qo.side, qo.price, qo.size), false);
      traders := traders + [qo.trader];
      FreshSlot(engine, old(traders), traders, orders);
      EnterImage(engine, Order(qcid, qo.side, qo.price, qo.size), false, Names(traders), 0);
      EnterFilled(engine, Order(qcid, qo.side, qo.price, qo.size), false);
      MatchLockstep(Flat(), View(orders) - {takerId}, qo.side, qo.price, qo.size);
      EnterIds(engine, Order(qcid, qo.side, qo.price, qo.size));
      MakersInRange(engine, qo.side, qo.price, qo.size, old(traders), orders);
      EnterParts(engine, Order(qcid, qo.side, qo.price, qo.size));
      EnterParts(Flat(), o);
      CallBack(e.fills, o);
      engine := e.book;
    }

    /** cancel(): removes an order by its QuantCup id. */
    method CancelNative(qcid: nat)
      requires Find(engine, qcid).Some?
      modifies this`engine
      ensures engine == RemoveAt(old(engine), Find(old(engine), qcid).value)
      ensures Flat() == RemoveAt(old(Flat()), Find(old(engine), qcid).value)
    {
      var at := Find(engine, qcid).value;
      ImageRemove(engine, at, Names(traders), 0);
      engine := RemoveAt(engine, at);
    }

    method OnNewOrder(m: Msg)
      requires Valid() && m.New? && Admissible(Flat(), m)
      requires m.id < TWO_32 && PRICE_MIN <= m.price <= PRICE_MAX && m.id < |orders|
      requires preIdx < |pre| && pre[preIdx] == NativeOf(m) && |traders| < MAX_NUM_ORDERS
      modifies this`engine, this`traders, this`orders, this`reports, this`preIdx, this`seqno, this`takerId,
               this`takerLeft, this`takerSide
      ensures Valid() && |orders| == old(|orders|) && |traders| == old(|traders|) + 1 && preIdx == old(preIdx) + 1
      ensures var s := Step(old(Flat()), m);
              Flat() == s.book && reports == old(reports) + Worded(LIQUIBOOK, s.event)
    {
      hide Match, Enter, Image, Trades, ValidState, Enterable, Limited, Find, WellFormed, Resting, EncodeId, DecodeId,
        Step, Worded;
      NewStep(Flat(), m);
      seqno, takerId, takerLeft, takerSide := m.seqno, m.id, m.qty, m.side;
      reports := reports + [Ack(ORDER_ACK, m.seqno, m.id, m.side.Code(), m.price, m.qty)];
      ghost var o := Order(m.id, m.side, m.price, m.qty);
      ghost var b := State(engine, traders, orders);
      NewEnterable(b, m.id);
      IdRoundTrip(m.id);
      CastPrice(m.price);
      EnterBook(b.Flat(), o);
      var qcid := Limit(pre[preIdx]);
      preIdx := preIdx + 1;
      ghost var a := State(engine, traders, orders);
      if m.ioc {
        FinishIoc(b, a, o);
        if takerLeft > 0 {
          CancelNative(qcid);
          reports := reports + [Ack(CANCEL_ACK, m.seqno, m.id, m.side.Code(), m.price, takerLeft)];
        }
      } else if takerLeft > 0 {
        FinishRest(b, a, o);
        orders := orders[m.id := OrderState(m.price, takerLeft, m.side, true, qcid)];
      } else {
        FinishFilledNew(b, a, o);
      }
    }

    method OnCancel(m: Msg)
      requires Valid() && m.Cancel?
      modifies this`engine, this`orders, this`reports
      ensures Valid() && |orders| == old(|orders|)
      ensures var s := Step(old(Flat()), m);
              Flat() == s.book && reports == old(reports) + Worded(LIQUIBOOK, s.event)
    {
      hide Lockstep, Image, View, Handles, WellFormed, Find;
      ghost var b := State(engine, traders, orders);
      FoundInShadow(b, m.id);
      if m.id < |orders| && orders[m.id].alive {
        var s := orders[m.id];
        CancelByHandle(b, m.id);
        CancelNative(s.qcid);
        reports := reports + [Ack(CANCEL_ACK, m.seqno, m.id, s.side.Code(), s.price, 0)];
        orders := orders[m.id := s.(alive := false, qty := 0)];
      } else {
        reports := reports + [Ack(CANCEL_REJECT, m.seqno, m.id, 0, 0, 0)];
      }
    }

    /** Consumes the prebuilt reinsert order, applied or not. Not ok where the original
        aborts: an applied modify outside the price range. */
    method OnModify(m: Msg) returns (ok: bool)
      requires Valid() && m.Modify? && Admissible(Flat(), m) && m.id < TWO_32
      requires preModifyIdx < |preModify| && preModify[preModifyIdx] == NativeOf(m) && |traders| < MAX_NUM_ORDERS
      modifies this`engine, this`traders, this`orders, this`reports, this`preModifyIdx, this`seqno, this`takerId,
               this`takerLeft, this`takerSide
      ensures preModifyIdx == old(preModifyIdx) + 1
      ensures ok <==> Find(old(Flat()), m.id).None? || PRICE_MIN <= m.price <= PRICE_MAX
      ensures ok ==> Valid() && |orders| == old(|orders|) && |traders| <= old(|traders|) + 1
      ensures ok ==>
                var s := Step(old(Flat()), m);
                Flat() == s.book && reports == old(reports) + Worded(LIQUIBOOK, s.event)
    {
      hide Match, Enter, Image, Trades, ValidState, Enterable, Limited, Find;
      seqno := m.seqno;
      var qo := preModify[preModifyIdx];
      preModifyIdx := preModifyIdx + 1;
      ghost var b := State(engine, traders, orders);
      FoundInShadow(b, m.id);
      if !(m.id < |orders| && orders[m.id].alive) {
        reports := reports + [Ack(MODIFY_REJECT, m.seqno, m.id, 0, 0, 0)];
        return true;
      }
      if m.price < PRICE_MIN || m.price > PRICE_MAX {
        return false;
      }
      CancelByHandle(b, m.id);
      CancelNative(orders[m.id].qcid);
      Reinsert(m, qo);
      reports := reports + [Ack(MODIFY_ACK, m.seqno, m.id, m.side.Code(), m.price, m.qty)];
      ok := true;
    }

    /** The reinsert half of a modify: limit(), then the shadow slot is overwritten. */
    method Reinsert(m: Msg, qo: Native)
      requires Enterable(State(engine, traders, orders), m.id) && m.id < |orders|
      requires m.Modify? && m.qty > 0 && m.id < TWO_32 && PRICE_MIN <= m.price <= PRICE_MAX
      requires qo == NativeOf(m) && |traders| < MAX_NUM_ORDERS && seqno == m.seqno
      modifies this`engine, this`traders, this`orders, this`reports, this`takerId, this`takerLeft, this`takerSide
      ensures Valid() && |orders| == old(|orders|) && |traders| == old(|traders|) + 1
      ensures var o := Order(m.id, m.side, m.price, m.qty);
              var e := Enter(old(Flat()), o, false);
              Flat() == e.book && reports == old(reports) + Trades(LIQUIBOOK, m.seqno, o, e.fills)
    {
      hide Match, Enter, Image, Trades, ValidState, Enterable, Limited;
      ghost var c := State(engine, traders, orders);
      takerId, takerLeft, takerSide := m.id, m.qty, m.side;
      ghost var o := Order(m.id, m.side, m.price, m.qty);
      IdRoundTrip(m.id);
      CastPrice(m.price);
      EnterableParts(c, m.id);
      EnterBook(c.Flat(), o);
      var qcid := Limit(qo);
      ghost var a := State(engine, traders, orders);
      if takerLeft > 0 {
        FinishRest(c, a, o);
        orders := orders[m.id := OrderState(m.price, takerLeft, m.side, true, qcid)];
      } else {
        FinishFilledModify(c, a, o);
        orders := orders[m.id := orders[m.id].(alive := false)];
      }
    }

    // ----- queries: scans over the shadow ---------------------------------------------------------

    method QueryBestBid() returns (best: int)
      requires Valid() && forall i | 0 <= i < |Flat()| :: Flat()[i].price > INT64_MIN
      ensures best == BestBidAnswer(Flat())
    {
      hide Lockstep, Image, Handles, WellFormed, BestPrice;
      best := INT64_MIN;
      var k := 0;
      while k < |orders|
        invariant k <= |orders| && best >= INT64_MIN
        invariant forall id | 0 <= id < k && orders[id].alive && orders[id].side.Buy? :: orders[id].price <= best
        invariant best > INT64_MIN ==> exists id ::
                  0 <= id < k && orders[id].alive && orders[id].side.Buy? && orders[id].price == best
      {
        var st := orders[k];
        if st.alive && st.side.Buy? && st.price > best {
          best := st.price;
        }
        k := k + 1;
      }
      forall id | 0 <= id < |orders| && orders[id].alive ensures orders[id].price > INT64_MIN {
        AliveIsResting(Flat(), orders, id);
      }
      BestOfShadow(Flat(), orders, Buy, best, best > INT64_MIN);
    }

    method QueryBestAsk() returns (best: int)
      requires Valid() && forall i | 0 <= i < |Flat()| :: Flat()[i].price < INT64_MAX
      ensures best == BestAskAnswer(Flat())
    {
      hide Lockstep, Image, Handles, WellFormed, BestPrice;
      best := INT64_MAX;
      var k := 0;
      while k < |orders|
        invariant k <= |orders| && best <= INT64_MAX
        invariant forall id | 0 <= id < k && orders[id].alive && orders[id].side.Sell? :: orders[id].price >= best
        invariant best < INT64_MAX ==> exists id ::
                  0 <= id < k && orders[id].alive && orders[id].side.Sell? && orders[id].price == best
      {
        var st := orders[k];
        if st.alive && st.side.Sell? && st.price < best {
          best := st.price;
        }
        k := k + 1;
      }
      forall id | 0 <= id < |orders| && orders[id].alive ensures orders[id].price < INT64_MAX {
        AliveIsResting(Flat(), orders, id);
      }
      BestOfShadow(Flat(), orders, Sell, best, best < INT64_MAX);
    }

    method QueryDepthAt(price: int, side: Side) returns (total: nat)
      requires Valid()
      ensures total == Depth(Flat(), side, price)
    {
      hide Lockstep, Image, View, Handles, WellFormed, Depth;
      total := 0;
      var k := 0;
      NoDepth(orders, side, price);
      while k < |orders|
        invariant k <= |orders| && total == ShadowDepth(orders[..k], side, price)
      {
        var st := orders[k];
        assert orders[..k + 1][..k] == orders[..k];
        if st.alive && st.side == side && st.price == price {
          total := total + st.qty;
        }
        k := k + 1;
      }
      assert orders[..k] == orders;
      ShadowDepthIsDepth(Flat(), orders, side, price);
    }

    // ----- the two passes --------------------------------------------------------------------------

    /** engine_prebuild: one native order per new or modify message. Not ok where the
        original aborts: a new order outside the price range, or an arena too small. */
    method Prebuild(m: Msg) returns (ok: bool)
      requires Valid() && engine == []
      modifies this`pre, this`preModify, this`limitCalls, this`orders
      ensures Valid() && |orders| >= old(|orders|)
      ensures ok <==>
              m.Cancel? || ((m.New? ==> PRICE_MIN <= m.price <= PRICE_MAX) && old(limitCalls) + 1 < MAX_NUM_ORDERS)
      ensures ok ==>
                && limitCalls == old(limitCalls) + (if m.Cancel? then 0 else 1)
                && pre == old(pre) + (if m.New? then [NativeOf(m)] else [])
                && preModify == old(preModify) + (if m.Modify? then [NativeOf(m)] else [])
                && (m.New? ==> m.id < |orders|)
    {
      ok := true;
      if m.New? {
        if m.price < PRICE_MIN || m.price > PRICE_MAX {
          return false;
        }
        limitCalls := limitCalls + 1;
        if limitCalls >= MAX_NUM_ORDERS {
          return false;
        }
        pre := pre + [NativeOf(m)];
        if m.id >= |orders| {
          var size := if 2 * |orders| > m.id + 1 then 2 * |orders| else m.id + 1;
          Grown(orders, size - |orders|);
          orders := orders + seq(size - |orders|, _ => DEAD);
        }
      } else if m.Modify? {
        limitCalls := limitCalls + 1;
        if limitCalls >= MAX_NUM_ORDERS {
          return false;
        }
        preModify := preModify + [NativeOf(m)];
      }
    }

    /** A whole run: it does not abort if and only if every new order is priced in range, new and
        modify messages together are fewer than the arena slots, and every modify that finds its
        order resting is priced in range. Then it has consumed, message by message, the native
        order built from that same message, and emitted the contract's events. */
    method Deliver(msgs: seq<Msg>) returns (ok: bool)
      requires Valid() && engine == [] && |traders| == 1 && reports == [] && pre == preModify == []
      requires limitCalls == preIdx == preModifyIdx == 0
      requires AdmissibleRun([], msgs) && forall k | 0 <= k < |msgs| :: msgs[k].id < TWO_32
      modifies this
      ensures ok ==> Valid() && Flat() == Run([], msgs).book && reports == Stream(LIQUIBOOK, Run([], msgs).events)
      ensures ok <==> RunFits(msgs)
    {
      ok := PrebuildAll(msgs);
      if ok {
        ok := Dispatch(msgs);
      }
    }

    method PrebuildAll(msgs: seq<Msg>) returns (ok: bool)
      requires Valid() && engine == [] && |traders| == 1 && reports == [] && pre == preModify == []
      requires limitCalls == preIdx == preModifyIdx == 0
      modifies this`pre, this`preModify, this`limitCalls, this`orders
      ensures ok ==> Valid() && pre == Natives(msgs, true) && preModify == Natives(msgs, false)
      ensures ok ==> forall k | 0 <= k < |msgs| && msgs[k].New? :: msgs[k].id < |orders|
      ensures ok <==> NewsFit(msgs) && Count(msgs, true) + Count(msgs, false) < MAX_NUM_ORDERS
    {
      hide Natives, Count, ValidState;
      var k := 0;
      NoMessages(msgs);
      while k < |msgs|
        invariant k <= |msgs| && Valid()
        invariant pre == Natives(msgs[..k], true) && preModify == Natives(msgs[..k], false)
        invariant limitCalls == Count(msgs[..k], true) + Count(msgs[..k], false) < MAX_NUM_ORDERS
        invariant forall j | 0 <= j < k && msgs[j].New? ::
                  PRICE_MIN <= msgs[j].price <= PRICE_MAX && msgs[j].id < |orders|
      {
        MessageNext(msgs, k, true);
        MessageNext(msgs, k, false);
        ok := Prebuild(msgs[k]);
        if !ok {
          return;
        }
        k := k + 1;
      }
      ok := true;
    }

    method Dispatch(msgs: seq<Msg>) returns (ok: bool)
      requires Valid() && engine == [] && |traders| == 1 && reports == [] && preIdx == preModifyIdx == 0
      requires pre == Natives(msgs, true) && preModify == Natives(msgs, false)
      requires Count(msgs, true) + Count(msgs, false) < MAX_NUM_ORDERS
      requires NewsFit(msgs) && forall k | 0 <= k < |msgs| && msgs[k].New? :: msgs[k].id < |orders|
      requires AdmissibleRun([], msgs) && forall k | 0 <= k < |msgs| :: msgs[k].id < TWO_32
      modifies this
      ensures ok ==> Valid() && Flat() == Run([], msgs).book && reports == Stream(LIQUIBOOK, Run([], msgs).events)
      ensures ok <==> AppliedFit(msgs)
    {
      hide Natives, Count, ValidState, Run, Stream, Worded, Admissible, Step, Image, Find;
      var k := 0;
      NoMessages(msgs);
      EmptyStream(LIQUIBOOK, msgs);
      EmptyImage(Names(traders), 0);
      while k < |msgs|
        invariant k <= |msgs| && Valid()
        invariant Flat() == Run([], msgs[..k]).book && reports == Stream(LIQUIBOOK, Run([], msgs[..k]).events)
        invariant pre == Natives(msgs, true) && preModify == Natives(msgs, false)
        invariant preIdx == Count(msgs[..k], true) && preModifyIdx == Count(msgs[..k], false)
        invariant |traders| <= 1 + Count(msgs[..k], true) + Count(msgs[..k], false)
        invariant forall j | 0 <= j < |msgs| && msgs[j].New? :: msgs[j].id < |orders|
        invariant forall j | 0 <= j < k :: AppliedFits(msgs, j)
      {
        var m := msgs[k];
        StreamNext(LIQUIBOOK, [], msgs, k);
        NativeAt(msgs, k, true);
        NativeAt(msgs, k, false);
        assert Admissible(Run([], msgs[..k]).book, m);
        ok := true;
        ghost var met := Flat();
        match m {
          case New(_, _, _, _, _, _) => OnNewOrder(m);
          case Cancel(_, _) => OnCancel(m);
          case Modify(_, _, _, _, _) => ok := OnModify(m);
        }
        assert ok <==> AppliedFits(msgs, k) by { assert met == Run([], msgs[..k]).book; }
        if !ok {
          return;
        }
        k := k + 1;
      }
      assert msgs[..k] == msgs;
      ok := true;
    }
  }

  /** Every new order is priced in range. */
  ghost predicate NewsFit(msgs: seq<Msg>) {
    forall k | 0 <= k < |msgs| && msgs[k].New? :: PRICE_MIN <= msgs[k].price <= PRICE_MAX
  }

  /** If message `k` is a modify that finds its order resting, it is priced in range. */
  ghost predicate AppliedFits(msgs: seq<Msg>, k: nat) {
    k < |msgs| && (msgs[k].Modify? && Find(Run([], msgs[..k]).book, msgs[k].id).Some?
                   ==> PRICE_MIN <= msgs[k].price <= PRICE_MAX)
  }

  ghost predicate AppliedFit(msgs: seq<Msg>) {
    forall k | 0 <= k < |msgs| :: AppliedFits(msgs, k)
  }

  /** The workloads QuantCup gets through without aborting. */
  ghost predicate RunFits(msgs: seq<Msg>) {
    NewsFit(msgs) && AppliedFit(msgs) && Count(msgs, true) + Count(msgs, false) < MAX_NUM_ORDERS
  }

  /** The new orders (or the modifies) of a workload, in delivery order, as native orders. */
  function Natives(msgs: seq<Msg>, news: bool): seq<Native> {
    if msgs == [] then []
    else
      var m := msgs[|msgs| - 1];
      Natives(msgs[..|msgs| - 1], news) + (if (news && m.New?) || (!news && m.Modify?) then [NativeOf(m)] else [])
  }

  function Count(msgs: seq<Msg>, news: bool): nat {
    |Natives(msgs, news)|
  }

  lemma NoMessages(msgs: seq<Msg>)
    ensures forall news :: Natives(msgs[..0], news) == [] && Count(msgs[..0], news) == 0
    ensures msgs[..|msgs|] == msgs
  {}

  lemma MessageNext(msgs: seq<Msg>, k: nat, news: bool)
    requires k < |msgs|
    ensures var m := msgs[k];
            Natives(msgs[..k + 1], news)
            == Natives(msgs[..k], news) + (if (news && m.New?) || (!news && m.Modify?) then [NativeOf(m)] else [])
    ensures Count(msgs[..k], news) == |Natives(msgs[..k], news)|
    ensures Count(msgs[..k + 1], news) == |Natives(msgs[..k + 1], news)| <= Count(msgs, news)
  {
    assert msgs[..k + 1][..k] == msgs[..k];
    NativesPrefix(msgs, k + 1, news);
  }

  lemma {:induction false} NativesPrefix(msgs: seq<Msg>, k: nat, news: bool)
    requires k <= |msgs|
    ensures Natives(msgs[..k], news) <= Natives(msgs, news)
    decreases |msgs| - k
  {
    if k < |msgs| {
      NativesPrefix(msgs, k + 1, news);
      assert msgs[..k + 1][..k] == msgs[..k];
    } else {
      assert msgs[..k] == msgs;
    }
  }

  /** The native order at the position a message has reached is the one built from it. */
  lemma NativeAt(msgs: seq<Msg>, k: nat, news: bool)
    requires k < |msgs|
    ensures var m := msgs[k]; var at := Count(msgs[..k], news);
            && ((news && m.New?) || (!news && m.Modify?) ==>
                  at < |Natives(msgs, news)| && Natives(msgs, news)[at] == NativeOf(m)
                    && Count(msgs[..k + 1], news) == at + 1)
            && (!((news && m.New?) || (!news && m.Modify?)) ==> Count(msgs[..k + 1], news) == at)
            && Count(msgs[..k + 1], news) <= Count(msgs, news)
  {
    hide Natives;
    MessageNext(msgs, k, news);
    NativesPrefix(msgs, k + 1, news);
  }

  lemma Grown(orders: seq<OrderState>, n: nat)
    ensures View(orders + seq(n, _ => DEAD)) == View(orders)
  {}

  lemma NoDepth(orders: seq<OrderState>, side: Side, price: int)
    ensures ShadowDepth(orders[..0], side, price) == 0
  {}

  /** An extremum over the live shadow slots is the book's best price. */
  lemma BestOfShadow(b: seq<Order>, orders: seq<OrderState>, side: Side, best: int, any: bool)
    requires Lockstep(b, View(orders))
    requires forall id | 0 <= id < |orders| && orders[id].alive && orders[id].side == side ::
               any && !Better(side.Opposite(), orders[id].price, best)
    requires any ==> exists id ::
             0 <= id < |orders| && orders[id].alive && orders[id].side == side && orders[id].price == best
    ensures BestPrice(b, side) == (if any then Some(best) else None)
  {
    hide View, BestPrice;
    forall j | 0 <= j < |b| && b[j].side == side ensures any && !Better(side.Opposite(), b[j].price, best) {
      LockstepAt(b, View(orders), j);
      InView(orders, b[j].id);
    }
    if any {
      var id :| 0 <= id < |orders| && orders[id].alive && orders[id].side == side && orders[id].price == best;
      AliveViewed(orders, id);
      assert Resting(b, id);
      var j :| 0 <= j < |b| && b[j].id == id;
      LockstepAt(b, View(orders), j);
    }
  }

  lemma AliveIsResting(b: seq<Order>, orders: seq<OrderState>, id: nat)
    requires Lockstep(b, View(orders)) && id < |orders| && orders[id].alive
    ensures exists j | 0 <= j < |b| :: b[j].price == orders[id].price
  {
    hide View;
    AliveViewed(orders, id);
    assert Resting(b, id);
    var j :| 0 <= j < |b| && b[j].id == id;
    LockstepAt(b, View(orders), j);
  }

  lemma AliveViewed(orders: seq<OrderState>, id: nat)
    requires id < |orders| && orders[id].alive
    ensures id in View(orders) && View(orders)[id] == Rest(orders[id].side, orders[id].price, orders[id].qty)
  {}

  /** The shadow's liveness test is the book's. */
  lemma FoundInShadow(s: State, id: nat)
    requires ValidState(s)
    ensures var at := Find(s.Flat(), id);
            && (at.Some? <==> id < |s.orders| && s.orders[id].alive)
            && (at.Some? ==>
                  at.value < |s.engine|
                  && s.Flat()[at.value] == Order(id, s.orders[id].side, s.orders[id].price, s.orders[id].qty))
  {
    hide View, Find, Handles, WellFormed;
    LockstepFinds(s.Flat(), View(s.orders), id);
    FindSpec(s.Flat(), id);
    if id in View(s.orders) {
      InView(s.orders, id);
    }
    if id < |s.orders| && s.orders[id].alive {
      AliveViewed(s.orders, id);
    }
  }

  lemma FindUnique(b: seq<Order>, i: nat)
    requires DistinctIds(b) && i < |b|
    ensures Find(b, b[i].id) == Some(i)
  {}

  /** Cancelling through the shadow's QuantCup id removes the order itself; afterwards the
      slot may be marked dead, or overwritten by a reinsert. */
  lemma CancelByHandle(s: State, id: nat)
    requires ValidState(s) && Find(s.Flat(), id).Some?
    requires id < |s.orders| && s.orders[id].alive
    ensures var i := Find(s.Flat(), id).value;
            var t := s.(engine := RemoveAt(s.engine, i));
            && Find(s.engine, s.orders[id].qcid) == Some(i)
            && t.Flat() == RemoveAt(s.Flat(), i)
            && Enterable(t, id)
            && ValidState(t.(orders := s.orders[id := s.orders[id].(alive := false, qty := 0)]))
  {
    hide View, Find, Lockstep, Image;
    var i := Find(s.Flat(), id).value;
    FindSpec(s.Flat(), id);
    ImageRemove(s.engine, i, Names(s.traders), 0);
    HandleOf(s, i);
    FindUnique(s.engine, i);
    LockstepRemove(s.Flat(), View(s.orders), i);
    SlotWritten(s.orders, id, s.orders[id].(alive := false, qty := 0));
    RemovedKeeps(s.engine, i);
    RemovedKeeps(s.Flat(), i);
    RemovedHandles(s, i, id);
  }

  lemma HandleOf(s: State, i: nat)
    requires Handles(s.engine, s.traders, s.orders) && i < |s.engine|
    ensures s.Flat()[i].id < |s.orders| && s.orders[s.Flat()[i].id].qcid == s.engine[i].id
  {}

  lemma RemovedHandles(s: State, i: nat, id: nat)
    requires Handles(s.engine, s.traders, s.orders) && i < |s.engine| && id < |s.orders|
    ensures Handles(RemoveAt(s.engine, i), s.traders, s.orders)
    ensures Handles(RemoveAt(s.engine, i), s.traders, s.orders[id := s.orders[id].(alive := false, qty := 0)])
  {}

  lemma EnterableParts(s: State, id: nat)
    requires Enterable(s, id)
    ensures WellFormed(s.Flat()) && !Resting(s.Flat(), id)
  {}

  lemma CastPrice(price: int)
    requires 0 <= price < TWO_32
    ensures price % TWO_32 == price
  {}

  /** Entering an order under a free id, on the flat book. */
  lemma EnterBook(b: seq<Order>, o: Order)
    requires WellFormed(b) && !Resting(b, o.id) && o.qty > 0
    ensures WellFormed(Enter(b, o, false).book) && WellFormed(Enter(b, o, true).book)
    ensures !Resting(Match(b, o.side, o.price, o.qty).book, o.id)
    ensures var e := Enter(b, o, false); var m := Match(b, o.side, o.price, o.qty);
            && e.fills == m.fills && e.left == m.left && Enter(b, o, true) == m
            && e.book == (if m.left > 0 then m.book + [o.(qty := m.left)] else m.book)
  {
    hide Match;
    MatchKeeps(b, o.side, o.price, o.qty);
    ShrunkResting(b, Match(b, o.side, o.price, o.qty).book, o.id);
  }

  /** An order rested last is found last. */
  lemma LastFound(engine: seq<Order>, qcid: nat)
    requires engine != [] && engine[|engine| - 1].id == qcid
    ensures Find(engine, qcid) == Some(|engine| - 1)
  {}

  lemma SlotWritten(orders: seq<OrderState>, id: nat, s: OrderState)
    requires id < |orders|
    ensures View(orders[id := s])
         == if s.alive then (View(orders) - {id})[id := Rest(s.side, s.price, s.qty)] else View(orders) - {id}
  {}

  /** Before limit(): the taker is not in the book; its own shadow slot may be stale. */
  ghost predicate Enterable(s: State, id: nat) {
    && WellFormed(s.engine) && WellFormed(s.Flat()) && Lockstep(s.Flat(), View(s.orders) - {id})
    && Handles(s.engine, s.traders, s.orders) && 0 < |s.traders| && !Resting(s.Flat(), id)
  }

  /** After limit(): matched, residual rested under the new arena slot, makers' shadow slots
      updated, the taker's own slot not yet written. */
  ghost predicate Limited(b: State, a: State, o: Order) {
    var m := Match(b.Flat(), o.side, o.price, o.qty);
    && |a.traders| == |b.traders| + 1 && a.traders[..|b.traders|] == b.traders
       && DecodeId(a.traders[|b.traders|]) == o.id
    && SlotsStay(b.orders, a.orders, o.id)
    && WellFormed(a.engine) && a.Flat() == Enter(b.Flat(), o, false).book
    && Lockstep(m.book, View(a.orders) - {o.id})
    && (forall i | 0 <= i < |a.engine| :: a.engine[i].id == |b.traders| || Resting(b.engine, a.engine[i].id))
    && (if m.left > 0 then a.engine != [] && a.engine[|a.engine| - 1].id == |b.traders|
        else forall i | 0 <= i < |a.engine| :: Resting(b.engine, a.engine[i].id))
  }

  lemma NewEnterable(s: State, id: nat)
    requires ValidState(s) && !Resting(s.Flat(), id)
    ensures Enterable(s, id) && WellFormed(s.Flat()) && (id < |s.orders| ==> !s.orders[id].alive)
  {}

  lemma StaysDead(before: seq<OrderState>, after: seq<OrderState>, id: nat)
    requires SlotsStay(before, after, id) && (id < |before| ==> !before[id].alive)
    ensures View(after) - {id} == View(after)
  {}

  /** The slots of all resting orders still hold their QuantCup ids. */
  lemma Settled(b: State, a: State, id: nat)
    requires Handles(b.engine, b.traders, b.orders) && !Resting(b.Flat(), id)
    requires |a.traders| == |b.traders| + 1 && a.traders[..|b.traders|] == b.traders
             && DecodeId(a.traders[|b.traders|]) == id
    requires |a.orders| == |b.orders| && forall x | 0 <= x < |a.orders| && x != id ::
             a.orders[x].qcid == b.orders[x].qcid
    requires forall i | 0 <= i < |a.engine| ::
               Resting(b.engine, a.engine[i].id)
               || (a.engine[i].id == |b.traders| && id < |a.orders| && a.orders[id].qcid == |b.traders|)
    ensures Handles(a.engine, a.traders, a.orders)
  {
    forall i | 0 <= i < |a.engine| ensures Handled(a.engine[i].id, a.traders, a.orders) {
      if Resting(b.engine, a.engine[i].id) {
        var j :| 0 <= j < |b.engine| && b.engine[j].id == a.engine[i].id;
        assert Handled(b.engine[j].id, b.traders, b.orders);
        assert b.Flat()[j].id == DecodeId(b.traders[a.engine[i].id]);
        assert a.traders[a.engine[i].id] == a.traders[..|b.traders|][a.engine[i].id];
      }
    }
  }

  /** What a new order does and reports. */
  lemma NewStep(b: seq<Order>, m: Msg)
    requires m.New?
    ensures var o := Order(m.id, m.side, m.price, m.qty);
            var t := Match(b, o.side, o.price, o.qty);
            && Step(b, m).book == Enter(b, o, m.ioc).book
            && Worded(LIQUIBOOK, Step(b, m).event)
            == [Ack(ORDER_ACK, m.seqno, m.id, m.side.Code(), m.price, m.qty)]
               + Trades(LIQUIBOOK, m.seqno, o, t.fills)
               + (if m.ioc && t.left > 0 then [Ack(CANCEL_ACK, m.seqno, m.id, m.side.Code(), m.price, t.left)] else [])
  {
    hide Match, Trades;
  }

  /** Immediate-or-cancel: the rested residual is taken out again by its QuantCup id. */
  lemma FinishIoc(b: State, a: State, o: Order)
    requires Enterable(b, o.id) && Limited(b, a, o) && o.qty > 0 && (o.id < |b.orders| ==> !b.orders[o.id].alive)
    ensures |a.orders| == |b.orders|
    ensures var left := Match(b.Flat(), o.side, o.price, o.qty).left;
            var n := |a.engine| - 1;
            && (left > 0 ==>
                  && n >= 0 && Find(a.engine, |b.traders|) == Some(n)
                  && ValidState(a.(engine := RemoveAt(a.engine, n)))
                  && RemoveAt(a.Flat(), n) == Enter(b.Flat(), o, true).book)
            && (left == 0 ==> ValidState(a) && a.Flat() == Enter(b.Flat(), o, true).book)
  {
    hide Match, Enter, Lockstep, View, Handles, SlotsStay, Image;
    EnterBook(b.Flat(), o);
    StaysDead(b.orders, a.orders, o.id);
    SlotsStayIds(b.orders, a.orders, o.id);
    var m := Match(b.Flat(), o.side, o.price, o.qty);
    if m.left > 0 {
      var n := |a.engine| - 1;
      var c := a.(engine := RemoveAt(a.engine, n));
      LastFound(a.engine, |b.traders|);
      ImageRemove(a.engine, n, Names(a.traders), 0);
      RemovedLast(m.book, o.(qty := m.left));
      RemovedIds(b, a);
      Settled(b, c, o.id);
    } else {
      Settled(b, a, o.id);
    }
  }

  /** The residual rests: the shadow slot is written. */
  lemma FinishRest(b: State, a: State, o: Order)
    requires Enterable(b, o.id) && Limited(b, a, o) && o.qty > 0 && o.id < |b.orders|
    requires Match(b.Flat(), o.side, o.price, o.qty).left > 0
    ensures var left := Match(b.Flat(), o.side, o.price, o.qty).left;
            && |a.orders| == |b.orders| && a.Flat() == Enter(b.Flat(), o, false).book
            && ValidState(a.(orders := a.orders[o.id := OrderState(o.price, left, o.side, true, |b.traders|)]))
  {
    hide Match, Enter, Lockstep, View, Handles, SlotsStay, Image;
    EnterBook(b.Flat(), o);
    SlotsStayIds(b.orders, a.orders, o.id);
    var m := Match(b.Flat(), o.side, o.price, o.qty);
    var s := OrderState(o.price, m.left, o.side, true, |b.traders|);
    SlotWritten(a.orders, o.id, s);
    LockstepAppend(m.book, View(a.orders) - {o.id}, o.(qty := m.left));
    assert (View(a.orders) - {o.id})[o.id := Rest(o.side, o.price, m.left)] == View(a.orders[o.id := s]);
    Settled(b, a.(orders := a.orders[o.id := s]), o.id);
  }

  /** The order was filled on entry: a new order's slot is still dead. */
  lemma FinishFilledNew(b: State, a: State, o: Order)
    requires Enterable(b, o.id) && Limited(b, a, o) && o.qty > 0 && (o.id < |b.orders| ==> !b.orders[o.id].alive)
    requires Match(b.Flat(), o.side, o.price, o.qty).left == 0
    ensures ValidState(a) && |a.orders| == |b.orders| && a.Flat() == Enter(b.Flat(), o, false).book
  {
    hide Match, Enter, Lockstep, View, Handles, SlotsStay, Image;
    SlotsStayIds(b.orders, a.orders, o.id);
    FinishIoc(b, a, o);
  }

  /** The order was filled on entry: a modified order's slot is marked dead. */
  lemma FinishFilledModify(b: State, a: State, o: Order)
    requires Enterable(b, o.id) && Limited(b, a, o) && o.qty > 0 && o.id < |b.orders|
    requires Match(b.Flat(), o.side, o.price, o.qty).left == 0
    ensures |a.orders| == |b.orders| && a.Flat() == Enter(b.Flat(), o, false).book
    ensures ValidState(a.(orders := a.orders[o.id := a.orders[o.id].(alive := false)]))
  {
    hide Match, Enter, Lockstep, View, Handles, SlotsStay, Image;
    EnterBook(b.Flat(), o);
    SlotsStayIds(b.orders, a.orders, o.id);
    SlotWritten(a.orders, o.id, a.orders[o.id].(alive := false));
    Settled(b, a.(orders := a.orders[o.id := a.orders[o.id].(alive := false)]), o.id);
  }

  lemma SlotsStayIds(before: seq<OrderState>, after: seq<OrderState>, id: nat)
    requires SlotsStay(before, after, id)
    ensures |after| == |before| && forall x | 0 <= x < |after| :: after[x].qcid == before[x].qcid
  {}

  lemma RemovedLast(b: seq<Order>, o: Order)
    ensures RemoveAt(b + [o], |b|) == b
  {}

  /** Without the entered order every id left was in the engine before. */
  lemma RemovedIds(b: State, a: State)
    requires WellFormed(a.engine) && a.engine != [] && a.engine[|a.engine| - 1].id == |b.traders|
    requires forall i | 0 <= i < |a.engine| :: a.engine[i].id == |b.traders| || Resting(b.engine, a.engine[i].id)
    ensures var r := RemoveAt(a.engine, |a.engine| - 1);
            WellFormed(r) && forall i | 0 <= i < |r| :: Resting(b.engine, r[i].id)
  {}

  /** Fill callbacks change neither the table's size, nor a slot's QuantCup id, nor the
      taker's own slot. */
  ghost predicate SlotsStay(before: seq<OrderState>, after: seq<OrderState>, taker: nat) {
    && |after| == |before|
    && (forall id | 0 <= id < |after| :: after[id].qcid == before[id].qcid)
    && (taker < |after| ==> after[taker] == before[taker])
  }

  lemma FillSlotStays(orders: seq<OrderState>, f: Fill, taker: nat)
    requires f.maker in View(orders) - {taker}
    ensures SlotsStay(orders, FillSlot(orders, f), taker)
  {}

  lemma NothingYet(seqno: nat, taker: Order, named: seq<Fill>, fills: seq<Fill>)
    ensures Trades(LIQUIBOOK, seqno, taker, named[..0]) == [] && Traded(fills[..0]) == 0
  {}

  lemma TradedPrefix(fills: seq<Fill>, k: nat)
    requires k <= |fills|
    ensures Traded(fills[..k]) <= Traded(fills)
  {
    assert fills == fills[..k] + fills[k..];
    TradedConcat(fills[..k], fills[k..]);
  }

  /** The next arena slot is not the id of a resting order, and filling it renames nothing. */
  lemma FreshSlot(engine: seq<Order>, traders: seq<Field>, traders': seq<Field>, orders: seq<OrderState>)
    requires Handles(engine, traders, orders) && |traders'| == |traders| + 1 && traders'[..|traders|] == traders
    ensures !Resting(engine, |traders|)
    ensures Image(engine, Names(traders'), 0) == Image(engine, Names(traders), 0)
  {}

  lemma EnterParts(b: seq<Order>, o: Order)
    ensures var e := Enter(b, o, false); var m := Match(b, o.side, o.price, o.qty);
            && e.fills == m.fills && e.left == m.left
            && (e.left > 0 ==> e.book == m.book + [o.(qty := e.left)])
            && (e.left == 0 ==> e.book == m.book)
  {}

  lemma EnterIds(b: seq<Order>, o: Order)
    requires WellFormed(b) && !Resting(b, o.id) && o.qty > 0
    ensures var e := Enter(b, o, false);
            && WellFormed(e.book)
            && (forall i | 0 <= i < |e.book| :: e.book[i].id == o.id || Resting(b, e.book[i].id))
            && (if e.left > 0 then e.book != [] && e.book[|e.book| - 1].id == o.id
                else forall i | 0 <= i < |e.book| :: Resting(b, e.book[i].id))
  {
    hide Match;
    var m := Match(b, o.side, o.price, o.qty);
    MatchKeeps(b, o.side, o.price, o.qty);
    ShrunkResting(b, m.book, o.id);
    forall i | 0 <= i < |m.book| ensures Resting(b, m.book[i].id) {
      assert Origin(b, m.book[i]);
      var j :| 0 <= j < |b| && SameOrder(b[j], m.book[i]);
      assert b[j].id == m.book[i].id;
    }
  }

  lemma MakersInRange(engine: seq<Order>, side: Side, limit: int, qty: nat, traders: seq<Field>,
                      orders: seq<OrderState>)
    requires WellFormed(engine) && Handles(engine, traders, orders)
    ensures forall k | 0 <= k < |Match(engine, side, limit, qty).fills| ::
              Match(engine, side, limit, qty).fills[k].maker < |traders|
  {
    hide Match, Traded;
    var fills := Match(engine, side, limit, qty).fills;
    MatchAllocates(engine, side, limit, qty);
    forall k | 0 <= k < |fills| ensures fills[k].maker < |traders| {
      assert HasMaker(engine, side, limit, fills[k]);
      var i: nat :| FairFill(engine, side, limit, fills[k], i);
      assert Handled(engine[i].id, traders, orders);
    }
  }
}
