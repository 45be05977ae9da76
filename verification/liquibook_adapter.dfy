/** The Liquibook adapter: forward and reverse id maps beside a book that names orders by
    ids of its own, capacity pre-sizing, and cancel + reinsert handlers.

    Pointers to orders are indices into `all`, the vector of every order ever built;
    Liquibook numbers orders in construction order, so an order's own id is its index + 1. */
module LiquibookAdapter {
  import opened Basics
  import opened Contract
  import opened MatchingLaws
  import opened Reports
  import opened Shadow
  import opened EngineImages

  const TABLE_SIZE: nat := 0x20_0000

  datatype LoState = Created | InBook | Complete | Withdrawn
  datatype SimpleOrder = SimpleOrder(side: Side, price: int, openQty: nat, state: LoState)

  predicate Rests(lo: SimpleOrder) {
    lo.state.InBook? && lo.openQty > 0
  }

  predicate RestsAt(all: seq<SimpleOrder>, id: nat) {
    1 <= id <= |all| && Rests(all[id - 1])
  }

  /** The resting orders by their Liquibook ids, as the order objects tell it. */
  function ViewAll(all: seq<SimpleOrder>): map<nat, Rest> {
    map id: nat | 1 <= id <= |all| && RestsAt(all, id) ::
      Rest(all[id - 1].side, all[id - 1].price, all[id - 1].openQty)
  }

  /** The harness id of a Liquibook id. */
  function Names(lb2ext: seq<nat>): nat -> nat {
    (id: nat) => if id < |lb2ext| then lb2ext[id] else 0
  }

  /** Every resting order is reachable from its harness id and knows its harness id. */
  ghost predicate MappedBack(id: nat, orders: seq<Option<nat>>, lb2ext: seq<nat>) {
    && 1 <= id < |lb2ext| && lb2ext[id] < |orders|
    && orders[lb2ext[id]] == Some(id - 1)
  }

  ghost predicate Linked(engine: seq<Order>, all: seq<SimpleOrder>, orders: seq<Option<nat>>, lb2ext: seq<nat>) {
    && |all| < |lb2ext|
    && (forall i | 0 <= i < |engine| :: MappedBack(engine[i].id, orders, lb2ext))
    && (forall x | 0 <= x < |orders| && orders[x].Some? ::
          orders[x].value < |all| && lb2ext[orders[x].value + 1] == x)
  }

  /** The engine's own update of a maker's order object when it fills. */
  function FillOrder(all: seq<SimpleOrder>, id: nat, qty: nat): seq<SimpleOrder>
    requires 1 <= id <= |all|
  {
    var lo := all[id - 1];
    if lo.openQty > qty then all[id - 1 := lo.(openQty := lo.openQty - qty)]
    else all[id - 1 := lo.(openQty := 0, state := Complete)]
  }

  lemma FillOrderView(all: seq<SimpleOrder>, f: Fill)
    requires f.maker in ViewAll(all) && 0 < f.qty
    ensures ViewAll(FillOrder(all, f.maker, f.qty)) == ApplyFill(ViewAll(all), f)
    ensures |FillOrder(all, f.maker, f.qty)| == |all|
    ensures all[|all| - 1].state.Created? ==> FillOrder(all, f.maker, f.qty)[|all| - 1] == all[|all| - 1]
  {}

  lemma ViewAppend(all: seq<SimpleOrder>, lo: SimpleOrder)
    requires !Rests(lo)
    ensures ViewAll(all + [lo]) == ViewAll(all)
  {}

  lemma ViewSet(all: seq<SimpleOrder>, p: nat, lo: SimpleOrder)
    requires p < |all|
    ensures ViewAll(all[p := lo])
         == if Rests(lo) then ViewAll(all)[p + 1 := Rest(lo.side, lo.price, lo.openQty)] else ViewAll(all) - {p + 1}
  {}

  /** A harness id rests exactly when its forward slot points at a resting order object. */
  lemma FoundByMap(engine: seq<Order>, all: seq<SimpleOrder>, orders: seq<Option<nat>>, lb2ext: seq<nat>, id: nat)
    requires WellFormed(engine) && Lockstep(engine, ViewAll(all)) && Linked(engine, all, orders, lb2ext)
    ensures var flat := Image(engine, Names(lb2ext), 0);
            var known := id < |orders| && orders[id].Some? && Rests(all[orders[id].value]);
            && WellFormed(flat)
            && (Find(flat, id).Some? <==> known)
            && (known ==>
                  var i := Find(flat, id).value;
                  && Find(engine, orders[id].value + 1) == Some(i)
                  && engine[i].side == all[orders[id].value].side && engine[i].price == all[orders[id].value].price
                  && engine[i].qty == all[orders[id].value].openQty)
  {
    hide Find;
    var flat := Image(engine, Names(lb2ext), 0);
    forall i, j | 0 <= i < j < |flat| ensures flat[i].id != flat[j].id {
      assert MappedBack(engine[i].id, orders, lb2ext) && MappedBack(engine[j].id, orders, lb2ext);
    }
    FindSpec(flat, id);
    if Find(flat, id).Some? {
      var i := Find(flat, id).value;
      assert MappedBack(engine[i].id, orders, lb2ext);
      LockstepAt(engine, ViewAll(all), i);
    }
    if id < |orders| && orders[id].Some? && Rests(all[orders[id].value]) {
      var e := orders[id].value + 1;
      assert e in ViewAll(all);
      LockstepFinds(engine, ViewAll(all), e);
      FindSpec(engine, e);
      assert flat[Find(engine, e).value].id == id;
    }
  }

  /** Pointing a free harness id at a freshly built order keeps the maps linked. */
  lemma LinkNew(engine: seq<Order>, all: seq<SimpleOrder>, orders: seq<Option<nat>>, lb2ext: seq<nat>, ext: nat,
                lo: SimpleOrder)
    requires Linked(engine, all, orders, lb2ext) && Lockstep(engine, ViewAll(all))
    requires |all| + 1 < |lb2ext| && ext < |orders|
    requires !Resting(Image(engine, Names(lb2ext), 0), ext)
    ensures var p := |all|;
            var lb2ext' := lb2ext[p + 1 := ext];
            && Linked(engine, all + [lo], orders[ext := Some(p)], lb2ext')
            && Image(engine, Names(lb2ext'), 0) == Image(engine, Names(lb2ext), 0)
            && MappedBack(p + 1, orders[ext := Some(p)], lb2ext')
  {
    var p := |all|;
    var lb2ext' := lb2ext[p + 1 := ext];
    var flat := Image(engine, Names(lb2ext), 0);
    forall i | 0 <= i < |engine|
      ensures MappedBack(engine[i].id, orders[ext := Some(p)], lb2ext')
      ensures Names(lb2ext)(engine[i].id) == Names(lb2ext')(engine[i].id)
    {
      LockstepAt(engine, ViewAll(all), i);
      assert MappedBack(engine[i].id, orders, lb2ext);
      assert flat[i].id == lb2ext[engine[i].id];
    }
    ImageSame(engine, Names(lb2ext), Names(lb2ext'), 0);
  }

  lemma LinkedShrinks(engine: seq<Order>, engine': seq<Order>, all: seq<SimpleOrder>, all': seq<SimpleOrder>,
                      orders: seq<Option<nat>>, lb2ext: seq<nat>)
    requires Linked(engine, all, orders, lb2ext) && ShrunkFrom(engine, engine') && |all'| == |all|
    ensures Linked(engine', all', orders, lb2ext)
  {}

  class Adapter {
    /** Liquibook's own book: orders under their Liquibook ids. */
    var engine: seq<Order>
    var all: seq<SimpleOrder>
    var orders: seq<Option<nat>>
    var lb2ext: seq<nat>
    var lbBuilt: nat
    var seqno: nat
    var filled: nat
    var reports: seq<Report>

    /** The book in harness ids. */
    ghost function Flat(): seq<Order>
      reads this
    {
      Image(engine, Names(lb2ext), 0)
    }

    ghost predicate Valid()
      reads this
    {
      WellFormed(engine) && Lockstep(engine, ViewAll(all)) && Linked(engine, all, orders, lb2ext)
    }

    constructor ()
      ensures Valid() && Flat() == [] && reports == []
      ensures |orders| == |lb2ext| == TABLE_SIZE && lbBuilt == 0 && all == []
    {
      engine, all, reports := [], [], [];
      orders := seq(TABLE_SIZE, _ => None);
      lb2ext := seq(TABLE_SIZE, _ => 0);
      lbBuilt, seqno, filled := 0, 0, 0;
    }

    /** engine_prebuild: capacity only. Afterwards a new order's id fits the forward table,
        and the reverse table is larger than the number of orders announced so far. */
    method Prebuild(m: Msg)
      requires Valid() && engine == [] && all == [] && lbBuilt < |lb2ext|
      modifies this`orders, this`lb2ext, this`lbBuilt
      ensures Valid()
      ensures lbBuilt == old(lbBuilt) + (if m.Cancel? then 0 else 1) && lbBuilt < |lb2ext|
      ensures |orders| >= old(|orders|) && (m.New? ==> m.id < |orders|)
    {
      if m.Cancel? {
        return;
      }
      if m.New? {
        if m.id >= |orders| {
          var size := if 2 * |orders| > m.id + 1 then 2 * |orders| else m.id + 1;
          orders := orders + seq(size - |orders|, _ => None);
        }
      }
      lbBuilt := lbBuilt + 1;
      if lbBuilt >= |lb2ext| {
        var size := if 2 * |lb2ext| > lbBuilt + 1 then 2 * |lb2ext| else lbBuilt + 1;
        lb2ext := lb2ext + seq(size - |lb2ext|, _ => 0);
      }
    }

    /** The listener: one Trade per fill, both ids through the reverse table. */
    method OnFill(takerLb: nat, makerLb: nat, qty: nat, price: int)
      requires takerLb < |lb2ext| && makerLb < |lb2ext|
      modifies this`reports, this`filled
      ensures filled == old(filled) + qty
      ensures reports == old(reports) + [Report(TRADE, seqno, 0, 0, price, qty, lb2ext[makerLb], lb2ext[takerLb])]
    {
      reports := reports + [Report(TRADE, seqno, 0, 0, price, qty, lb2ext[makerLb], lb2ext[takerLb])];
      filled := filled + qty;
    }

    /** The callbacks of one match, in match order: each maker's order object is updated and
        the listener told. */
    method FillMakers(fills: seq<Fill>, ghost side: Side, ghost taker: Order)
      requires all != [] && all[|all| - 1].state.Created? && |all| < |lb2ext| && filled == 0
      requires Backed(ViewAll(all), side, fills) && taker.id == lb2ext[|all|]
      modifies this`all, this`reports, this`filled
      ensures |all| == old(|all|) && all[|all| - 1] == old(all[|all| - 1])
      ensures ViewAll(all) == ApplyFills(old(ViewAll(all)), fills)
      ensures filled == Traded(FillsImage(fills, Names(lb2ext), 0))
      ensures reports == old(reports) + Trades(LIQUIBOOK, seqno, taker, FillsImage(fills, Names(lb2ext), 0))
    {
      hide Traded, ViewAll, Trades, FillsImage, FillOrder;
      ghost var target := ApplyFills(ViewAll(all), fills);
      ghost var named := FillsImage(fills, Names(lb2ext), 0);
      assert fills[0..] == fills;
      var k := 0;
      NoTradesYet(seqno, taker, named);
      while k < |fills|
        invariant k <= |fills| && |all| == old(|all|) && all[|all| - 1] == old(all[|all| - 1])
        invariant Backed(ViewAll(all), side, fills[k..]) && ApplyFills(ViewAll(all), fills[k..]) == target
        invariant filled == Traded(named[..k])
        invariant reports == old(reports) + Trades(LIQUIBOOK, seqno, taker, named[..k])
      {
        var f := fills[k];
        assert fills[k..][0] == f && fills[k..][1..] == fills[k + 1..];
        TradesNext(LIQUIBOOK, seqno, taker, named, k);
        TradedNext(named, k);
        FillsImageAt(fills, k, Names(lb2ext), 0);
        InView(all, f.maker);
        FillOrderView(all, f);
        all := FillOrder(all, f.maker, f.qty);
        OnFill(|all|, f.maker, f.qty, f.price);
        k := k + 1;
      }
      assert fills[k..] == [] && named[..k] == named;
    }

    /** SimpleOrderBook::add for the newest order: match, then rest what is left unless the
        order is immediate-or-cancel. */
    method BookAdd(ioc: bool)
      requires Valid() && all != [] && all[|all| - 1].state.Created? && all[|all| - 1].openQty > 0
      requires filled == 0 && !Resting(engine, |all|)
      requires MappedBack(|all|, orders, lb2ext)
      modifies this`engine, this`all, this`reports, this`filled
      ensures Valid() && |all| == old(|all|)
      ensures var lo := old(all[|all| - 1]);
              var taker := Order(lb2ext[|all|], lo.side, lo.price, lo.openQty);
              var e := Enter(old(Flat()), taker, ioc);
              && Flat() == e.book && filled == Traded(e.fills)
              && reports == old(reports) + Trades(LIQUIBOOK, seqno, taker, e.fills)
    {
      hide Lockstep, Match, Enter, Image, Traded, ViewAll, Trades, FillsImage, WellFormed, Linked;
      var p := |all| - 1;
      var lo := all[p];
      var o := Order(p + 1, lo.side, lo.price, lo.openQty);
      ghost var all0, engine0 := all, engine;
      var e := Enter(engine, o, ioc);
      EnterImage(engine, o, ioc, Names(lb2ext), 0);
      EnterStays(engine, ViewAll(all), o, ioc);
      LinkedSmall(engine, all, orders, lb2ext);
      FillMakers(e.fills, lo.side, ImageOf(o, Names(lb2ext), 0));
      var rests := e.left > 0 && !ioc;
      var lo' := lo.(openQty := e.left, state := if e.left == 0 then Complete else if ioc then Withdrawn else InBook);
      ViewSet(all, p, lo');
      NotInView(all, p);
      all := all[p := lo'];
      engine := e.book;
      LinkedEntered(engine0, engine, all0, all, orders, lb2ext);
    }

    /** make_order, map_lb_id and the forward store: builds an order and points both tables at
        it. Both stores are in bounds by the prebuild pass. */
    method MakeOrder(ext: nat, side: Side, price: int, qty: nat)
      requires Valid() && !Resting(Flat(), ext)
      requires |all| + 1 < |lb2ext| && ext < |orders|
      modifies this`all, this`orders, this`lb2ext
      ensures Valid() && Flat() == old(Flat())
      ensures all == old(all) + [SimpleOrder(side, price, qty, Created)]
      ensures |orders| == old(|orders|) && |lb2ext| == old(|lb2ext|)
      ensures MappedBack(|all|, orders, lb2ext) && lb2ext[|all|] == ext && !Resting(engine, |all|)
    {
      hide Lockstep, Image, ViewAll, WellFormed, Linked;
      var lo := SimpleOrder(side, price, qty, Created);
      LinkNew(engine, all, orders, lb2ext, ext, lo);
      ViewAppend(all, lo);
      IdIsFresh(engine, all);
      lb2ext := lb2ext[|all| + 1 := ext];
      orders := orders[ext := Some(|all|)];
      all := all + [lo];
    }

    method OnNewOrder(m: Msg)
      requires Valid() && m.New? && Admissible(Flat(), m)
      requires |all| + 1 < |lb2ext| && m.id < |orders|
      modifies this
      ensures Valid() && |orders| == old(|orders|) && |lb2ext| == old(|lb2ext|) && |all| == old(|all|) + 1
      ensures lbBuilt == old(lbBuilt)
      ensures var s := Step(old(Flat()), m);
              Flat() == s.book && reports == old(reports) + Worded(LIQUIBOOK, s.event)
    {
      hide Lockstep, Enter, Image, ViewAll, WellFormed, Linked, Traded, Trades;
      EnterFilled(Flat(), Order(m.id, m.side, m.price, m.qty), m.ioc);
      seqno, filled := m.seqno, 0;
      reports := reports + [Ack(ORDER_ACK, m.seqno, m.id, m.side.Code(), m.price, m.qty)];
      MakeOrder(m.id, m.side, m.price, m.qty);
      BookAdd(m.ioc);
      if m.ioc && filled < m.qty {
        reports := reports + [Ack(CANCEL_ACK, m.seqno, m.id, m.side.Code(), m.price, m.qty - filled)];
      }
    }

    /** find_order and the resting test on the order object. */
    method FindResting(ext: nat) returns (r: Option<nat>)
      requires Valid()
      ensures var at := Find(Flat(), ext);
              && (r.Some? <==> at.Some?)
              && (r.Some? ==>
                    && r.value < |all| && Rests(all[r.value])
                    && Find(engine, r.value + 1) == at
                    && Flat()[at.value] == Order(ext, all[r.value].side, all[r.value].price, all[r.value].openQty))
    {
      hide Find, Lockstep, ViewAll, WellFormed;
      FoundByMap(engine, all, orders, lb2ext, ext);
      FindSpec(Flat(), ext);
      r := None;
      if ext < |orders| && orders[ext].Some? && Rests(all[orders[ext].value]) {
        r := orders[ext];
      }
    }

    /** SimpleOrderBook::cancel, by pointer. */
    method BookCancel(p: nat)
      requires Valid() && p < |all| && Rests(all[p]) && Find(engine, p + 1).Some?
      modifies this`engine, this`all
      ensures Valid() && |all| == old(|all|)
      ensures all[p].side == old(all[p].side) && all[p].price == old(all[p].price)
      ensures Flat() == RemoveAt(old(Flat()), Find(old(engine), p + 1).value)
    {
      hide Lockstep, Image, ViewAll, Linked, Find;
      var at := Find(engine, p + 1).value;
      FindSpec(engine, p + 1);
      ImageRemove(engine, at, Names(lb2ext), 0);
      LockstepRemove(engine, ViewAll(all), at);
      RemovedKeeps(engine, at);
      var lo := all[p].(state := Withdrawn);
      ViewSet(all, p, lo);
      LinkedShrinks(engine, RemoveAt(engine, at), all, all[p := lo], orders, lb2ext);
      engine := RemoveAt(engine, at);
      all := all[p := lo];
    }

    method OnCancel(m: Msg)
      requires Valid() && m.Cancel?
      modifies this
      ensures Valid() && |orders| == old(|orders|) && |lb2ext| == old(|lb2ext|) && |all| == old(|all|)
      ensures lbBuilt == old(lbBuilt)
      ensures var s := Step(old(Flat()), m);
              Flat() == s.book && reports == old(reports) + Worded(LIQUIBOOK, s.event)
    {
      hide Lockstep, Image, ViewAll, WellFormed, Linked, Find;
      var lo := FindResting(m.id);
      match lo
      case Some(p) =>
        BookCancel(p);
        reports := reports + [Ack(CANCEL_ACK, m.seqno, m.id, all[p].side.Code(), all[p].price, 0)];
      case None =>
        reports := reports + [Ack(CANCEL_REJECT, m.seqno, m.id, 0, 0, 0)];
    }

    /** Cancel and reinsert as a new order under the same harness id; the ModifyAck follows
        the trades. */
    method OnModify(m: Msg)
      requires Valid() && m.Modify? && Admissible(Flat(), m)
      requires |all| + 1 < |lb2ext|
      modifies this
      ensures Valid() && |orders| == old(|orders|) && |lb2ext| == old(|lb2ext|) && |all| <= old(|all|) + 1
      ensures lbBuilt == old(lbBuilt)
      ensures var s := Step(old(Flat()), m);
              Flat() == s.book && reports == old(reports) + Worded(LIQUIBOOK, s.event)
    {
      hide Lockstep, Enter, Image, Linked, ViewAll, WellFormed, Traded, Trades, Find;
      FoundByMap(engine, all, orders, lb2ext, m.id);
      ghost var at := Find(Flat(), m.id);
      FindSpec(Flat(), m.id);
      seqno, filled := m.seqno, 0;
      var cur := FindResting(m.id);
      if cur.None? {
        reports := reports + [Ack(MODIFY_REJECT, m.seqno, m.id, 0, 0, 0)];
        return;
      }
      RemovedKeeps(Flat(), at.value);
      BookCancel(cur.value);
      MakeOrder(m.id, m.side, m.price, m.qty);
      BookAdd(false);
      reports := reports + [Ack(MODIFY_ACK, m.seqno, m.id, m.side.Code(), m.price, m.qty)];
    }

    /** A whole run: the prebuild pass over the workload, then one handler call per message.
        Every table store is in bounds, the book is the contract's after every message, and
        the stream is the contract's events in Liquibook's wording. */
    method Deliver(msgs: seq<Msg>)
      requires Valid() && engine == [] && all == [] && reports == [] && lbBuilt == 0 && 0 < |lb2ext|
      requires AdmissibleRun([], msgs)
      modifies this
      ensures Valid() && Flat() == Run([], msgs).book
      ensures reports == Stream(LIQUIBOOK, Run([], msgs).events)
    {
      hide Step, Worded, Stream, Run, Admissible, Lockstep, Image, ViewAll, WellFormed, Linked;
      var k := 0;
      while k < |msgs|
        invariant k <= |msgs| && Valid() && engine == [] && all == [] && reports == []
        invariant lbBuilt == Builds(msgs[..k]) && lbBuilt < |lb2ext|
        invariant forall j | 0 <= j < k && msgs[j].New? :: msgs[j].id < |orders|
      {
        BuildsNext(msgs, k);
        Prebuild(msgs[k]);
        k := k + 1;
      }
      BuildsNothing(msgs);
      k := 0;
      EmptyStream(LIQUIBOOK, msgs);
      EmptyImage(Names(lb2ext), 0);
      while k < |msgs|
        invariant k <= |msgs| && Valid()
        invariant Flat() == Run([], msgs[..k]).book
        invariant reports == Stream(LIQUIBOOK, Run([], msgs[..k]).events)
        invariant |all| <= Builds(msgs[..k]) && Builds(msgs) < |lb2ext|
        invariant forall j | 0 <= j < |msgs| && msgs[j].New? :: msgs[j].id < |orders|
      {
        var m := msgs[k];
        StreamNext(LIQUIBOOK, [], msgs, k);
        BuildsNext(msgs, k);
        BuildsMonotone(msgs, k + 1);
        assert Admissible(Run([], msgs[..k]).book, m);
        match m {
          case New(_, _, _, _, _, _) => OnNewOrder(m);
          case Cancel(_, _) => OnCancel(m);
          case Modify(_, _, _, _, _) => OnModify(m);
        }
        k := k + 1;
      }
      assert msgs[..k] == msgs;
    }
  }

  /** How many orders a message sequence may build: one per new and one per modify. */
  function Builds(msgs: seq<Msg>): nat {
    if msgs == [] then 0 else Builds(msgs[..|msgs| - 1]) + (if msgs[|msgs| - 1].Cancel? then 0 else 1)
  }

  lemma BuildsNext(msgs: seq<Msg>, k: nat)
    requires k < |msgs|
    ensures Builds(msgs[..k + 1]) == Builds(msgs[..k]) + (if msgs[k].Cancel? then 0 else 1)
  {
    assert msgs[..k + 1][..k] == msgs[..k];
  }

  lemma BuildsNothing(msgs: seq<Msg>)
    ensures Builds(msgs[..0]) == 0 && msgs[..|msgs|] == msgs
  {}

  lemma {:induction false} BuildsMonotone(msgs: seq<Msg>, k: nat)
    requires k <= |msgs|
    ensures Builds(msgs[..k]) <= Builds(msgs)
    decreases |msgs| - k
  {
    if k < |msgs| {
      BuildsNext(msgs, k);
      BuildsMonotone(msgs, k + 1);
    } else {
      assert msgs[..k] == msgs;
    }
  }

  lemma IdIsFresh(engine: seq<Order>, all: seq<SimpleOrder>)
    requires Lockstep(engine, ViewAll(all))
    ensures !Resting(engine, |all| + 1)
  {}

  lemma NoTradesYet(seqno: nat, taker: Order, fills: seq<Fill>)
    ensures Trades(LIQUIBOOK, seqno, taker, fills[..0]) == [] && Traded(fills[..0]) == 0
  {}

  lemma InView(all: seq<SimpleOrder>, id: nat)
    requires id in ViewAll(all)
    ensures 1 <= id <= |all| && Rests(all[id - 1])
  {}

  lemma NotInView(all: seq<SimpleOrder>, p: nat)
    requires p < |all| && !Rests(all[p])
    ensures ViewAll(all) - {p + 1} == ViewAll(all)
  {}

  lemma LinkedSmall(engine: seq<Order>, all: seq<SimpleOrder>, orders: seq<Option<nat>>, lb2ext: seq<nat>)
    requires Linked(engine, all, orders, lb2ext)
    ensures |all| < |lb2ext|
  {}

  lemma LinkedEntered(engine: seq<Order>, engine': seq<Order>, all: seq<SimpleOrder>, all': seq<SimpleOrder>,
                      orders: seq<Option<nat>>, lb2ext: seq<nat>)
    requires Linked(engine, all, orders, lb2ext) && |all'| == |all| && MappedBack(|all|, orders, lb2ext)
    requires forall i | 0 <= i < |engine'| :: engine'[i].id == |all| || Resting(engine, engine'[i].id)
    ensures Linked(engine', all', orders, lb2ext)
  {}
}
