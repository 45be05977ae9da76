/** The patched TechieBoy order book: price map to level slot, levels as FIFO queues, an id
    index and a cached best bid and offer, proved against the flat arrival-ordered book.

    The price map is a BTreeMap in the original; iterating it from its better end is
    modelled by `BestFirst`. */
module TechieBoyBook {
  import opened Basics
  import opened Contract
  import opened PriceLevels
  import opened MatchingLaws
  import opened LevelScan

  const U64_MAX: nat := 0xFFFF_FFFF_FFFF_FFFF

  datatype HalfBook = HalfBook(priceMap: map<nat, nat>, priceLevels: seq<seq<Queued>>)

  /** The queue a half book keeps for a price; empty when the price was never occupied. */
  function LevelAt(h: HalfBook, price: int): seq<Queued> {
    if price in h.priceMap && h.priceMap[price] < |h.priceLevels| then h.priceLevels[h.priceMap[price]] else []
  }

  ghost predicate SlotsOk(h: HalfBook) {
    && (forall p | p in h.priceMap :: h.priceMap[p] < |h.priceLevels|)
    && (forall p, q | p in h.priceMap && q in h.priceMap && p != q :: h.priceMap[p] != h.priceMap[q])
  }

  /** The half book holds exactly the queues of one side of the flat book. */
  ghost predicate Holds(h: HalfBook, b: seq<Order>, side: Side) {
    SlotsOk(h) && forall p :: LevelAt(h, p) == Queue(b, side, p)
  }

  ghost predicate Mirrors(bid: HalfBook, ask: HalfBook, loc: map<nat, Loc>, b: seq<Order>) {
    && Holds(bid, b, Buy) && Holds(ask, b, Sell)
    && WellFormed(b) && Indexed(b, loc, Slots(bid.priceMap, ask.priceMap))
  }

  /** Best price as the engine caches it: a sentinel stands for an empty side. */
  function Cached(b: seq<Order>, side: Side): int {
    var p := BestPrice(b, side);
    if p.Some? then p.value else if side.Buy? then 0 else U64_MAX
  }

  function Retain(level: seq<Queued>, id: nat): (r: seq<Queued>)
    ensures NoId(r, id)
  {
    if level == [] then []
    else if level[0].id == id then Retain(level[1..], id)
    else [level[0]] + Retain(level[1..], id)
  }

  // ----- iterating the price map ------------------------------------------------------

  lemma {:induction false} HasBest(keys: set<nat>, taker: Side) returns (best: nat)
    requires keys != {}
    ensures best in keys && forall y | y in keys :: !Better(taker, y, best)
  {
    var x :| x in keys;
    best := x;
    if keys != {x} {
      var other := HasBest(keys - {x}, taker);
      best := if Better(taker, x, other) then x else other;
    }
    assert forall y | y in keys :: y == x || y in keys - {x};
  }

  /** The keys from the taker's better end: ascending against asks, descending against bids. */
  method BestFirst(keys: set<nat>, taker: Side) returns (r: seq<nat>)
    ensures forall i, j | 0 <= i < j < |r| :: Better(taker, r[i], r[j])
    ensures forall x :: x in r <==> x in keys
  {
    r := [];
    var rest := keys;
    while rest != {}
      invariant rest <= keys && forall x :: x in r <==> x in keys && x !in rest
      invariant forall i, j | 0 <= i < j < |r| :: Better(taker, r[i], r[j])
      invariant forall i, x | 0 <= i < |r| && x in rest :: Better(taker, r[i], x)
    {
      var _ := HasBest(rest, taker);
      var x :| x in rest && forall y | y in rest :: !Better(taker, y, x);
      forall y | y in rest && y != x ensures Better(taker, x, y) {
        assert !Better(taker, y, x);
      }
      assert forall i | 0 <= i < |r| :: Better(taker, r[i], x);
      r := r + [x];
      rest := rest - {x};
    }
  }

  // ----- keeping the halves in step with the flat book -------------------------------

  function SetLevel(h: HalfBook, price: nat, level: seq<Queued>): HalfBook
    requires price in h.priceMap && h.priceMap[price] < |h.priceLevels|
  {
    h.(priceLevels := h.priceLevels[h.priceMap[price] := level])
  }

  lemma HoldsSetLevel(h: HalfBook, b: seq<Order>, b': seq<Order>, side: Side, price: nat)
    requires Holds(h, b, side) && price in h.priceMap
    requires OtherQueuesSame(b, b', side, price)
    ensures Holds(SetLevel(h, price, Queue(b', side, price)), b', side)
  {}

  lemma HoldsOther(h: HalfBook, b: seq<Order>, b': seq<Order>, side: Side, other: Side, price: int)
    requires Holds(h, b, side) && side != other && OtherQueuesSame(b, b', other, price)
    ensures Holds(h, b', side)
  {}

  function HalfOf(bid: HalfBook, ask: HalfBook, side: Side): HalfBook {
    if side.Buy? then bid else ask
  }

  /** Matching one level of the opposite half, or passing over it with nothing left. */
  lemma LevelStep(bid: HalfBook, ask: HalfBook, loc: map<nat, Loc>, b: seq<Order>, taker: Side, limit: int,
                  price: nat, left: nat) returns (b': seq<Order>)
    requires Mirrors(bid, ask, loc, b) && Crosses(taker, limit, price)
    requires price in HalfOf(bid, ask, taker.Opposite()).priceMap
    requires left == 0 || NothingBetter(b, taker, price)
    ensures var s := Sweep(LevelAt(HalfOf(bid, ask, taker.Opposite()), price), left, price);
            && Reaches(b, taker, limit, left, s.fills, b', s.left)
            && Queue(b', taker.Opposite(), price) == s.level
            && (if taker.Buy? then Mirrors(bid, SetLevel(ask, price, s.level), loc - s.gone, b')
                else Mirrors(SetLevel(bid, price, s.level), ask, loc - s.gone, b'))
    ensures OtherQueuesSame(b, b', taker.Opposite(), price)
  {
    hide Match, Queue;
    var opp := taker.Opposite();
    var h := HalfOf(bid, ask, opp);
    var level := LevelAt(h, price);
    assert level == Queue(b, opp, price);
    var slots := Slots(bid.priceMap, ask.priceMap);
    if left == 0 {
      b' := b;
      ReachesSelf(b, taker, limit, 0);
      MinusNothing(loc);
    } else {
      b' := SweepIsMatch(b, taker, limit, price, left, level, loc, slots);
    }
    HoldsSetLevel(h, b, b', opp, price);
    HoldsOther(HalfOf(bid, ask, taker), b, b', taker, opp, price);
  }

  /** When every crossing price has been walked, the matcher has nothing left to do. */
  lemma WalkDone(h: HalfBook, b: seq<Order>, taker: Side, limit: int, prices: seq<nat>, k: nat, left: nat)
    requires Holds(h, b, taker.Opposite()) && k <= |prices|
    requires forall x :: x in prices <==> x in h.priceMap
    requires forall i, j | 0 <= i < j < |prices| :: Better(taker, prices[i], prices[j])
    requires k == |prices| || !Crosses(taker, limit, prices[k])
    requires left == 0 || forall j | 0 <= j < k :: Queue(b, taker.Opposite(), prices[j]) == []
    ensures Match(b, taker, limit, left) == Outcome([], b, left)
  {
    var r := BestMaker(b, taker, limit);
    if left > 0 && r.Some? {
      var p := b[r.value].price;
      QueueEmpty(b, taker.Opposite(), p);
      assert false;
    }
  }

  /** All prices better than the next one have been emptied, so nothing better rests. */
  lemma NextIsBest(h: HalfBook, b: seq<Order>, taker: Side, prices: seq<nat>, k: nat)
    requires Holds(h, b, taker.Opposite()) && k < |prices|
    requires forall x :: x in prices <==> x in h.priceMap
    requires forall i, j | 0 <= i < j < |prices| :: Better(taker, prices[i], prices[j])
    requires forall j | 0 <= j < k :: Queue(b, taker.Opposite(), prices[j]) == []
    ensures NothingBetter(b, taker, prices[k])
  {
    hide Queue;
    forall p | Better(taker, p, prices[k]) ensures Queue(b, taker.Opposite(), p) == [] {
      assert LevelAt(h, p) == Queue(b, taker.Opposite(), p);
      if p in h.priceMap {
        assert p in prices;
        var j :| 0 <= j < |prices| && prices[j] == p;
      }
    }
  }

  lemma HoldsAppend(h: HalfBook, b: seq<Order>, o: Order)
    requires Holds(h, b, o.side) && o.price in h.priceMap
    ensures Holds(SetLevel(h, o.price, LevelAt(h, o.price) + [Queued(o.id, o.qty)]), b + [o], o.side)
  {}

  function NewLevel(h: HalfBook, price: nat, q: Queued): HalfBook {
    HalfBook(h.priceMap[price := |h.priceLevels|], h.priceLevels + [[q]])
  }

  lemma HoldsNewLevel(h: HalfBook, b: seq<Order>, o: Order)
    requires Holds(h, b, o.side) && o.price >= 0 && o.price !in h.priceMap
    ensures Holds(NewLevel(h, o.price, Queued(o.id, o.qty)), b + [o], o.side)
  {}

  lemma HoldsOtherAppend(h: HalfBook, b: seq<Order>, o: Order)
    requires Holds(h, b, o.side.Opposite())
    ensures Holds(h, b + [o], o.side.Opposite())
  {}

  lemma IndexedAppend(b: seq<Order>, loc: map<nat, Loc>, slots: Slots, slots': Slots, o: Order)
    requires Indexed(b, loc, slots) && !Resting(b, o.id)
    requires forall sd, p | p in slots.Of(sd) :: p in slots'.Of(sd) && slots'.Of(sd)[p] == slots.Of(sd)[p]
    requires o.price in slots'.Of(o.side)
    ensures Indexed(b + [o], loc[o.id := Loc(o.side, slots'.Of(o.side)[o.price], o.price)], slots')
  {
    var a := b + [o];
    var loc' := loc[o.id := Loc(o.side, slots'.Of(o.side)[o.price], o.price)];
    forall i | 0 <= i < |a| ensures Located(a[i], loc', slots') {
      if i < |b| {
        assert a[i] == b[i] && Located(b[i], loc, slots);
      }
    }
    forall id | id in loc' ensures Resting(a, id) {
      if id == o.id {
        assert a[|b|].id == id;
      } else {
        assert Resting(b, id);
        var i :| 0 <= i < |b| && b[i].id == id;
        assert a[i].id == id;
      }
    }
  }

  lemma WellFormedAppend(b: seq<Order>, o: Order)
    requires WellFormed(b) && !Resting(b, o.id) && o.qty > 0
    ensures WellFormed(b + [o])
  {}

  /** The best price is the first occupied one in the walk from the better end. */
  lemma BestPriceIs(b: seq<Order>, side: Side, price: int)
    requires Queue(b, side, price) != []
    requires forall p | Better(side.Opposite(), p, price) :: Queue(b, side, p) == []
    ensures BestPrice(b, side) == Some(price)
  {
    QueueEmpty(b, side, price);
    var r := BestPrice(b, side);
    if r.Some? {
      QueueEmpty(b, side, r.value);
    }
  }

  lemma NoBestPrice(b: seq<Order>, side: Side)
    requires forall p :: Queue(b, side, p) == []
    ensures BestPrice(b, side) == None
  {
    forall j | 0 <= j < |b| ensures b[j].side != side {
      QueueEmpty(b, side, b[j].price);
    }
  }

  // ----- the level walk ---------------------------------------------------------------

  ghost predicate Walks(prices: seq<nat>, h: HalfBook, taker: Side) {
    && (forall x :: x in prices <==> x in h.priceMap)
    && (forall i, j | 0 <= i < j < |prices| :: Better(taker, prices[i], prices[j]))
  }

  /** The walk stands before price `k`: what was matched so far is what the flat matcher did,
      and unless nothing is left to fill the walked levels are empty. */
  ghost predicate Walking(start: seq<Order>, limit: int, qty: nat, bid: HalfBook, ask: HalfBook, loc: map<nat, Loc>,
                          b: seq<Order>, taker: Side, prices: seq<nat>, k: nat, fills: seq<Fill>, left: nat) {
    && Mirrors(bid, ask, loc, b)
    && Walks(prices, HalfOf(bid, ask, taker.Opposite()), taker) && k <= |prices|
    && Reaches(start, taker, limit, qty, fills, b, left)
    && (left == 0 || forall j | 0 <= j < k :: Queue(b, taker.Opposite(), prices[j]) == [])
  }

  lemma WalkStart(limit: int, qty: nat, bid: HalfBook, ask: HalfBook, loc: map<nat, Loc>, b: seq<Order>, taker: Side,
                  prices: seq<nat>)
    requires Mirrors(bid, ask, loc, b) && Walks(prices, HalfOf(bid, ask, taker.Opposite()), taker)
    ensures Walking(b, limit, qty, bid, ask, loc, b, taker, prices, 0, [], qty)
  {}

  lemma WalkStep(start: seq<Order>, limit: int, qty: nat, bid: HalfBook, ask: HalfBook, loc: map<nat, Loc>,
                 b: seq<Order>, taker: Side, prices: seq<nat>, k: nat, fills: seq<Fill>, left: nat)
    returns (b': seq<Order>)
    requires Walking(start, limit, qty, bid, ask, loc, b, taker, prices, k, fills, left)
    requires k < |prices| && Crosses(taker, limit, prices[k])
    ensures var h := HalfOf(bid, ask, taker.Opposite());
            && prices[k] in h.priceMap && h.priceMap[prices[k]] < |h.priceLevels|
            && LevelLive(LevelAt(h, prices[k]))
            && var s := Sweep(LevelAt(h, prices[k]), left, prices[k]);
               Walking(start, limit, qty, if taker.Buy? then bid else SetLevel(bid, prices[k], s.level),
                       if taker.Buy? then SetLevel(ask, prices[k], s.level) else ask,
                       loc - s.gone, b', taker, prices, k + 1, fills + s.fills, s.left)
  {
    hide Match, Queue, Sweep, Holds;
    var h := HalfOf(bid, ask, taker.Opposite());
    var x := prices[k];
    assert x in prices;
    LevelIsLive(h, b, taker.Opposite(), x);
    if left > 0 {
      NextIsBest(h, b, taker, prices, k);
    }
    b' := LevelStep(bid, ask, loc, b, taker, limit, x, left);
    var s := Sweep(LevelAt(h, x), left, x);
    ReachesTransitive(start, taker, limit, qty, fills, b, left, s.fills, b', s.left);
    SweepExhausts(LevelAt(h, x), left, x);
    SweepLeft(LevelAt(h, x), left, x);
    if s.left > 0 {
      forall j | 0 <= j < k + 1 ensures Queue(b', taker.Opposite(), prices[j]) == [] {
        if j < k { assert Better(taker, prices[j], x); }
      }
    }
  }

  lemma {:induction false} SweepLeft(level: seq<Queued>, qty: nat, price: int)
    ensures Sweep(level, qty, price).left <= qty
  {
    SweepSum(level, qty, price);
  }

  lemma LevelIsLive(h: HalfBook, b: seq<Order>, side: Side, price: nat)
    requires Holds(h, b, side) && AllLive(b) && price in h.priceMap
    ensures h.priceMap[price] < |h.priceLevels| && LevelLive(LevelAt(h, price))
  {
    var level := LevelAt(h, price);
    forall k | 0 <= k < |level| ensures level[k].qty > 0 {
      assert level == Queue(b, side, price);
      QueueMembers(b, side, price, k);
    }
  }

  lemma WalkEnd(start: seq<Order>, limit: int, qty: nat, bid: HalfBook, ask: HalfBook, loc: map<nat, Loc>,
                b: seq<Order>, taker: Side, prices: seq<nat>, k: nat, fills: seq<Fill>, left: nat)
    requires Walking(start, limit, qty, bid, ask, loc, b, taker, prices, k, fills, left)
    requires k == |prices| || !Crosses(taker, limit, prices[k])
    ensures Match(start, taker, limit, qty) == Outcome(fills, b, left)
  {
    hide Match, Queue;
    WalkDone(HalfOf(bid, ask, taker.Opposite()), b, taker, limit, prices, k, left);
    assert fills + [] == fills;
  }

  lemma SlotInRange(h: HalfBook, b: seq<Order>, side: Side, price: nat)
    requires Holds(h, b, side) && price in h.priceMap
    ensures h.priceMap[price] < |h.priceLevels| && h.priceLevels[h.priceMap[price]] == LevelAt(h, price)
  {}

  /** The first non-empty level of a walk from the better end: the side's best price. */
  method FirstOccupied(h: HalfBook, prices: seq<nat>, side: Side, ghost b: seq<Order>) returns (r: Option<nat>)
    requires Holds(h, b, side) && Walks(prices, h, side.Opposite())
    ensures r == BestPrice(b, side)
  {
    hide Queue, BestPrice;
    var k := 0;
    while k < |prices|
      invariant k <= |prices|
      invariant forall j | 0 <= j < k :: Queue(b, side, prices[j]) == []
    {
      assert prices[k] in prices;
      SlotInRange(h, b, side, prices[k]);
      if h.priceLevels[h.priceMap[prices[k]]] != [] {
        NextIsBest(h, b, side.Opposite(), prices, k);
        BestPriceIs(b, side, prices[k]);
        return Some(prices[k]);
      }
      k := k + 1;
    }
    forall p ensures Queue(b, side, p) == [] {
      assert LevelAt(h, p) == Queue(b, side, p);
      if p in h.priceMap {
        assert p in prices;
      }
    }
    NoBestPrice(b, side);
    r := None;
  }

  // ----- cancelling -------------------------------------------------------------------

  /** Quantity of the first entry with the id, zero when there is none. */
  function FirstQty(level: seq<Queued>, id: nat): nat {
    if level == [] then 0 else if level[0].id == id then level[0].qty else FirstQty(level[1..], id)
  }

  ghost predicate NoId(level: seq<Queued>, id: nat) {
    forall k | 0 <= k < |level| :: level[k].id != id
  }

  lemma {:induction false} RetainAll(level: seq<Queued>, id: nat)
    requires NoId(level, id)
    ensures Retain(level, id) == level
  {
    if level != [] {
      RetainAll(level[1..], id);
    }
  }

  lemma {:induction false} RetainAround(pre: seq<Queued>, x: Queued, post: seq<Queued>)
    requires NoId(pre, x.id) && NoId(post, x.id)
    ensures Retain(pre + [x] + post, x.id) == pre + post
    ensures FirstQty(pre + [x] + post, x.id) == x.qty
  {
    var all := pre + [x] + post;
    if pre == [] {
      assert all[0] == x && all[1..] == post;
      RetainAll(post, x.id);
    } else {
      assert all[0] == pre[0] && all[1..] == pre[1..] + [x] + post;
      RetainAround(pre[1..], x, post);
    }
  }

  lemma QueueNoId(b: seq<Order>, side: Side, price: int, id: nat)
    requires !Resting(b, id)
    ensures NoId(Queue(b, side, price), id)
  {}

  lemma IndexKnows(b: seq<Order>, loc: map<nat, Loc>, slots: Slots, id: nat)
    requires Indexed(b, loc, slots)
    ensures id in loc <==> Find(b, id).Some?
    ensures var at := Find(b, id);
            at.Some? ==> b[at.value].id == id && Located(b[at.value], loc, slots)
  {}

  /** Removing one order by its index entry: the level keeps the others in order, and the
      entry found is the order itself. */
  lemma CancelStep(h: HalfBook, b: seq<Order>, i: nat, loc: map<nat, Loc>, slots: Slots)
    requires i < |b| && b[i].price >= 0
    requires Holds(h, b, b[i].side) && b[i].price in h.priceMap
    requires WellFormed(b) && Indexed(b, loc, slots)
    ensures var o := b[i]; var level := LevelAt(h, o.price);
            && FirstQty(level, o.id) == o.qty
            && OtherQueuesSame(b, RemoveAt(b, i), o.side, o.price)
            && Holds(SetLevel(h, o.price, Retain(level, o.id)), RemoveAt(b, i), o.side)
    ensures WellFormed(RemoveAt(b, i)) && Indexed(RemoveAt(b, i), loc - {b[i].id}, slots)
  {
    hide Queue, Indexed, Retain, FirstQty;
    var o := b[i];
    assert LevelAt(h, o.price) == Queue(b, o.side, o.price);
    QueueSplit(b, i, o.side, o.price);
    assert !Resting(b[..i], o.id) && !Resting(b[i + 1..], o.id);
    QueueNoId(b[..i], o.side, o.price, o.id);
    QueueNoId(b[i + 1..], o.side, o.price, o.id);
    RetainAround(Queue(b[..i], o.side, o.price), Queued(o.id, o.qty), Queue(b[i + 1..], o.side, o.price));
    forall sd, p ensures !(sd == o.side && p == o.price) ==> Queue(RemoveAt(b, i), sd, p) == Queue(b, sd, p) {
      QueueTake(b, i, o.qty, sd, p);
    }
    QueueTake(b, i, o.qty, o.side, o.price);
    HoldsSetLevel(h, b, RemoveAt(b, i), o.side, o.price);
    IndexedTake(b, loc, slots, i, o.qty);
    TakeKeeps(b, i, o.qty);
  }

  lemma {:induction false} DepthIsQueueSum(b: seq<Order>, side: Side, price: int)
    ensures Depth(b, side, price) == SumQty(Queue(b, side, price))
  {
    if b != [] {
      var n := |b| - 1;
      DepthIsQueueSum(b[..n], side, price);
      SumQtyConcat(Queue(b[..n], side, price), QueueOne(b[n], side, price));
      var one := QueueOne(b[n], side, price);
      assert one != [] ==> one[1..] == [];
    }
  }

  lemma {:induction false} SumQtyConcat(a: seq<Queued>, b: seq<Queued>)
    ensures SumQty(a + b) == SumQty(a) + SumQty(b)
  {
    if a == [] {
      assert a + b == b;
    } else {
      assert (a + b)[1..] == a[1..] + b;
      SumQtyConcat(a[1..], b);
    }
  }

  // ----- the invariant in the engine's own terms ----------------------------------------

  /** The entry at `k` of a level is indexed under its id, with this side, slot and price. */
  ghost predicate Indexes(h: HalfBook, loc: map<nat, Loc>, side: Side, price: nat, k: nat) {
    && price in h.priceMap && k < |LevelAt(h, price)|
    && LevelAt(h, price)[k].qty > 0
    && LevelAt(h, price)[k].id in loc
    && loc[LevelAt(h, price)[k].id] == Loc(side, h.priceMap[price], price)
  }

  ghost predicate QueuedOnce(level: seq<Queued>, id: nat) {
    exists k | 0 <= k < |level| :: level[k].id == id && forall l | 0 <= l < |level| && l != k :: level[l].id != id
  }

  /** Every index entry names exactly one queued order, in the level its price maps to. */
  ghost predicate EntryExact(h: HalfBook, l: Loc, id: nat) {
    && l.price in h.priceMap && h.priceMap[l.price] == l.level
    && QueuedOnce(LevelAt(h, l.price), id)
  }

  lemma QueuedOnceIn(b: seq<Order>, i: nat)
    requires DistinctIds(b) && i < |b|
    ensures QueuedOnce(Queue(b, b[i].side, b[i].price), b[i].id)
  {
    hide Queue;
    var o := b[i];
    QueueSplit(b, i, o.side, o.price);
    var pre, post := Queue(b[..i], o.side, o.price), Queue(b[i + 1..], o.side, o.price);
    assert !Resting(b[..i], o.id) && !Resting(b[i + 1..], o.id);
    QueueNoId(b[..i], o.side, o.price, o.id);
    QueueNoId(b[i + 1..], o.side, o.price, o.id);
    var level := Queue(b, o.side, o.price);
    assert level[|pre|].id == o.id;
  }

  /** The index is exact both ways and no queued quantity is zero. */
  lemma IndexIsExact(bid: HalfBook, ask: HalfBook, loc: map<nat, Loc>, b: seq<Order>)
    requires Mirrors(bid, ask, loc, b)
    ensures forall id | id in loc :: EntryExact(HalfOf(bid, ask, loc[id].side), loc[id], id)
    ensures forall side, price: nat, k: nat |
              price in HalfOf(bid, ask, side).priceMap && k < |LevelAt(HalfOf(bid, ask, side), price)| ::
              Indexes(HalfOf(bid, ask, side), loc, side, price, k)
  {
    hide Queue, QueuedOnce;
    var slots := Slots(bid.priceMap, ask.priceMap);
    forall id | id in loc ensures EntryExact(HalfOf(bid, ask, loc[id].side), loc[id], id) {
      assert Resting(b, id);
      var i :| 0 <= i < |b| && b[i].id == id;
      assert Located(b[i], loc, slots);
      QueuedOnceIn(b, i);
      assert LevelAt(HalfOf(bid, ask, b[i].side), b[i].price) == Queue(b, b[i].side, b[i].price);
    }
    forall side, price: nat, k: nat |
      price in HalfOf(bid, ask, side).priceMap && k < |LevelAt(HalfOf(bid, ask, side), price)|
      ensures Indexes(HalfOf(bid, ask, side), loc, side, price, k)
    {
      assert LevelAt(HalfOf(bid, ask, side), price) == Queue(b, side, price);
      QueueMembers(b, side, price, k);
      var j :| 0 <= j < |b| && b[j].side == side && b[j].price == price
               && Queue(b, side, price)[k] == Queued(b[j].id, b[j].qty);
      assert Located(b[j], loc, slots);
    }
  }

  /** The best price of the flat book is the extremum over the non-empty levels. */
  lemma BestIsBestLevel(h: HalfBook, b: seq<Order>, side: Side)
    requires Holds(h, b, side)
    ensures BestPrice(b, side).None? <==> forall p | p in h.priceMap :: LevelAt(h, p) == []
    ensures var best := BestPrice(b, side);
            best.Some? ==>
              && best.value in h.priceMap && LevelAt(h, best.value) != []
              && forall p | p in h.priceMap && LevelAt(h, p) != [] :: !Better(side.Opposite(), p, best.value)
  {
    hide BestPrice;
    forall p | p in h.priceMap ensures LevelAt(h, p) == Queue(b, side, p) {}
    forall p ensures LevelAt(h, p) == [] <==> forall j | 0 <= j < |b| :: !(b[j].side == side && b[j].price == p) {
      QueueEmpty(b, side, p);
    }
    var best := BestPrice(b, side);
    if best.Some? {
      QueueEmpty(b, side, best.value);
    }
    forall j | 0 <= j < |b| && b[j].side == side ensures LevelAt(h, b[j].price) != [] {
    }
  }

  datatype FillResult = FillResult(makerFills: seq<Fill>, remainingQty: nat)

  class OrderBook {
    var bidBook: HalfBook
    var askBook: HalfBook
    var orderLoc: map<nat, Loc>
    var bestBidPrice: nat
    var bestOfferPrice: nat
    ghost var flat: seq<Order>

    /** Levels and index stand for the flat book; the cached best prices may be stale. */
    ghost predicate Matched()
      reads this
    {
      Mirrors(bidBook, askBook, orderLoc, flat)
    }

    ghost predicate Valid()
      reads this
    {
      Matched() && bestBidPrice == Cached(flat, Buy) && bestOfferPrice == Cached(flat, Sell)
    }

    constructor ()
      ensures Valid() && flat == []
    {
      bidBook, askBook := HalfBook(map[], []), HalfBook(map[], []);
      orderLoc := map[];
      bestBidPrice, bestOfferPrice := 0, U64_MAX;
      flat := [];
    }

    /** The level walk of add_limit_order: opposite levels from the best price on, while
        they cross. It goes on over crossing levels when nothing is left to fill. */
    method WalkLevels(side: Side, price: nat, orderQty: nat) returns (fills: seq<Fill>, left: nat)
      requires Matched()
      modifies this
      ensures Matched()
      ensures Match(old(flat), side, price, orderQty) == Outcome(fills, flat, left)
    {
      hide Match, Queue, Sweep, Holds;
      var prices := BestFirst(if side.Buy? then askBook.priceMap.Keys else bidBook.priceMap.Keys, side);
      assert Walks(prices, HalfOf(bidBook, askBook, side.Opposite()), side);
      WalkStart(price, orderQty, bidBook, askBook, orderLoc, flat, side, prices);
      fills, left := [], orderQty;
      hide Walking;
      var k := 0;
      while k < |prices| && Crosses(side, price, prices[k])
        invariant k <= |prices|
        invariant Walking(old(flat), price, orderQty, bidBook, askBook, orderLoc, flat, side, prices, k, fills, left)
      {
        var x := prices[k];
        ghost var next := WalkStep(old(flat), price, orderQty, bidBook, askBook, orderLoc, flat, side, prices, k,
                                   fills, left);
        var level, matchedQty;
        if side.Buy? {
          level, left, orderLoc, fills, matchedQty :=
            MatchAtPriceLevel(askBook.priceLevels[askBook.priceMap[x]], left, orderLoc, x, fills);
          askBook := SetLevel(askBook, x, level);
        } else {
          level, left, orderLoc, fills, matchedQty :=
            MatchAtPriceLevel(bidBook.priceLevels[bidBook.priceMap[x]], left, orderLoc, x, fills);
          bidBook := SetLevel(bidBook, x, level);
        }
        flat := next;
        k := k + 1;
      }
      WalkEnd(old(flat), price, orderQty, bidBook, askBook, orderLoc, flat, side, prices, k, fills, left);
    }

    /** Rests an order in its level, opening the level when the price is new. */
    method CreateNewLimitOrder(s: Side, price: nat, qty: nat, orderId: nat)
      requires Matched() && qty > 0 && !Resting(flat, orderId)
      modifies this
      ensures Matched() && flat == old(flat) + [Order(orderId, s, price, qty)]
    {
      hide Queue, Holds, Indexed, WellFormed;
      ghost var o := Order(orderId, s, price, qty);
      ghost var slots := Slots(bidBook.priceMap, askBook.priceMap);
      var h := HalfOf(bidBook, askBook, s);
      var order := Queued(orderId, qty);
      var slot;
      WellFormedAppend(flat, o);
      HoldsOtherAppend(HalfOf(bidBook, askBook, s.Opposite()), flat, o);
      if price in h.priceMap {
        SlotInRange(h, flat, s, price);
        HoldsAppend(h, flat, o);
        slot := h.priceMap[price];
        h := SetLevel(h, price, h.priceLevels[slot] + [order]);
      } else {
        HoldsNewLevel(h, flat, o);
        slot := |h.priceLevels|;
        h := NewLevel(h, price, order);
      }
      if s.Buy? {
        bidBook := h;
      } else {
        askBook := h;
      }
      IndexedAppend(flat, orderLoc, slots, Slots(bidBook.priceMap, askBook.priceMap), o);
      orderLoc := orderLoc[orderId := Loc(s, slot, price)];
      flat := flat + [o];
    }

    /** Recomputes both cached prices: reset to the sentinels, then scan for the first
        non-empty level from the better end. */
    method UpdateBbo()
      requires Matched()
      modifies this`bestBidPrice, this`bestOfferPrice
      ensures Valid()
    {
      hide Queue, BestPrice, Holds, Indexed, WellFormed;
      bestBidPrice := 0;
      bestOfferPrice := U64_MAX;
      var prices := BestFirst(bidBook.priceMap.Keys, Sell);
      var found := FirstOccupied(bidBook, prices, Buy, flat);
      if found.Some? {
        bestBidPrice := found.value;
      }
      prices := BestFirst(askBook.priceMap.Keys, Buy);
      found := FirstOccupied(askBook, prices, Sell, flat);
      if found.Some? {
        bestOfferPrice := found.value;
      }
    }

    method AddLimitOrder(s: Side, price: nat, orderQty: nat, orderId: nat) returns (r: FillResult)
      requires Valid() && orderQty > 0 && !Resting(flat, orderId)
      modifies this
      ensures Valid()
      ensures var e := Enter(old(flat), Order(orderId, s, price, orderQty), false);
              flat == e.book && r == FillResult(e.fills, e.left)
    {
      hide Match, WellFormed, Holds;
      MatchKeeps(flat, s, price, orderQty);
      ShrunkResting(flat, Match(flat, s, price, orderQty).book, orderId);
      var fills, left := WalkLevels(s, price, orderQty);
      if left != 0 {
        CreateNewLimitOrder(s, price, left, orderId);
      }
      UpdateBbo();
      r := FillResult(fills, left);
    }

    /** Removes a resting order and answers with its side, price and quantity; None when
        the id is not resting. */
    method CancelOrder(orderId: nat) returns (r: Option<Order>)
      requires Valid()
      modifies this
      ensures Valid()
      ensures var at := Find(old(flat), orderId);
              if at.None? then r == None && flat == old(flat)
              else r == Some(old(flat)[at.value]) && flat == RemoveAt(old(flat), at.value)
    {
      hide Queue, Holds, Indexed, WellFormed, Retain, FirstQty, Find;
      ghost var at := Find(flat, orderId);
      IndexKnows(flat, orderLoc, Slots(bidBook.priceMap, askBook.priceMap), orderId);
      if orderId !in orderLoc {
        return None;
      }
      var loc := orderLoc[orderId];
      ghost var o := flat[at.value];
      var h := HalfOf(bidBook, askBook, loc.side);
      SlotInRange(h, flat, loc.side, loc.price);
      CancelStep(h, flat, at.value, orderLoc, Slots(bidBook.priceMap, askBook.priceMap));
      HoldsOther(HalfOf(bidBook, askBook, loc.side.Opposite()), flat, RemoveAt(flat, at.value),
                 loc.side.Opposite(), loc.side, loc.price);
      var level := h.priceLevels[loc.level];
      var removedQty := FirstQty(level, orderId);
      h := h.(priceLevels := h.priceLevels[loc.level := Retain(level, orderId)]);
      if loc.side.Buy? {
        bidBook := h;
      } else {
        askBook := h;
      }
      orderLoc := orderLoc - {orderId};
      flat := RemoveAt(flat, at.value);
      UpdateBbo();
      r := Some(Order(orderId, loc.side, loc.price, removedQty));
    }

    method BestBidRaw() returns (p: nat)
      requires Valid()
      ensures p == Cached(flat, Buy)
    {
      p := bestBidPrice;
    }

    method BestAskRaw() returns (p: nat)
      requires Valid()
      ensures p == Cached(flat, Sell)
    {
      p := bestOfferPrice;
    }

    /** Live quantity at one price of one side, zero for a price never occupied. */
    method DepthAt(price: nat, s: Side) returns (total: nat)
      requires Valid()
      ensures total == Depth(flat, s, price)
    {
      hide Queue, Depth, Indexed, WellFormed;
      var h := HalfOf(bidBook, askBook, s);
      DepthIsQueueSum(flat, s, price);
      assert LevelAt(h, price) == Queue(flat, s, price);
      total := 0;
      if price in h.priceMap {
        SlotInRange(h, flat, s, price);
        var level := h.priceLevels[h.priceMap[price]];
        total := SumQty(level);
      }
    }
  }
}
