/** The flat book seen as FIFO queues, one per side and price, and the sweep of one queue. */
module PriceLevels {
  import opened Basics
  import opened Contract
  import opened MatchingLaws

  datatype Queued = Queued(id: nat, qty: nat)

  /** The orders resting on one side at one price, oldest first. */
  function Queue(b: seq<Order>, side: Side, price: int): seq<Queued> {
    if b == [] then []
    else
      var last := b[|b| - 1];
      Queue(b[..|b| - 1], side, price)
      + (if last.side == side && last.price == price then [Queued(last.id, last.qty)] else [])
  }

  lemma {:induction false} QueueConcat(a: seq<Order>, b: seq<Order>, side: Side, price: int)
    ensures Queue(a + b, side, price) == Queue(a, side, price) + Queue(b, side, price)
  {
    if b == [] {
      assert a + b == a;
    } else {
      assert (a + b)[..|a + b| - 1] == a + b[..|b| - 1];
      QueueConcat(a, b[..|b| - 1], side, price);
    }
  }

  function QueueOne(o: Order, side: Side, price: int): seq<Queued> {
    if o.side == side && o.price == price then [Queued(o.id, o.qty)] else []
  }

  lemma QueueSingle(o: Order, side: Side, price: int)
    ensures Queue([o], side, price) == QueueOne(o, side, price)
  {}

  lemma QueueSplit(b: seq<Order>, i: nat, side: Side, price: int)
    requires i < |b|
    ensures Queue(b, side, price)
         == Queue(b[..i], side, price) + QueueOne(b[i], side, price) + Queue(b[i + 1..], side, price)
  {
    var one := [b[i]];
    assert b == b[..i] + one + b[i + 1..];
    QueueConcat(b[..i] + one, b[i + 1..], side, price);
    QueueConcat(b[..i], one, side, price);
    QueueSingle(b[i], side, price);
  }

  lemma {:induction false} QueueEmpty(b: seq<Order>, side: Side, price: int)
    ensures Queue(b, side, price) == [] <==>
            forall j | 0 <= j < |b| :: !(b[j].side == side && b[j].price == price)
  {
    if b != [] {
      QueueEmpty(b[..|b| - 1], side, price);
    }
  }

  lemma {:induction false} QueueMembers(b: seq<Order>, side: Side, price: int, k: nat)
    requires k < |Queue(b, side, price)|
    ensures exists j | 0 <= j < |b| ::
              b[j].side == side && b[j].price == price && Queue(b, side, price)[k] == Queued(b[j].id, b[j].qty)
  {
    var n := |b| - 1;
    if k < |Queue(b[..n], side, price)| {
      QueueMembers(b[..n], side, price, k);
      var j :| 0 <= j < n && b[..n][j].side == side && b[..n][j].price == price
               && Queue(b[..n], side, price)[k] == Queued(b[..n][j].id, b[..n][j].qty);
      assert b[j] == b[..n][j];
    } else {
      assert Queue(b, side, price)[k] == Queued(b[n].id, b[n].qty);
    }
  }

  /** Taking lots from one order touches only the queue that order stands in. */
  lemma QueueTake(b: seq<Order>, i: nat, q: nat, side: Side, price: int)
    requires i < |b| && q <= b[i].qty
    ensures Queue(Take(b, i, q), side, price)
         == Queue(b[..i], side, price)
            + (if q == b[i].qty then [] else QueueOne(b[i].(qty := b[i].qty - q), side, price))
            + Queue(b[i + 1..], side, price)
    ensures !(b[i].side == side && b[i].price == price) ==>
              Queue(Take(b, i, q), side, price) == Queue(b, side, price)
  {
    var t := Take(b, i, q);
    QueueSplit(b, i, side, price);
    if q == b[i].qty {
      QueueConcat(b[..i], b[i + 1..], side, price);
    } else {
      QueueSplit(t, i, side, price);
      assert t[..i] == b[..i] && t[i + 1..] == b[i + 1..];
    }
  }

  // ----- the best maker is the front of the best queue ------------------------------

  ghost predicate NothingBetter(b: seq<Order>, taker: Side, price: int) {
    forall p | Better(taker, p, price) :: Queue(b, taker.Opposite(), p) == []
  }

  /** With no better price occupied, the matcher's next maker is the front of the queue. */
  lemma FrontIsBest(b: seq<Order>, taker: Side, limit: int, price: int)
    requires Crosses(taker, limit, price) && NothingBetter(b, taker, price)
    requires Queue(b, taker.Opposite(), price) != []
    ensures var r := BestMaker(b, taker, limit);
            && r.Some? && b[r.value].price == price && b[r.value].side == taker.Opposite()
            && Queue(b[..r.value], taker.Opposite(), price) == []
  {
    var opp := taker.Opposite();
    BestMakerIsBest(b, taker, limit);
    QueueEmpty(b, opp, price);
    var j :| 0 <= j < |b| && b[j].side == opp && b[j].price == price;
    assert Eligible(b[j], taker, limit);
    var i := BestMaker(b, taker, limit).value;
    QueueEmpty(b, opp, b[i].price);
    assert b[i].price == price;
    QueueEmpty(b[..i], opp, price);
  }

  // ----- sweeping one queue ----------------------------------------------------------

  datatype Swept = Swept(fills: seq<Fill>, level: seq<Queued>, left: nat, gone: set<nat>)

  /** Fills incoming lots from the front of one queue. */
  function Sweep(level: seq<Queued>, qty: nat, price: int): Swept {
    if qty == 0 || level == [] then Swept([], level, qty, {})
    else if level[0].qty <= qty then
      var rest := Sweep(level[1..], qty - level[0].qty, price);
      Swept([Fill(level[0].id, price, level[0].qty)] + rest.fills, rest.level, rest.left, rest.gone + {level[0].id})
    else
      Swept([Fill(level[0].id, price, qty)], [level[0].(qty := level[0].qty - qty)] + level[1..], 0, {})
  }

  function Prepend(fills: seq<Fill>, m: Outcome): Outcome {
    m.(fills := fills + m.fills)
  }

  /** Lots are left only when the queue was emptied. */
  lemma {:induction false} SweepExhausts(level: seq<Queued>, qty: nat, price: int)
    ensures var s := Sweep(level, qty, price); s.left > 0 ==> s.level == []
  {
    if qty > 0 && level != [] && level[0].qty <= qty {
      SweepExhausts(level[1..], qty - level[0].qty, price);
    }
  }

  // ----- the id index ----------------------------------------------------------------

  /** Where an order stands: side, level slot and price. */
  datatype Loc = Loc(side: Side, level: nat, price: int)

  /** The slots of the occupied prices of both sides. */
  datatype Slots = Slots(bids: map<nat, nat>, asks: map<nat, nat>) {
    function Of(side: Side): map<nat, nat> {
      if side.Buy? then bids else asks
    }
  }

  predicate Located(o: Order, loc: map<nat, Loc>, slots: Slots) {
    && o.price in slots.Of(o.side)
    && o.id in loc && loc[o.id] == Loc(o.side, slots.Of(o.side)[o.price], o.price)
  }

  /** The index holds exactly the resting ids, each with its side, slot and price. */
  ghost predicate Indexed(b: seq<Order>, loc: map<nat, Loc>, slots: Slots) {
    && (forall i | 0 <= i < |b| :: Located(b[i], loc, slots))
    && (forall id | id in loc :: Resting(b, id))
  }

  lemma IndexedTake(b: seq<Order>, loc: map<nat, Loc>, slots: Slots, i: nat, q: nat)
    requires DistinctIds(b) && Indexed(b, loc, slots) && i < |b| && q <= b[i].qty
    ensures Indexed(Take(b, i, q), if q == b[i].qty then loc - {b[i].id} else loc, slots)
  {
    var t := Take(b, i, q);
    var loc' := if q == b[i].qty then loc - {b[i].id} else loc;
    forall j | 0 <= j < |t| ensures Located(t[j], loc', slots) {
      var j0 := if q == b[i].qty && j >= i then j + 1 else j;
      assert Located(b[j0], loc, slots);
    }
    forall id | id in loc' ensures Resting(t, id) {
      assert Resting(b, id);
      var j0 :| 0 <= j0 < |b| && b[j0].id == id;
      assert t[if q == b[i].qty && j0 > i then j0 - 1 else j0].id == id;
    }
  }

  // ----- sweeping the best queue is matching -----------------------------------------

  /** Everything but the swept queue is as before. */
  ghost predicate OtherQueuesSame(b: seq<Order>, b': seq<Order>, side: Side, price: int) {
    forall sd, p | !(sd == side && p == price) :: Queue(b', sd, p) == Queue(b, sd, p)
  }

  /** One step of the matcher, seen from the queue: it serves the front. */
  lemma FrontIsServed(b: seq<Order>, taker: Side, limit: int, price: int, qty: nat)
    returns (i: nat, q: nat)
    requires Crosses(taker, limit, price) && NothingBetter(b, taker, price) && qty > 0
    requires Queue(b, taker.Opposite(), price) != []
    ensures i < |b| && q == Min(b[i].qty, qty)
    ensures b[i].price == price && b[i].side == taker.Opposite()
    ensures Queue(b[..i], taker.Opposite(), price) == []
    ensures Reaches(b, taker, limit, qty, [Fill(b[i].id, price, q)], Take(b, i, q), qty - q)
  {
    FrontIsBest(b, taker, limit, price);
    i := BestMaker(b, taker, limit).value;
    q := Min(b[i].qty, qty);
  }

  lemma FrontTaken(b: seq<Order>, i: nat, q: nat, side: Side, price: int)
    requires i < |b| && q <= b[i].qty
    requires b[i].price == price && b[i].side == side && Queue(b[..i], side, price) == []
    ensures var level := Queue(b, side, price);
            && level != [] && level[0] == Queued(b[i].id, b[i].qty)
            && Queue(Take(b, i, q), side, price)
            == (if q == b[i].qty then [] else [level[0].(qty := level[0].qty - q)]) + level[1..]
    ensures OtherQueuesSame(b, Take(b, i, q), side, price)
  {
    hide Queue, Take;
    QueueSplit(b, i, side, price);
    QueueTake(b, i, q, side, price);
    forall sd, p | !(sd == side && p == price) ensures Queue(Take(b, i, q), sd, p) == Queue(b, sd, p) {
      QueueTake(b, i, q, sd, p);
    }
  }

  /** From `b` the matcher makes the fills `fills` and goes on from `b'` with `left` lots. */
  ghost predicate Reaches(b: seq<Order>, taker: Side, limit: int, qty: nat, fills: seq<Fill>, b': seq<Order>,
                          left: nat) {
    Match(b, taker, limit, qty) == Prepend(fills, Match(b', taker, limit, left))
  }

  lemma ReachesTransitive(b: seq<Order>, taker: Side, limit: int, qty: nat, f: seq<Fill>, c: seq<Order>, left: nat,
                          g: seq<Fill>, d: seq<Order>, rest: nat)
    requires Reaches(b, taker, limit, qty, f, c, left) && Reaches(c, taker, limit, left, g, d, rest)
    ensures Reaches(b, taker, limit, qty, f + g, d, rest)
  {
    hide Match;
    var m := Match(d, taker, limit, rest);
    assert f + (g + m.fills) == f + g + m.fills;
  }

  lemma ReachesSelf(b: seq<Order>, taker: Side, limit: int, qty: nat)
    ensures Reaches(b, taker, limit, qty, [], b, qty)
  {}

  lemma OtherQueuesTransitive(b: seq<Order>, c: seq<Order>, d: seq<Order>, side: Side, price: int)
    requires OtherQueuesSame(b, c, side, price) && OtherQueuesSame(c, d, side, price)
    ensures OtherQueuesSame(b, d, side, price)
  {}

  lemma NothingBetterStays(b: seq<Order>, c: seq<Order>, taker: Side, price: int)
    requires NothingBetter(b, taker, price) && OtherQueuesSame(b, c, taker.Opposite(), price)
    ensures NothingBetter(c, taker, price)
  {}

  /** Taking lots from the front of a queue: queue, index and the other queues. */
  lemma TakeFront(b: seq<Order>, i: nat, q: nat, taker: Side, price: int, level: seq<Queued>,
                  loc: map<nat, Loc>, slots: Slots) returns (t: seq<Order>)
    requires WellFormed(b) && Indexed(b, loc, slots) && NothingBetter(b, taker, price)
    requires i < |b| && q <= b[i].qty && b[i].price == price && b[i].side == taker.Opposite()
    requires Queue(b[..i], taker.Opposite(), price) == [] && level == Queue(b, taker.Opposite(), price)
    ensures t == Take(b, i, q)
    ensures level != [] && level[0] == Queued(b[i].id, b[i].qty)
    ensures WellFormed(t) && NothingBetter(t, taker, price) && OtherQueuesSame(b, t, taker.Opposite(), price)
    ensures Queue(t, taker.Opposite(), price)
         == (if q == level[0].qty then [] else [level[0].(qty := level[0].qty - q)]) + level[1..]
    ensures Indexed(t, if q == level[0].qty then loc - {level[0].id} else loc, slots)
  {
    FrontTaken(b, i, q, taker.Opposite(), price);
    IndexedTake(b, loc, slots, i, q);
    TakeKeeps(b, i, q);
    t := Take(b, i, q);
    NothingBetterStays(b, t, taker, price);
  }

  /** The matcher serves the front of the best queue; queue, index and book move together. */
  lemma ServeFront(b: seq<Order>, taker: Side, limit: int, price: int, qty: nat, level: seq<Queued>,
                   loc: map<nat, Loc>, slots: Slots) returns (t: seq<Order>)
    requires WellFormed(b) && Indexed(b, loc, slots)
    requires Crosses(taker, limit, price) && NothingBetter(b, taker, price)
    requires level == Queue(b, taker.Opposite(), price) && level != [] && qty > 0
    ensures WellFormed(t) && NothingBetter(t, taker, price) && OtherQueuesSame(b, t, taker.Opposite(), price)
    ensures var q := Min(level[0].qty, qty);
            && Reaches(b, taker, limit, qty, [Fill(level[0].id, price, q)], t, qty - q)
            && Queue(t, taker.Opposite(), price)
            == (if q == level[0].qty then [] else [level[0].(qty := level[0].qty - q)]) + level[1..]
            && Indexed(t, if q == level[0].qty then loc - {level[0].id} else loc, slots)
  {
    hide Match, Queue, Indexed, WellFormed, NothingBetter, OtherQueuesSame, Reaches;
    var i, q := FrontIsServed(b, taker, limit, price, qty);
    t := TakeFront(b, i, q, taker, price, level, loc, slots);
  }

  /** Sweeping the best occupied queue does what the matcher does there, and dropping the
      ids that the sweep used up keeps the index exact. */
  lemma {:induction false} SweepIsMatch(b: seq<Order>, taker: Side, limit: int, price: int, qty: nat,
                                        level: seq<Queued>,
                                        loc: map<nat, Loc>, slots: Slots) returns (b': seq<Order>)
    requires WellFormed(b) && Indexed(b, loc, slots)
    requires Crosses(taker, limit, price) && NothingBetter(b, taker, price)
    requires level == Queue(b, taker.Opposite(), price)
    ensures var s := Sweep(level, qty, price);
            && Reaches(b, taker, limit, qty, s.fills, b', s.left)
            && Queue(b', taker.Opposite(), price) == s.level
            && Indexed(b', loc - s.gone, slots)
    ensures WellFormed(b') && OtherQueuesSame(b, b', taker.Opposite(), price)
    decreases |level|
  {
    hide Match, Queue;
    var opp := taker.Opposite();
    if qty == 0 || level == [] {
      b' := b;
      ReachesSelf(b, taker, limit, qty);
      assert loc - {} == loc;
    } else {
      var t := ServeFront(b, taker, limit, price, qty, level, loc, slots);
      if level[0].qty <= qty {
        var q := level[0].qty;
        b' := SweepIsMatch(t, taker, limit, price, qty - q, level[1..], loc - {level[0].id}, slots);
        var rest := Sweep(level[1..], qty - q, price);
        ReachesTransitive(b, taker, limit, qty, [Fill(level[0].id, price, q)], t, qty - q, rest.fills, b', rest.left);
        OtherQueuesTransitive(b, t, b', opp, price);
        assert (loc - {level[0].id}) - rest.gone == loc - (rest.gone + {level[0].id});
      } else {
        b' := t;
        assert loc - {} == loc;
      }
    }
  }
}
