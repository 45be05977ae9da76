/** Id-indexed shadow books that adapters keep beside an engine, updated only through the
    engine's fill callbacks: they stay in step with the engine's book. */
module Shadow {
  import opened Basics
  import opened Contract
  import opened MatchingLaws

  datatype Rest = Rest(side: Side, price: int, qty: nat)

  function RestOf(o: Order): Rest {
    Rest(o.side, o.price, o.qty)
  }

  ghost predicate Shadows(o: Order, sh: map<nat, Rest>) {
    o.id in sh && sh[o.id] == RestOf(o)
  }

  /** An id is in the shadow exactly when the book rests it, with equal side, price and
      remaining quantity. */
  ghost predicate Lockstep(b: seq<Order>, sh: map<nat, Rest>) {
    && (forall i | 0 <= i < |b| :: Shadows(b[i], sh))
    && (forall id | id in sh :: Resting(b, id))
  }

  /** One fill callback: the maker's entry loses the filled lots and dies with the last. */
  function ApplyFill(sh: map<nat, Rest>, f: Fill): map<nat, Rest> {
    if f.maker !in sh then sh
    else if sh[f.maker].qty > f.qty then sh[f.maker := sh[f.maker].(qty := sh[f.maker].qty - f.qty)]
    else sh - {f.maker}
  }

  function ApplyFills(sh: map<nat, Rest>, fills: seq<Fill>): map<nat, Rest> {
    if fills == [] then sh else ApplyFills(ApplyFill(sh, fills[0]), fills[1..])
  }

  /** At every callback the maker is still in the shadow, on the opposite side, at the
      fill's price and with at least the filled lots. */
  ghost predicate Backed(sh: map<nat, Rest>, taker: Side, fills: seq<Fill>) {
    fills == [] ||
    var f := fills[0];
    && f.maker in sh && sh[f.maker].price == f.price && sh[f.maker].side == taker.Opposite()
    && 0 < f.qty <= sh[f.maker].qty
    && Backed(ApplyFill(sh, f), taker, fills[1..])
  }

  lemma LockstepTake(b: seq<Order>, sh: map<nat, Rest>, i: nat, q: nat)
    requires WellFormed(b) && Lockstep(b, sh) && i < |b| && 0 < q <= b[i].qty
    ensures Lockstep(Take(b, i, q), ApplyFill(sh, Fill(b[i].id, b[i].price, q)))
  {
    var t := Take(b, i, q);
    var sh' := ApplyFill(sh, Fill(b[i].id, b[i].price, q));
    assert Shadows(b[i], sh);
    forall j | 0 <= j < |t| ensures Shadows(t[j], sh') {
      var j0 := if q == b[i].qty && j >= i then j + 1 else j;
      assert Shadows(b[j0], sh);
    }
    forall id | id in sh' ensures Resting(t, id) {
      assert Resting(b, id);
      var j0 :| 0 <= j0 < |b| && b[j0].id == id;
      assert t[if q == b[i].qty && j0 > i then j0 - 1 else j0].id == id;
    }
  }

  lemma LockstepRemove(b: seq<Order>, sh: map<nat, Rest>, i: nat)
    requires WellFormed(b) && Lockstep(b, sh) && i < |b|
    ensures Lockstep(RemoveAt(b, i), sh - {b[i].id})
  {
    LockstepTake(b, sh, i, b[i].qty);
    assert Shadows(b[i], sh);
  }

  lemma LockstepAppend(b: seq<Order>, sh: map<nat, Rest>, o: Order)
    requires Lockstep(b, sh) && !Resting(b, o.id)
    ensures Lockstep(b + [o], sh[o.id := RestOf(o)])
  {
    var a := b + [o];
    var sh' := sh[o.id := RestOf(o)];
    forall j | 0 <= j < |a| ensures Shadows(a[j], sh') {
      if j < |b| { assert a[j] == b[j] && Shadows(b[j], sh); }
    }
    forall id | id in sh' ensures Resting(a, id) {
      if id == o.id {
        assert a[|b|].id == id;
      } else {
        assert Resting(b, id);
        var j :| 0 <= j < |b| && b[j].id == id;
        assert a[j].id == id;
      }
    }
  }

  /** A shadow fed by the matcher's fills, in order, follows the book through a match. */
  lemma {:induction false} MatchLockstep(b: seq<Order>, sh: map<nat, Rest>, taker: Side, limit: int, qty: nat)
    requires WellFormed(b) && Lockstep(b, sh)
    ensures var m := Match(b, taker, limit, qty);
            && Backed(sh, taker, m.fills)
            && Lockstep(m.book, ApplyFills(sh, m.fills))
    decreases |b| + qty
  {
    hide Lockstep, Shadows;
    var best := BestMaker(b, taker, limit);
    if qty > 0 && best.Some? {
      var i := best.value;
      var q := Min(b[i].qty, qty);
      var t := Take(b, i, q);
      LockstepTake(b, sh, i, q);
      TakeKeeps(b, i, q);
      var f := Fill(b[i].id, b[i].price, q);
      MatchLockstep(t, ApplyFill(sh, f), taker, limit, qty - q);
      var m := Match(b, taker, limit, qty);
      assert m.fills[0] == f && m.fills[1..] == Match(t, taker, limit, qty - q).fills;
      LockstepAt(b, sh, i);
    }
  }

  lemma LockstepAt(b: seq<Order>, sh: map<nat, Rest>, i: nat)
    requires Lockstep(b, sh) && i < |b|
    ensures b[i].id in sh && sh[b[i].id] == RestOf(b[i])
  {}

  /** The shadow's liveness test is the book's. */
  lemma LockstepFinds(b: seq<Order>, sh: map<nat, Rest>, id: nat)
    requires Lockstep(b, sh)
    ensures id in sh <==> Find(b, id).Some?
    ensures id in sh ==> sh[id] == RestOf(b[Find(b, id).value])
  {}

  /** Entering an order keeps the book well formed and a fed shadow in step. */
  lemma EnterStays(b: seq<Order>, sh: map<nat, Rest>, o: Order, ioc: bool)
    requires WellFormed(b) && Lockstep(b, sh) && !Resting(b, o.id) && o.qty > 0
    ensures var e := Enter(b, o, ioc);
            && WellFormed(e.book) && Backed(sh, o.side, e.fills)
            && var sh' := ApplyFills(sh, e.fills);
               Lockstep(e.book, if e.left > 0 && !ioc then sh'[o.id := Rest(o.side, o.price, e.left)] else sh')
    ensures forall i | 0 <= i < |Enter(b, o, ioc).book| ::
              Enter(b, o, ioc).book[i].id == o.id || Resting(b, Enter(b, o, ioc).book[i].id)
  {
    hide Match, Lockstep, ApplyFills;
    var m := Match(b, o.side, o.price, o.qty);
    MatchKeeps(b, o.side, o.price, o.qty);
    ShrunkResting(b, m.book, o.id);
    MatchLockstep(b, sh, o.side, o.price, o.qty);
    if m.left > 0 && !ioc {
      LockstepAppend(m.book, ApplyFills(sh, m.fills), o.(qty := m.left));
    }
    forall i | 0 <= i < |m.book| ensures Resting(b, m.book[i].id) {
      assert Origin(b, m.book[i]);
      var j :| 0 <= j < |b| && SameOrder(b[j], m.book[i]);
      assert b[j].id == m.book[i].id;
    }
  }

  /** The records of a book. */
  function Records(b: seq<Order>): map<nat, Rest> {
    if b == [] then map[] else Records(b[..|b| - 1])[b[|b| - 1].id := RestOf(b[|b| - 1])]
  }

  lemma {:induction false} RecordsLockstep(b: seq<Order>)
    requires DistinctIds(b)
    ensures Lockstep(b, Records(b))
  {
    hide Lockstep;
    if b == [] {
      NoRecords();
    } else {
      var n := |b| - 1;
      RecordsLockstep(b[..n]);
      LockstepAppend(b[..n], Records(b[..n]), b[n]);
      assert b == b[..n] + [b[n]];
    }
  }

  lemma NoRecords()
    ensures Lockstep([], map[])
  {}

  lemma LockstepIsRecords(b: seq<Order>, sh: map<nat, Rest>)
    requires DistinctIds(b) && Lockstep(b, sh)
    ensures sh == Records(b)
  {
    RecordsLockstep(b);
    var r := Records(b);
    forall id ensures id in sh <==> id in r {
      if id in sh { LockstepFinds(b, sh, id); LockstepAt(b, r, Find(b, id).value); }
      if id in r { LockstepFinds(b, r, id); LockstepAt(b, sh, Find(b, id).value); }
    }
    forall id | id in sh ensures sh[id] == r[id] {
      LockstepFinds(b, sh, id);
      LockstepFinds(b, r, id);
    }
  }

  /** A shadow that keeps prices in a form of its own. */
  function Repriced(sh: map<nat, Rest>, p: int -> int): map<nat, Rest> {
    map id | id in sh :: sh[id].(price := p(sh[id].price))
  }

  /** Fills do not look at the shadow's prices. */
  lemma {:induction false} RepricedFills(sh: map<nat, Rest>, fills: seq<Fill>, p: int -> int)
    ensures ApplyFills(Repriced(sh, p), fills) == Repriced(ApplyFills(sh, fills), p)
  {
    if fills != [] {
      assert ApplyFill(Repriced(sh, p), fills[0]) == Repriced(ApplyFill(sh, fills[0]), p);
      RepricedFills(ApplyFill(sh, fills[0]), fills[1..], p);
    }
  }

  lemma RepricedPut(sh: map<nat, Rest>, id: nat, r: Rest, p: int -> int)
    ensures Repriced(sh[id := r], p) == Repriced(sh, p)[id := r.(price := p(r.price))]
    ensures Repriced(sh - {id}, p) == Repriced(sh, p) - {id}
  {}
}
