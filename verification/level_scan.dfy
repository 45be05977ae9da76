/** The per-level match loop of the TechieBoy book: the patched loop that stops when the
    incoming quantity is used up, and the original loop that scans the whole level. */
module LevelScan {
  import opened Basics
  import opened Contract
  import opened PriceLevels
  import opened MatchingLaws

  function RetainLive(level: seq<Queued>): seq<Queued> {
    if level == [] then []
    else if level[0].qty == 0 then RetainLive(level[1..])
    else [level[0]] + RetainLive(level[1..])
  }

  function SumQty(level: seq<Queued>): nat {
    if level == [] then 0 else level[0].qty + SumQty(level[1..])
  }

  ghost predicate LevelLive(level: seq<Queued>) {
    forall i | 0 <= i < |level| :: level[i].qty > 0
  }

  lemma {:induction false} RetainLiveAll(level: seq<Queued>)
    requires LevelLive(level)
    ensures RetainLive(level) == level
  {
    if level != [] {
      RetainLiveAll(level[1..]);
    }
  }

  lemma {:induction false} RetainLiveConcat(a: seq<Queued>, b: seq<Queued>)
    ensures RetainLive(a + b) == RetainLive(a) + RetainLive(b)
  {
    if a == [] {
      assert a + b == b;
    } else {
      assert (a + b)[1..] == a[1..] + b;
      RetainLiveConcat(a[1..], b);
    }
  }

  // ----- one price level ------------------------------------------------------------

  lemma RetainOne(level: seq<Queued>, o: Queued)
    ensures RetainLive(level + [o]) == RetainLive(level) + (if o.qty == 0 then [] else [o])
  {
    RetainLiveConcat(level, [o]);
    assert [o][1..] == [];
  }

  lemma RetainSplit(level: seq<Queued>, i: nat)
    requires i <= |level| && LevelLive(level[i..])
    ensures RetainLive(level) == RetainLive(level[..i]) + level[i..]
  {
    assert level == level[..i] + level[i..];
    RetainLiveConcat(level[..i], level[i..]);
    RetainLiveAll(level[i..]);
  }

  lemma {:induction false} SweepSum(level: seq<Queued>, qty: nat, price: int)
    ensures var s := Sweep(level, qty, price);
            && Traded(s.fills) + s.left == qty
            && SumQty(s.level) + Traded(s.fills) == SumQty(level)
  {
    if qty > 0 && level != [] {
      var s := Sweep(level, qty, price);
      if level[0].qty <= qty {
        SweepSum(level[1..], qty - level[0].qty, price);
        assert s.fills[1..] == Sweep(level[1..], qty - level[0].qty, price).fills;
      } else {
        assert s.fills[1..] == [] && s.level[1..] == level[1..];
      }
    }
  }

  /** After scanning `i` makers, which now read `seen`: the sweep of the whole level is what
      was done so far followed by the sweep of the unscanned rest. */
  ghost predicate Scanned(whole: Swept, rest: seq<Queued>, price: nat, seen: seq<Queued>, left: nat,
                          gone: set<nat>, fills: seq<Fill>) {
    var s := Sweep(rest, left, price);
    && whole.fills == fills + s.fills
    && whole.level == RetainLive(seen) + s.level
    && whole.left == s.left
    && whole.gone == gone + s.gone
  }

  lemma ScanFullMaker(whole: Swept, rest: seq<Queued>, price: nat, seen: seq<Queued>, left: nat,
                      gone: set<nat>, fills: seq<Fill>)
    requires rest != [] && left > 0 && rest[0].qty <= left
    requires Scanned(whole, rest, price, seen, left, gone, fills)
    ensures Scanned(whole, rest[1..], price, seen + [rest[0].(qty := 0)], left - rest[0].qty,
                    gone + {rest[0].id}, fills + [Fill(rest[0].id, price, rest[0].qty)])
  {
    RetainOne(seen, rest[0].(qty := 0));
    assert RetainLive(seen) + [] == RetainLive(seen);
  }

  lemma ScanPartialMaker(whole: Swept, rest: seq<Queued>, price: nat, seen: seq<Queued>, left: nat,
                         gone: set<nat>, fills: seq<Fill>)
    requires rest != [] && 0 < left < rest[0].qty
    requires Scanned(whole, rest, price, seen, left, gone, fills)
    ensures Scanned(whole, rest[1..], price, seen + [rest[0].(qty := rest[0].qty - left)], 0,
                    gone, fills + [Fill(rest[0].id, price, left)])
  {
    RetainOne(seen, rest[0].(qty := rest[0].qty - left));
  }

  lemma ScanDone(whole: Swept, level: seq<Queued>, i: nat, price: nat, left: nat, gone: set<nat>, fills: seq<Fill>)
    requires i <= |level| && LevelLive(level[i..]) && (i == |level| || left == 0)
    requires Scanned(whole, level[i..], price, level[..i], left, gone, fills)
    ensures whole == Swept(fills, RetainLive(level), left, gone)
  {
    hide RetainLive;
    assert Sweep(level[i..], left, price) == Swept([], level[i..], left, {});
    RetainSplit(level, i);
    assert fills + [] == fills && gone + {} == gone;
  }

  lemma ScanStart(level: seq<Queued>, incoming: nat, price: nat, prior: seq<Fill>) returns (whole: Swept)
    ensures var s := Sweep(level, incoming, price);
            && whole == s.(fills := prior + s.fills)
            && Traded(s.fills) + s.left == incoming
    ensures Scanned(whole, level[0..], price, level[..0], incoming, {}, prior)
  {
    SweepSum(level, incoming, price);
    var s := Sweep(level, incoming, price);
    whole := s.(fills := prior + s.fills);
    assert level[0..] == level && level[..0] == [];
  }

  lemma MinusNothing(loc: map<nat, Loc>)
    ensures loc - {} == loc
  {}

  lemma MinusOneMore(loc: map<nat, Loc>, gone: set<nat>, id: nat)
    ensures (loc - gone) - {id} == loc - (gone + {id})
  {}

  /** Overwriting the maker at `i` leaves the makers behind it as they were. */
  lemma SameTail(level: seq<Queued>, was: seq<Queued>, i: nat, now: Queued)
    requires i < |level| == |was| && level[i..] == was[i..]
    ensures level[i] == was[i] && was[i..] != [] && was[i..][0] == was[i] && was[i..][1..] == was[i + 1..]
    ensures level[i := now][i + 1..] == was[i + 1..]
    ensures level[i := now][..i + 1] == level[..i] + [now]
  {}

  /** The patched per-level match loop: it stops once the incoming quantity is used up. */
  method MatchAtPriceLevel(priceLevel: seq<Queued>, incoming: nat, orderLoc: map<nat, Loc>, makerPrice: nat,
                           makerFills: seq<Fill>)
    returns (level: seq<Queued>, left: nat, loc: map<nat, Loc>, fills: seq<Fill>, doneQty: nat)
    requires LevelLive(priceLevel)
    ensures var s := Sweep(priceLevel, incoming, makerPrice);
            && level == s.level && left == s.left && loc == orderLoc - s.gone && fills == makerFills + s.fills
            && doneQty == Traded(s.fills)
  {
    hide Sweep, RetainLive, Traded, SumQty, Scanned;
    ghost var whole := ScanStart(priceLevel, incoming, makerPrice, makerFills);
    level, left, loc, fills, doneQty := priceLevel, incoming, orderLoc, makerFills, 0;
    var i := 0;
    ghost var gone: set<nat> := {};
    MinusNothing(loc);
    while i < |level|
      invariant i <= |level| == |priceLevel| && level[i..] == priceLevel[i..]
      invariant loc == orderLoc - gone
      invariant doneQty + left == incoming
      invariant Scanned(whole, priceLevel[i..], makerPrice, level[..i], left, gone, fills)
    {
      if left == 0 {
        break;
      }
      var o := level[i];
      ghost var rest, seen := priceLevel[i..], level[..i];
      if o.qty <= left {
        SameTail(level, priceLevel, i, o.(qty := 0));
        ScanFullMaker(whole, rest, makerPrice, seen, left, gone, fills);
        left := left - o.qty;
        doneQty := doneQty + o.qty;
        fills := fills + [Fill(o.id, makerPrice, o.qty)];
        level := level[i := o.(qty := 0)];
        MinusOneMore(orderLoc, gone, o.id);
        loc := loc - {o.id};
        gone := gone + {o.id};
      } else {
        SameTail(level, priceLevel, i, o.(qty := o.qty - left));
        ScanPartialMaker(whole, rest, makerPrice, seen, left, gone, fills);
        level := level[i := o.(qty := o.qty - left)];
        doneQty := doneQty + left;
        fills := fills + [Fill(o.id, makerPrice, left)];
        left := 0;
      }
      i := i + 1;
    }
    ScanDone(whole, level, i, makerPrice, left, gone, fills);
    level := RetainLive(level);
  }

  // ----- the early exit preserves meaning -------------------------------------------

  function ZeroFills(level: seq<Queued>, price: nat): seq<Fill> {
    if level == [] then [] else [Fill(level[0].id, price, 0)] + ZeroFills(level[1..], price)
  }

  /** A maker reached with nothing left is recorded with quantity zero and not changed. */
  lemma ScanIdleMaker(whole: Swept, rest: seq<Queued>, price: nat, seen: seq<Queued>, gone: set<nat>, fills: seq<Fill>)
    requires rest != [] && rest[0].qty > 0
    requires Scanned(whole, rest, price, seen, 0, gone, fills)
    ensures Scanned(whole, rest[1..], price, seen + [rest[0]], 0, gone, fills)
  {
    RetainOne(seen, rest[0]);
    assert rest == [rest[0]] + rest[1..];
    assert RetainLive(seen) + rest == (RetainLive(seen) + [rest[0]]) + rest[1..];
  }

  lemma NoZeroFills(level: seq<Queued>, price: nat)
    ensures [] + ZeroFills(level[0..0], price) == []
  {}

  lemma ZeroFillsStep(level: seq<Queued>, from: nat, i: nat, price: nat)
    requires from <= i < |level|
    ensures ZeroFills(level[from..i + 1], price) == ZeroFills(level[from..i], price) + [Fill(level[i].id, price, 0)]
    ensures ZeroFills(level[i..i], price) == ZeroFills(level[i + 1..i + 1], price) == []
  {
    assert level[from..i + 1] == level[from..i] + [level[i]];
    ZeroFillsOne(level[from..i], level[i], price);
  }

  lemma {:induction false} ZeroFillsOne(level: seq<Queued>, o: Queued, price: nat)
    ensures ZeroFills(level + [o], price) == ZeroFills(level, price) + [Fill(o.id, price, 0)]
  {
    if level == [] {
      assert level + [o] == [o] && [o][1..] == [];
    } else {
      assert (level + [o])[1..] == level[1..] + [o];
      ZeroFillsOne(level[1..], o, price);
    }
  }

  /** The loop without the early exit visits every maker of the level. On live levels it
      leaves the same level, index and quantities; what it records beyond the patched
      loop's fills is one zero-quantity fill per maker it had no lots left for. */
  method MatchWholePriceLevel(priceLevel: seq<Queued>, incoming: nat, orderLoc: map<nat, Loc>, makerPrice: nat)
    returns (level: seq<Queued>, left: nat, loc: map<nat, Loc>, fills: seq<Fill>, doneQty: nat)
    requires LevelLive(priceLevel)
    ensures var s := Sweep(priceLevel, incoming, makerPrice);
            && level == s.level && left == s.left && loc == orderLoc - s.gone
            && |s.fills| <= |priceLevel|
            && fills == s.fills + ZeroFills(priceLevel[|s.fills|..], makerPrice)
            && doneQty == Traded(s.fills)
  {
    hide Sweep, RetainLive, Traded, SumQty, Scanned, ZeroFills;
    ghost var whole := ScanStart(priceLevel, incoming, makerPrice, []);
    level, left, loc, fills, doneQty := priceLevel, incoming, orderLoc, [], 0;
    var i := 0;
    ghost var gone: set<nat> := {};
    ghost var actual: seq<Fill> := [];
    MinusNothing(loc);
    NoZeroFills(priceLevel, makerPrice);
    while i < |level|
      invariant i <= |level| == |priceLevel| && level[i..] == priceLevel[i..]
      invariant loc == orderLoc - gone
      invariant doneQty + left == incoming
      invariant |actual| <= i && (left > 0 ==> |actual| == i)
      invariant fills == actual + ZeroFills(priceLevel[|actual|..i], makerPrice)
      invariant Scanned(whole, priceLevel[i..], makerPrice, level[..i], left, gone, actual)
    {
      var o := level[i];
      ghost var rest, seen := priceLevel[i..], level[..i];
      ZeroFillsStep(priceLevel, |actual|, i, makerPrice);
      if o.qty <= left {
        SameTail(level, priceLevel, i, o.(qty := 0));
        ScanFullMaker(whole, rest, makerPrice, seen, left, gone, actual);
        left := left - o.qty;
        doneQty := doneQty + o.qty;
        fills := fills + [Fill(o.id, makerPrice, o.qty)];
        actual := actual + [Fill(o.id, makerPrice, o.qty)];
        level := level[i := o.(qty := 0)];
        MinusOneMore(orderLoc, gone, o.id);
        loc := loc - {o.id};
        gone := gone + {o.id};
      } else {
        SameTail(level, priceLevel, i, o.(qty := o.qty - left));
        if left == 0 {
          ScanIdleMaker(whole, rest, makerPrice, seen, gone, actual);
        } else {
          ScanPartialMaker(whole, rest, makerPrice, seen, left, gone, actual);
          actual := actual + [Fill(o.id, makerPrice, left)];
        }
        level := level[i := o.(qty := o.qty - left)];
        doneQty := doneQty + left;
        fills := fills + [Fill(o.id, makerPrice, left)];
        left := 0;
      }
      i := i + 1;
    }
    ScanDone(whole, level, i, makerPrice, left, gone, actual);
    level := RetainLive(level);
    assert priceLevel[|actual|..i] == priceLevel[|actual|..];
  }
}
