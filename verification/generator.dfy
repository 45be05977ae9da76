/** The workload generator: passive orders along a mid-price path, a shuffle into arrival
    order, and each order's life written onto one timeline. Floating-point decisions (the mid
    path, the level sample, the percentages and the exponential life) are arbitrary inputs. */
module Generator {
  import opened Basics
  import opened Contract
  import opened MatchingLaws
  import opened Rng
  import opened Delivery
  import opened Audit

  const NEW: nat := 0
  const CANCEL: nat := 1
  const MODIFY: nat := 2

  // ----- phase 1: placement ---------------------------------------------------------------------------

  datatype NewOrder = NewOrder(side: Side, price: int, qty: nat, level: nat)

  function Placed(i: nat, count: nat, mid: int, level: nat, u: Draw): NewOrder {
    var side := if i < count / 2 then Buy else Sell;
    var px := if side.Buy? then mid - (level + 1) else mid + (level + 1);
    NewOrder(side, if px < 1 then 1 else px, UniformInt(1, 100, u), level)
  }

  /** Placement is passive: level + 1 ticks behind the mid on the order's own side if and only if
      that is a price of at least 1, and otherwise at 1. The quantity is the draw's place in
      1..100. */
  lemma PlacedPassively(i: nat, count: nat, mid: int, level: nat, u: Draw)
    ensures var n := Placed(i, count, mid, level, u);
            var passive := if n.side == Buy then mid - (level + 1) else mid + (level + 1);
            && (n.side == Buy <==> i < count / 2) && n.level == level
            && (n.price == passive <==> passive >= 1) && (passive < 1 ==> n.price == 1)
            && (if n.side == Buy then n.price < mid || n.price == 1 else n.price > mid)
            && 1 <= n.qty <= 100 && 1 + u * 100 / TWO_53 <= n.qty <= 2 + u * 100 / TWO_53
  {
    hide UniformInt;
    UniformIntInRange(1, 100, u);
    UniformIntIsNear(1, 100, u);
  }

  /** Every quantity of 1..100 is placed for some draw. */
  lemma EveryQuantityPlaced(i: nat, count: nat, mid: int, level: nat, qty: nat) returns (u: Draw)
    requires 1 <= qty <= 100
    ensures Placed(i, count, mid, level, u).qty == qty
  {
    hide UniformInt;
    u := EveryValueDrawn(1, 100, qty);
  }

  // ----- phase 2: the shuffle ---------------------------------------------------------------------------

  ghost predicate Permutation(s: seq<nat>) {
    (forall i | 0 <= i < |s| :: s[i] < |s|) && (forall i, j | 0 <= i < j < |s| :: s[i] != s[j])
  }

  function Naturals(n: nat): (e: set<nat>)
    ensures |e| == n && forall x :: x in e <==> 0 <= x < n
  {
    if n == 0 then {} else Naturals(n - 1) + {n - 1}
  }

  lemma {:induction false} Distinct(s: seq<nat>)
    requires forall i, j | 0 <= i < j < |s| :: s[i] != s[j]
    ensures |Elements(s)| == |s|
  {
    if s != [] {
      var n := |s| - 1;
      Distinct(s[..n]);
      assert s == s[..n] + [s[n]];
      assert Elements(s) == Elements(s[..n]) + {s[n]};
    }
  }

  /** A permutation of 0..n misses none of them. */
  lemma PermutationIsOnto(s: seq<nat>, v: nat)
    requires Permutation(s) && v < |s|
    ensures v in s
  {
    Distinct(s);
    if v !in s {
      SubsetIsNoLarger(Elements(s), Naturals(|s|) - {v});
    }
  }

  function Swapped(s: seq<nat>, i: nat, j: nat): (r: seq<nat>)
    requires i < |s| && j < |s|
    ensures |r| == |s|
  {
    s[i := s[j]][j := s[i]]
  }

  /** The partner of place `i`: a uniform draw from 0..i, whose bound is narrowed to 32 bits. */
  function Partner(n: nat, i: nat, draws: seq<Draw>): (j: nat)
    requires 0 < i < n && |draws| >= n - 1
    ensures j <= i
  {
    UniformIntInRange(0, i % TWO_32, draws[n - 1 - i]);
    UniformInt(0, i % TWO_32, draws[n - 1 - i])
  }

  /** What the swaps at places `i` down to 1 make of `s`. */
  function Shuffled(s: seq<nat>, i: nat, draws: seq<Draw>): (r: seq<nat>)
    requires i < |s| && |draws| >= |s| - 1
    ensures |r| == |s|
    decreases i
  {
    if i == 0 then s else Shuffled(Swapped(s, i, Partner(|s|, i, draws)), i - 1, draws)
  }

  lemma SwapKeepsPermutation(s: seq<nat>, i: nat, j: nat)
    requires Permutation(s) && i < |s| && j < |s|
    ensures Permutation(Swapped(s, i, j))
  {}

  /** Whatever is drawn, the shuffle rearranges: no index is lost or repeated. */
  lemma {:induction false} ShuffleKeepsPermutation(s: seq<nat>, i: nat, draws: seq<Draw>)
    requires Permutation(s) && i < |s| && |draws| >= |s| - 1
    ensures Permutation(Shuffled(s, i, draws))
    decreases i
  {
    hide Permutation, Partner, Swapped;
    if i > 0 {
      SwapKeepsPermutation(s, i, Partner(|s|, i, draws));
      ShuffleKeepsPermutation(Swapped(s, i, Partner(|s|, i, draws)), i - 1, draws);
    }
  }

  /** And every rearrangement can be drawn, as long as no bound needs more than 32 bits. */
  lemma {:induction false} EveryOrderDrawn(s: seq<nat>, i: nat, target: seq<nat>, fixed: seq<Draw>)
    returns (draws: seq<Draw>)
    requires |s| == |target| && i < |s| < TWO_32 && |fixed| == |s| - 1 - i
    requires s[i + 1..] == target[i + 1..] && multiset(s[..i + 1]) == multiset(target[..i + 1])
    ensures |draws| == |s| - 1 && draws[..|fixed|] == fixed && Shuffled(s, i, draws) == target
    decreases i
  {
    hide UniformInt, Swapped;
    if i == 0 {
      draws := fixed;
      LastPlace(s, target);
    } else {
      var j := PlaceOf(s, i, target);
      var u := EveryValueDrawn(0, i, j);
      SwapTowards(s, i, j, target);
      draws := EveryOrderDrawn(Swapped(s, i, j), i - 1, target, fixed + [u]);
      FixedStay(draws, fixed, u);
    }
  }

  lemma FixedStay(draws: seq<Draw>, fixed: seq<Draw>, u: Draw)
    requires |fixed| < |draws| && draws[..|fixed| + 1] == fixed + [u]
    ensures draws[|fixed|] == u && draws[..|fixed|] == fixed
  {
    assert draws[|fixed|] == draws[..|fixed| + 1][|fixed|];
    assert draws[..|fixed|] == draws[..|fixed| + 1][..|fixed|];
  }

  lemma LastPlace(s: seq<nat>, target: seq<nat>)
    requires |s| == |target| > 0 && s[1..] == target[1..] && multiset(s[..1]) == multiset(target[..1])
    ensures s == target
  {
    assert s[..1] == [s[0]] && target[..1] == [target[0]];
    assert s[0] in multiset(target[..1]);
    assert s == [s[0]] + s[1..] && target == [target[0]] + target[1..];
  }

  /** The value wanted at place `i` is still among the places up to `i`. */
  lemma PlaceOf(s: seq<nat>, i: nat, target: seq<nat>) returns (j: nat)
    requires |s| == |target| && i < |s| && multiset(s[..i + 1]) == multiset(target[..i + 1])
    ensures j <= i && s[j] == target[i]
  {
    assert target[..i + 1][i] in multiset(target[..i + 1]);
    assert target[i] in s[..i + 1];
    j :| 0 <= j < i + 1 && s[..i + 1][j] == target[i];
  }

  lemma SwapKeepsAll(s: seq<nat>, i: nat, j: nat)
    requires i < |s| && j < |s|
    ensures multiset(Swapped(s, i, j)) == multiset(s)
  {}

  lemma SwapTowards(s: seq<nat>, i: nat, j: nat, target: seq<nat>)
    requires |s| == |target| && j <= i < |s| && i > 0 && s[j] == target[i]
    requires s[i + 1..] == target[i + 1..] && multiset(s[..i + 1]) == multiset(target[..i + 1])
    ensures Swapped(s, i, j)[i..] == target[i..] && multiset(Swapped(s, i, j)[..i]) == multiset(target[..i])
  {
    hide Swapped;
    var t := Swapped(s, i, j);
    SwapInPlace(s, i, j);
    SwapKeepsAll(s[..i + 1], i, j);
    assert target[..i + 1] == target[..i] + [target[i]] && target[i..] == [target[i]] + target[i + 1..];
    SameLast(t[..i], target[..i], target[i]);
  }

  lemma SwapInPlace(s: seq<nat>, i: nat, j: nat)
    requires j <= i < |s|
    ensures Swapped(s, i, j)[i..] == [s[j]] + s[i + 1..]
    ensures Swapped(s, i, j)[..i] + [s[j]] == Swapped(s[..i + 1], i, j)
  {}

  lemma SameLast(a: seq<nat>, b: seq<nat>, x: nat)
    requires multiset(a + [x]) == multiset(b + [x])
    ensures multiset(a) == multiset(b)
  {
    assert multiset(a + [x]) - multiset{x} == multiset(a);
    assert multiset(b + [x]) - multiset{x} == multiset(b);
  }

  lemma ShuffledStep(s: seq<nat>, i: nat, draws: seq<Draw>)
    requires i < |s| && |draws| >= |s| - 1
    ensures Shuffled(s, i, draws)
         == if i == 0 then s else Shuffled(Swapped(s, i, Partner(|s|, i, draws)), i - 1, draws)
  {}

  lemma SwappedIs(s: seq<nat>, i: nat, j: nat, t: seq<nat>)
    requires |s| == |t| && i < |s| && j < |s| && t[i] == s[j] && t[j] == s[i]
    requires forall k | 0 <= k < |s| && k != i && k != j :: t[k] == s[k]
    ensures t == Swapped(s, i, j)
  {}

  /** The Fisher-Yates loop, from the last index down to 1. */
  method Shuffle(order: array<nat>, draws: seq<Draw>)
    requires order.Length > 0 && |draws| >= order.Length - 1
    modifies order
    ensures order[..] == Shuffled(old(order[..]), order.Length - 1, draws)
  {
    hide Partner, Swapped, Shuffled;
    var i: nat := order.Length - 1;
    while i > 0
      invariant i < order.Length
      invariant Shuffled(order[..], i, draws) == Shuffled(old(order[..]), order.Length - 1, draws)
    {
      ghost var before := order[..];
      ShuffledStep(before, i, draws);
      var j := Partner(order.Length, i, draws);
      order[i], order[j] := order[j], order[i];
      SwappedIs(before, i, j, order[..]);
      i := i - 1;
    }
    ShuffledStep(order[..], 0, draws);
  }

  // ----- one order's life ------------------------------------------------------------------------------------

  datatype Timed = Timed(ts: int, kind: nat, side: Side, ioc: bool, qty: nat, id: nat, price: int)

  /** What chance decides about one order. */
  datatype Fate = Fate(ioc: bool, modified: bool, delay: Draw, repriced: bool, cancelled: bool, ttl: nat,
                       cancelledAgain: bool, cancelGap: Draw, modifiedAgain: bool, modifyGap: Draw)

  datatype Timeline = Timeline(msgs: seq<Timed>, now: int)

  /** The life of one order from `now` on: the new order; unless it is immediate-or-cancel, an
      optional modify, an optional cancel with an optional duplicate, and for an order both
      modified and cancelled an optional stale modify. */
  function Life(n: NewOrder, id: nat, f: Fate, now: int): Timeline {
    var first := Timed(now, NEW, n.side, f.ioc, n.qty, id, n.price);
    if f.ioc then Timeline([first], now + 1)
    else
      var t1 := if f.modified then now + 30 + Scaled(f.delay, 70) else now;
      var price := if f.modified && f.repriced then Repriced(n) else n.price;
      var t2 := if f.cancelled then t1 + f.ttl else t1;
      var t3 := if f.cancelled && f.cancelledAgain then t2 + 1 + Scaled(f.cancelGap, 20) else t2;
      var stale := f.modified && f.cancelled && f.modifiedAgain;
      var t4 := if stale then t3 + 1 + Scaled(f.modifyGap, 20) else t3;
      Timeline([first]
               + (if f.modified then [Timed(t1, MODIFY, n.side, false, n.qty + 1, id, price)] else [])
               + (if f.cancelled then [Timed(t2, CANCEL, n.side, false, n.qty, id, n.price)] else [])
               + (if f.cancelled && f.cancelledAgain then [Timed(t3, CANCEL, n.side, false, n.qty, id, n.price)]
                  else [])
               + (if stale then [Timed(t4, MODIFY, n.side, false, n.qty + 1, id, price)] else []),
               t4 + 1)
  }

  /** One tick towards the other side. */
  function Repriced(n: NewOrder): int {
    if n.side.Buy? then n.price + 1 else n.price - 1
  }

  function Kinds(msgs: seq<Timed>): (ks: seq<nat>)
    ensures |ks| == |msgs|
  {
    seq(|msgs|, i requires 0 <= i < |msgs| => msgs[i].kind)
  }

  /** The orders in which an order's messages can come. */
  predicate IsLife(kinds: seq<nat>) {
    || kinds == [NEW] || kinds == [NEW, CANCEL] || kinds == [NEW, CANCEL, CANCEL]
    || kinds == [NEW, MODIFY] || kinds == [NEW, MODIFY, CANCEL] || kinds == [NEW, MODIFY, CANCEL, CANCEL]
    || kinds == [NEW, MODIFY, CANCEL, MODIFY] || kinds == [NEW, MODIFY, CANCEL, CANCEL, MODIFY]
  }

  ghost predicate InTime(msgs: seq<Timed>) {
    forall i, j | 0 <= i < j < |msgs| :: msgs[i].ts <= msgs[j].ts
  }

  ghost predicate Within(msgs: seq<Timed>, from: int, till: int) {
    forall i | 0 <= i < |msgs| :: from <= msgs[i].ts < till
  }

  /** A message that belongs to the life of order `n` under `id`. */
  predicate Belongs(m: Timed, n: NewOrder, id: nat) {
    && m.id == id && m.side == n.side
    && match m.kind
       case 0 => m.qty == n.qty && m.price == n.price
       case 1 => m.qty == n.qty && m.price == n.price && !m.ioc
       case _ => m.kind == MODIFY && m.qty == n.qty + 1 && !m.ioc && (m.price == n.price || m.price == Repriced(n))
  }

  ghost predicate AllBelong(msgs: seq<Timed>, n: NewOrder, id: nat) {
    forall i | 0 <= i < |msgs| :: Belongs(msgs[i], n, id)
  }

  /** Every life is one of the eight, starts with its only new order, and an immediate-or-cancel
      order has nothing but its new order. */
  lemma LifeIsLife(n: NewOrder, id: nat, f: Fate, now: int)
    ensures var l := Life(n, id, f, now).msgs;
            && IsLife(Kinds(l)) && l[0].kind == NEW && (l[0].ioc <==> f.ioc)
            && (f.ioc ==> |l| == 1) && forall i | 0 < i < |l| :: l[i].kind != NEW
  {
    hide Scaled;
    var ks := Kinds(Life(n, id, f, now).msgs);
    if f.ioc {
      assert ks == [NEW];
    } else if !f.modified {
      assert ks == [NEW] || ks == [NEW, CANCEL] || ks == [NEW, CANCEL, CANCEL];
    } else if !f.cancelled {
      assert ks == [NEW, MODIFY];
    } else if !f.cancelledAgain {
      assert ks == [NEW, MODIFY, CANCEL] || ks == [NEW, MODIFY, CANCEL, MODIFY];
    } else {
      assert ks == [NEW, MODIFY, CANCEL, CANCEL] || ks == [NEW, MODIFY, CANCEL, CANCEL, MODIFY];
    }
  }

  /** Which life chance decides: one modify behind the new order if drawn, then no cancel, one or
      two, then a late modify behind both; nothing at all behind an immediate-or-cancel order. Modifies
      add one lot, and move the price by one tick, up for a buy and down for a sell, exactly when
      drawn so. */
  lemma LifeFollowsFate(n: NewOrder, id: nat, f: Fate, now: int)
    ensures var t := Life(n, id, f, now);
            var l := t.msgs;
            var mods := if !f.ioc && f.modified then 1 else 0;
            var cancels := if f.ioc || !f.cancelled then 0 else if f.cancelledAgain then 2 else 1;
            var late := if mods == 1 && cancels > 0 && f.modifiedAgain then 1 else 0;
            var moved := if !f.repriced then 0 else if n.side == Buy then 1 else -1;
            && |l| == 1 + mods + cancels + late
            && l[0] == Timed(now, 0, n.side, f.ioc, n.qty, id, n.price)
            && t.now == l[|l| - 1].ts + 1
            && forall i | 0 < i < |l| ::
                 if i <= mods || i > mods + cancels
                 then l[i] == Timed(l[i].ts, 2, n.side, false, n.qty + 1, id, n.price + moved)
                 else l[i] == Timed(l[i].ts, 1, n.side, false, n.qty, id, n.price)
  {
    hide Scaled;
  }

  /** The messages of a life come in time order, and before the next life starts. */
  lemma LifeInTime(n: NewOrder, id: nat, f: Fate, now: int)
    ensures var l := Life(n, id, f, now); InTime(l.msgs) && Within(l.msgs, now, l.now)
  {
    hide Scaled, Repriced;
  }

  /** Every message of a life keeps its id and side; every modify raises the quantity by one and
      reprices by at most one tick, towards the other side. */
  lemma LifeBelongs(n: NewOrder, id: nat, f: Fate, now: int)
    ensures AllBelong(Life(n, id, f, now).msgs, n, id)
  {
    hide Scaled, Repriced;
  }

  /** The gap that kind `to` keeps behind kind `before`: a modify 30 to 99 ticks behind the new
      order, the cancel its time to live behind either, and a repetition 1 to 20 ticks behind the
      cancel it repeats or comes too late for. */
  predicate GapInRange(f: Fate, before: nat, to: nat, gap: int) {
    if to == CANCEL && before != CANCEL then gap == f.ttl
    else if before == NEW then 30 <= gap < 100
    else 1 <= gap <= 20
  }

  /** Every message of a life keeps its gap behind the one before it, whatever was drawn. */
  lemma GapsInRange(n: NewOrder, id: nat, f: Fate, now: int, i: nat)
    requires 0 < i < |Life(n, id, f, now).msgs|
    ensures var l := Life(n, id, f, now).msgs; GapInRange(f, l[i - 1].kind, l[i].kind, l[i].ts - l[i - 1].ts)
  {
    hide Scaled, Repriced;
    ScaledBelow(f.delay, 70);
    ScaledBelow(f.cancelGap, 20);
    ScaledBelow(f.modifyGap, 20);
  }

  // ----- the timeline --------------------------------------------------------------------------------------

  ghost predicate Drawn(news: seq<NewOrder>, order: seq<nat>, fates: seq<Fate>) {
    |news| == |order| == |fates| && Permutation(order)
  }

  /** The lives of the first `k` arrivals, one behind the other. */
  function Lives(news: seq<NewOrder>, order: seq<nat>, fates: seq<Fate>, k: nat): Timeline
    requires Drawn(news, order, fates) && k <= |order|
    decreases k, 0
  {
    if k == 0 then Timeline([], 0)
    else
      var before := Lives(news, order, fates, k - 1);
      var l := LifeOf(news, order, fates, k - 1);
      Timeline(before.msgs + l.msgs, l.now)
  }

  /** The life of the `k`th arrival. */
  function LifeOf(news: seq<NewOrder>, order: seq<nat>, fates: seq<Fate>, k: nat): Timeline
    requires Drawn(news, order, fates) && k < |order|
    decreases k, 1
  {
    Life(news[order[k]], order[k] + 1, fates[k], Lives(news, order, fates, k).now)
  }

  lemma InTimeConcat(a: seq<Timed>, b: seq<Timed>, s: int, t: int, u: int)
    requires InTime(a) && Within(a, s, t) && InTime(b) && Within(b, t, u) && s <= t <= u
    ensures InTime(a + b) && Within(a + b, s, u)
  {}

  /** The timeline is written in time order. */
  lemma {:induction false} TimelineInTime(news: seq<NewOrder>, order: seq<nat>, fates: seq<Fate>, k: nat)
    requires Drawn(news, order, fates) && k <= |order|
    ensures var l := Lives(news, order, fates, k); 0 <= l.now && InTime(l.msgs) && Within(l.msgs, 0, l.now)
  {
    hide Life, InTime;
    if k == 0 {
      NothingYet();
    } else {
      TimelineInTime(news, order, fates, k - 1);
      var before := Lives(news, order, fates, k - 1);
      var l := LifeOf(news, order, fates, k - 1);
      LifeInTime(news[order[k - 1]], order[k - 1] + 1, fates[k - 1], before.now);
      LifeIsLife(news[order[k - 1]], order[k - 1] + 1, fates[k - 1], before.now);
      assert Within(l.msgs, before.now, l.now) && before.now <= l.msgs[0].ts < l.now;
      InTimeConcat(before.msgs, l.msgs, 0, before.now, l.now);
    }
  }

  lemma NothingYet()
    ensures InTime([]) && Within([], 0, 0)
  {}

  /** `b` is `a` sorted by time, where `pi[i]` is the place in `a` of the message at `i`, and
      messages of equal time keep their order. */
  ghost predicate IsStableSort(a: seq<Timed>, b: seq<Timed>, pi: seq<nat>) {
    && |b| == |a| == |pi| && Permutation(pi) && InTime(b)
    && (forall i | 0 <= i < |b| :: b[i] == a[pi[i]])
    && forall i, j | 0 <= i < j < |b| && b[i].ts == b[j].ts :: pi[i] < pi[j]
  }

  lemma EarlierIsNoLater(a: seq<Timed>, i: nat, j: nat)
    requires InTime(a) && i < |a| && j < |a|
    ensures i < j ==> a[i].ts <= a[j].ts
  {}

  /** On a timeline already in time order, the stable sort changes nothing. */
  lemma SortIsIdentity(a: seq<Timed>, b: seq<Timed>, pi: seq<nat>)
    requires InTime(a) && IsStableSort(a, b, pi)
    ensures b == a
  {
    forall i, j | 0 <= i < j < |pi| ensures pi[i] < pi[j] {
      assert b[i].ts <= b[j].ts;
      EarlierIsNoLater(a, pi[j], pi[i]);
    }
    forall i | 0 <= i < |b| ensures b[i] == a[i] {
      EveryIndexPicked(pi, |a|, i);
    }
  }

  // ----- every order lives once, in one stretch of the timeline ------------------------------------------

  /** The message at `i` is part of the life of some arrival `j`. */
  lemma {:induction false} StretchOf(news: seq<NewOrder>, order: seq<nat>, fates: seq<Fate>, n: nat, i: nat)
    returns (j: nat)
    requires Drawn(news, order, fates) && n <= |order| && i < |Lives(news, order, fates, n).msgs|
    ensures j < n && |Lives(news, order, fates, j).msgs| <= i < |Lives(news, order, fates, j + 1).msgs|
    ensures Lives(news, order, fates, n).msgs[i]
         == LifeOf(news, order, fates, j).msgs[i - |Lives(news, order, fates, j).msgs|]
  {
    hide Life, Permutation;
    if i < |Lives(news, order, fates, n - 1).msgs| {
      j := StretchOf(news, order, fates, n - 1, i);
    } else {
      j := n - 1;
    }
  }

  /** A life, once written, stays where it is. */
  lemma {:induction false} StretchStays(news: seq<NewOrder>, order: seq<nat>, fates: seq<Fate>, k: nat, n: nat)
    requires Drawn(news, order, fates) && k < n <= |order|
    ensures var a := |Lives(news, order, fates, k).msgs|;
            var b := |Lives(news, order, fates, k + 1).msgs|;
            var all := Lives(news, order, fates, n).msgs;
            b == a + |LifeOf(news, order, fates, k).msgs| <= |all|
            && all[a..b] == LifeOf(news, order, fates, k).msgs
  {
    hide Life, Permutation;
    if k < n - 1 {
      StretchStays(news, order, fates, k, n - 1);
    }
  }

  lemma StretchIds(news: seq<NewOrder>, order: seq<nat>, fates: seq<Fate>, k: nat)
    requires Drawn(news, order, fates) && k < |order|
    ensures AllBelong(LifeOf(news, order, fates, k).msgs, news[order[k]], order[k] + 1)
    ensures IsLife(Kinds(LifeOf(news, order, fates, k).msgs))
  {
    hide Life, AllBelong, IsLife;
    LifeBelongs(news[order[k]], order[k] + 1, fates[k], Lives(news, order, fates, k).now);
    LifeIsLife(news[order[k]], order[k] + 1, fates[k], Lives(news, order, fates, k).now);
  }

  /** A message carries an arrival's id if and only if it lies in the one stretch of the
      timeline that is that arrival's life: lives do not overlap. */
  lemma OneStretchEach(news: seq<NewOrder>, order: seq<nat>, fates: seq<Fate>, k: nat, i: nat)
    requires Drawn(news, order, fates) && k < |order| && i < |Lives(news, order, fates, |order|).msgs|
    ensures Lives(news, order, fates, |order|).msgs[i].id == order[k] + 1
       <==> |Lives(news, order, fates, k).msgs| <= i < |Lives(news, order, fates, k + 1).msgs|
  {
    hide Lives, LifeOf;
    var all := Lives(news, order, fates, |order|).msgs;
    StretchStays(news, order, fates, k, |order|);
    StretchIds(news, order, fates, k);
    var a := |Lives(news, order, fates, k).msgs|;
    if a <= i < |Lives(news, order, fates, k + 1).msgs| {
      assert all[i] == LifeOf(news, order, fates, k).msgs[i - a];
    } else {
      var j := StretchOf(news, order, fates, |order|, i);
      StretchIds(news, order, fates, j);
      StretchStays(news, order, fates, j, |order|);
      assert Belongs(all[i], news[order[j]], order[j] + 1);
      assert j != k;
    }
  }

  // ----- the generator as a whole ----------------------------------------------------------------------------

  /** The new orders phase 1 places, in index order. */
  ghost predicate PlacedAll(news: seq<NewOrder>, mids: seq<int>, levels: seq<nat>, u: seq<Draw>) {
    |news| == |mids| == |levels| == |u|
    && forall i | 0 <= i < |news| :: news[i] == Placed(i, |news|, mids[i], levels[i], u[i])
  }

  method PlaceAll(mids: seq<int>, levels: seq<nat>, u: seq<Draw>) returns (news: seq<NewOrder>)
    requires |mids| == |levels| == |u|
    ensures PlacedAll(news, mids, levels, u)
  {
    hide UniformInt;
    news := [];
    var i := 0;
    while i < |mids|
      invariant i == |news| <= |mids|
      invariant forall j | 0 <= j < i :: news[j] == Placed(j, |mids|, mids[j], levels[j], u[j])
    {
      news := news + [Placed(i, |mids|, mids[i], levels[i], u[i])];
      i := i + 1;
    }
  }

  /** Writes one order's life onto the timeline. */
  method PushLife(tl: seq<Timed>, n: NewOrder, id: nat, f: Fate, start: int) returns (all: seq<Timed>, now: int)
    ensures var l := Life(n, id, f, start); all == tl + l.msgs && now == l.now
  {
    hide Scaled, Repriced;
    now := start;
    all := tl + [Timed(now, NEW, n.side, f.ioc, n.qty, id, n.price)];
    if f.ioc {
      now := now + 1;
      return;
    }
    var modified, price, qty := false, n.price, n.qty + 1;
    if f.modified {
      var tmod := now + 30 + Scaled(f.delay, 70);
      if f.repriced {
        price := Repriced(n);
      }
      all := all + [Timed(tmod, MODIFY, n.side, false, qty, id, price)];
      now, modified := tmod, true;
    }
    var cancelled := false;
    if f.cancelled {
      all := all + [Timed(now + f.ttl, CANCEL, n.side, false, n.qty, id, n.price)];
      now, cancelled := now + f.ttl, true;
      if f.cancelledAgain {
        var gap := 1 + Scaled(f.cancelGap, 20);
        all := all + [Timed(now + gap, CANCEL, n.side, false, n.qty, id, n.price)];
        now := now + gap;
      }
    }
    if modified && cancelled && f.modifiedAgain {
      var gap := 1 + Scaled(f.modifyGap, 20);
      all := all + [Timed(now + gap, MODIFY, n.side, false, qty, id, price)];
      now := now + gap;
    }
    now := now + 1;
  }

  /** std::iota */
  function Indices(n: nat): (s: seq<nat>)
    ensures |s| == n && Permutation(s)
  {
    seq(n, i => i)
  }

  /** generate, with the check of the count its caller makes: the timeline of every order's life
      in a shuffled arrival order, which the final stable sort by time leaves as it is. */
  method Generate(mids: seq<int>, levels: seq<nat>, u: seq<Draw>, swaps: seq<Draw>, fates: seq<Fate>)
    returns (tl: Option<seq<Timed>>, ghost news: seq<NewOrder>, ghost order: seq<nat>)
    requires |mids| == |levels| == |u| == |swaps| == |fates|
    ensures tl.None? <==> |mids| < 2
    ensures tl.Some? ==>
              && PlacedAll(news, mids, levels, u) && Drawn(news, order, fates)
              && order == Shuffled(Indices(|mids|), |mids| - 1, swaps)
              && tl.value == Lives(news, order, fates, |order|).msgs
              && forall b, pi :: IsStableSort(tl.value, b, pi) ==> b == tl.value
  {
    hide Life, Placed, IsStableSort, Shuffled;
    var count := |mids|;
    if count < 2 {
      return None, [], [];
    }
    var placed := PlaceAll(mids, levels, u);
    var shuffled := new nat[count](i => i);
    assert shuffled[..] == Indices(count);
    ShuffleKeepsPermutation(Indices(count), count - 1, swaps);
    Shuffle(shuffled, swaps);
    news, order := placed, shuffled[..];
    var all, now := [], 0;
    var k := 0;
    while k < count
      invariant k <= count && shuffled[..] == order
      invariant all == Lives(news, order, fates, k).msgs && now == Lives(news, order, fates, k).now
    {
      assert order[k] == shuffled[k] < count;
      all, now := PushLife(all, placed[shuffled[k]], shuffled[k] + 1, fates[k], now);
      k := k + 1;
    }
    TimelineInTime(news, order, fates, count);
    forall b, pi | IsStableSort(all, b, pi) ensures b == all {
      SortIsIdentity(all, b, pi);
    }
    tl := Some(all);
  }
}
