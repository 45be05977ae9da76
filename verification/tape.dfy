/** What every generated workload satisfies, whatever the random draws were: the preconditions
    the engines put on their message streams. */
module Tape {
  import opened Basics
  import opened Contract
  import opened MatchingLaws
  import opened Rng
  import opened Delivery
  import opened Generator
  import opened Consensus
  import opened Reports

  /** The on-disk record of the message at place `i`; the place is the sequence number. */
  function RecordOf(m: Timed, i: nat): Record {
    Record(m.kind, m.id, i, m.price, m.qty, m.side, m.ioc)
  }

  method WriteRecords(tl: seq<Timed>) returns (w: seq<Record>)
    ensures w == Written(tl)
  {
    w := [];
    var i := 0;
    while i < |tl|
      invariant i <= |tl| && w == Written(tl[..i])
    {
      w := w + [RecordOf(tl[i], i)];
      i := i + 1;
    }
    assert tl[..i] == tl;
  }

  function Written(tl: seq<Timed>): (w: seq<Record>)
    ensures |w| == |tl|
  {
    seq(|tl|, i requires 0 <= i < |tl| => RecordOf(tl[i], i))
  }

  /** The messages the engine receives. */
  function Messages(tl: seq<Timed>): (msgs: seq<Msg>)
    ensures |msgs| == |tl|
  {
    PrepareAll(Written(tl))
  }

  /** What is generated arrives: field by field, numbered by its place on the timeline. */
  lemma TimelineArrives(tl: seq<Timed>, i: nat)
    requires i < |tl|
    ensures var m, t := Messages(tl)[i], tl[i];
            && m.id == t.id && m.seqno == i
            && (m.New? <==> t.kind == 0) && (m.Cancel? <==> t.kind == 1)
            && (!m.Cancel? ==> m.price == t.price && m.qty == t.qty && m.side == t.side)
            && (m.New? ==> m.ioc == t.ioc)
  {
    hide Messages;
    MessageAt(tl, i);
  }

  lemma MessageAt(tl: seq<Timed>, i: nat)
    requires i < |tl|
    ensures Messages(tl)[i] == Prepared(RecordOf(tl[i], i))
  {
    PreparedAt(Written(tl), i);
  }

  // ----- what makes a message stream safe ---------------------------------------------------------------

  ghost predicate NewOnce(msgs: seq<Msg>) {
    forall i, j | 0 <= i < j < |msgs| && msgs[i].New? && msgs[j].New? :: msgs[i].id != msgs[j].id
  }

  ghost predicate SidesAgree(msgs: seq<Msg>) {
    forall i, j | 0 <= i < |msgs| && 0 <= j < |msgs| && !msgs[i].Cancel? && !msgs[j].Cancel?
                  && msgs[i].id == msgs[j].id ::
      msgs[i].side == msgs[j].side
  }

  ghost predicate Positive(msgs: seq<Msg>) {
    forall i | 0 <= i < |msgs| && !msgs[i].Cancel? :: msgs[i].qty > 0
  }

  /** The order came in with one of the first `n` messages. */
  ghost predicate Introduced(msgs: seq<Msg>, n: nat, o: Order) {
    exists j :: 0 <= j < n && j < |msgs| && msgs[j].New? && msgs[j].id == o.id && msgs[j].side == o.side
  }

  ghost predicate AllIntroduced(msgs: seq<Msg>, n: nat, b: seq<Order>) {
    forall i | 0 <= i < |b| :: Introduced(msgs, n, b[i])
  }

  lemma ShrunkIntroduced(msgs: seq<Msg>, n: nat, b: seq<Order>, b': seq<Order>)
    requires AllIntroduced(msgs, n, b) && ShrunkFrom(b, b')
    ensures AllIntroduced(msgs, n, b')
  {}

  lemma EnteredIntroduced(msgs: seq<Msg>, n: nat, b: seq<Order>, o: Order, ioc: bool)
    requires WellFormed(b) && AllIntroduced(msgs, n, b) && Introduced(msgs, n, o)
    ensures AllIntroduced(msgs, n, Enter(b, o, ioc).book)
  {
    hide Match;
    MatchKeeps(b, o.side, o.price, o.qty);
    ShrunkIntroduced(msgs, n, b, Match(b, o.side, o.price, o.qty).book);
  }

  lemma MoreIntroduced(msgs: seq<Msg>, n: nat, b: seq<Order>)
    requires AllIntroduced(msgs, n, b)
    ensures AllIntroduced(msgs, n + 1, b)
  {}

  /** One message keeps every resting order introduced by a new order of its id and side. */
  lemma StepIntroduced(msgs: seq<Msg>, n: nat, b: seq<Order>)
    requires n < |msgs| && SidesAgree(msgs) && WellFormed(b) && Uncrossed(b) && AllIntroduced(msgs, n, b)
    ensures AllIntroduced(msgs, n + 1, Step(b, msgs[n]).book)
  {
    hide Match, Enter, Find, SidesAgree, AllIntroduced;
    MoreIntroduced(msgs, n, b);
    match msgs[n]
    case New(id, _, price, qty, side, ioc) =>
      EnteredIntroduced(msgs, n + 1, b, Order(id, side, price, qty), ioc);
    case Cancel(id, _) =>
      var at := Find(b, id);
      if at.Some? {
        RemovedKeeps(b, at.value);
        ShrunkIntroduced(msgs, n + 1, b, RemoveAt(b, at.value));
      }
    case Modify(id, _, price, qty, side) =>
      var at := Find(b, id);
      if at.Some? {
        RemovedKeeps(b, at.value);
        ShrunkIntroduced(msgs, n + 1, b, RemoveAt(b, at.value));
        ModifyKeepsSide(msgs, n, b);
        EnteredIntroduced(msgs, n + 1, RemoveAt(b, at.value), Order(id, side, price, qty), false);
      }
  }

  /** A modify of a resting order carries the resting order's side. */
  lemma ModifyKeepsSide(msgs: seq<Msg>, n: nat, b: seq<Order>)
    requires n < |msgs| && SidesAgree(msgs) && AllIntroduced(msgs, n, b) && msgs[n].Modify?
    ensures var at := Find(b, msgs[n].id);
            at.Some? ==> b[at.value].side == msgs[n].side
                         && Introduced(msgs, n + 1, Order(msgs[n].id, msgs[n].side, msgs[n].price, msgs[n].qty))
  {}

  lemma NewIsFresh(msgs: seq<Msg>, n: nat, b: seq<Order>)
    requires n < |msgs| && NewOnce(msgs) && Positive(msgs) && AllIntroduced(msgs, n, b)
    ensures Admissible(b, msgs[n])
  {}

  /** After every message, every resting order was introduced, and the next message is
      admissible. */
  lemma {:induction false} RunIsSafe(msgs: seq<Msg>, n: nat)
    requires NewOnce(msgs) && SidesAgree(msgs) && Positive(msgs) && n <= |msgs|
    ensures var b := Run([], msgs[..n]).book;
            && WellFormed(b) && Uncrossed(b) && AllIntroduced(msgs, n, b)
            && (n < |msgs| ==> Admissible(b, msgs[n]))
  {
    hide NewOnce, SidesAgree, Positive, Step, WellFormed, Uncrossed, Introduced;
    if n == 0 {
      EmptyBook();
    } else {
      RunIsSafe(msgs, n - 1);
      RunPrefix([], msgs, n - 1);
      StepKeeps(Run([], msgs[..n - 1]).book, msgs[n - 1]);
      StepIntroduced(msgs, n - 1, Run([], msgs[..n - 1]).book);
    }
    if n < |msgs| {
      NewIsFresh(msgs, n, Run([], msgs[..n]).book);
    }
  }

  // ----- generated workloads are safe ------------------------------------------------------------------------

  lemma TapeNewOnce(news: seq<NewOrder>, order: seq<nat>, fates: seq<Fate>, i: nat, j: nat)
    requires Drawn(news, order, fates)
    requires var tl := Lives(news, order, fates, |order|).msgs;
             i < j < |tl| && tl[i].id == tl[j].id
    ensures var tl := Lives(news, order, fates, |order|).msgs;
            tl[i].side == tl[j].side && tl[j].kind != NEW
  {
    hide Lives, Life, LifeOf, Kinds, IsLife;
    var tl := Lives(news, order, fates, |order|).msgs;
    var k := Owner(news, order, fates, i);
    OneStretchEach(news, order, fates, k, j);
    var a := |Lives(news, order, fates, k).msgs|;
    StretchStays(news, order, fates, k, |order|);
    StretchIds(news, order, fates, k);
    LifeHasOneNew(news, order, fates, k, j - a);
    assert tl[i] == LifeOf(news, order, fates, k).msgs[i - a];
    assert tl[j] == LifeOf(news, order, fates, k).msgs[j - a];
  }

  lemma LifeHasOneNew(news: seq<NewOrder>, order: seq<nat>, fates: seq<Fate>, k: nat, i: nat)
    requires Drawn(news, order, fates) && k < |order| && 0 < i < |LifeOf(news, order, fates, k).msgs|
    ensures LifeOf(news, order, fates, k).msgs[i].kind != NEW
  {}

  /** The arrival a message belongs to. */
  lemma Owner(news: seq<NewOrder>, order: seq<nat>, fates: seq<Fate>, i: nat) returns (k: nat)
    requires Drawn(news, order, fates) && i < |Lives(news, order, fates, |order|).msgs|
    ensures k < |order| && Lives(news, order, fates, |order|).msgs[i].id == order[k] + 1
    ensures |Lives(news, order, fates, k).msgs| <= i < |Lives(news, order, fates, k + 1).msgs|
    ensures Belongs(Lives(news, order, fates, |order|).msgs[i], news[order[k]], order[k] + 1)
  {
    hide Lives, Life, LifeOf, Kinds, IsLife;
    k := StretchOf(news, order, fates, |order|, i);
    OneStretchEach(news, order, fates, k, i);
    StretchStays(news, order, fates, k, |order|);
    StretchIds(news, order, fates, k);
  }

  /** Every id of 1..count is the id of exactly one new order on the timeline. */
  lemma OneNewEach(news: seq<NewOrder>, order: seq<nat>, fates: seq<Fate>, id: nat) returns (at: nat)
    requires Drawn(news, order, fates) && 1 <= id <= |order|
    ensures var tl := Lives(news, order, fates, |order|).msgs;
            && at < |tl| && tl[at].kind == NEW && tl[at].id == id
            && forall i | 0 <= i < |tl| && i != at :: !(tl[i].kind == NEW && tl[i].id == id)
  {
    hide Lives, Life, LifeOf, Kinds, IsLife;
    PermutationIsOnto(order, id - 1);
    var k :| 0 <= k < |order| && order[k] == id - 1;
    at := |Lives(news, order, fates, k).msgs|;
    StretchStays(news, order, fates, k, |order|);
    FirstIsNew(news, order, fates, k);
    var tl := Lives(news, order, fates, |order|).msgs;
    assert tl[at] == LifeOf(news, order, fates, k).msgs[0];
    OneStretchEach(news, order, fates, k, at);
    forall i | 0 <= i < |tl| && i != at ensures !(tl[i].kind == NEW && tl[i].id == id) {
      OneStretchEach(news, order, fates, k, i);
      if tl[i].id == id {
        TapeNewOnce(news, order, fates, at, i);
      }
    }
  }

  lemma FirstIsNew(news: seq<NewOrder>, order: seq<nat>, fates: seq<Fate>, k: nat)
    requires Drawn(news, order, fates) && k < |order|
    ensures |LifeOf(news, order, fates, k).msgs| > 0 && LifeOf(news, order, fates, k).msgs[0].kind == NEW
  {}

  /** A placed message: positive quantity, and a price of at least 1, except that a sell's modify
      may reprice from 1 to 0. */
  predicate Priced(m: Timed) {
    m.qty > 0 && (m.price >= 1 || (m.price == 0 && m.kind == MODIFY && m.side.Sell?))
  }

  lemma PlacedIsPriced(news: seq<NewOrder>, order: seq<nat>, fates: seq<Fate>,
                       mids: seq<int>, levels: seq<nat>, u: seq<Draw>, i: nat)
    requires Drawn(news, order, fates) && PlacedAll(news, mids, levels, u)
    requires i < |Lives(news, order, fates, |order|).msgs|
    ensures Priced(Lives(news, order, fates, |order|).msgs[i])
  {
    hide Lives, Placed;
    var k := Owner(news, order, fates, i);
    var n := order[k];
    PlacedPassively(n, |news|, mids[n], levels[n], u[n]);
  }

  /** The exception is real: a sell resting at 1 that is repriced goes to 0. */
  lemma SellModifyReachesZero(id: nat, now: int)
    ensures var f := Fate(false, true, 0, true, false, 0, false, 0, false, 0);
            Life(NewOrder(Sell, 1, 5, 0), id, f, now).msgs[1].price == 0
  {}

  /** Every generated workload, for every stream of draws: each order is new once, modifies keep
      the side, quantities are positive. */
  lemma TapeIsSafe(news: seq<NewOrder>, order: seq<nat>, fates: seq<Fate>,
                   mids: seq<int>, levels: seq<nat>, u: seq<Draw>)
    requires Drawn(news, order, fates) && PlacedAll(news, mids, levels, u)
    ensures var msgs := Messages(Lives(news, order, fates, |order|).msgs);
            NewOnce(msgs) && SidesAgree(msgs) && Positive(msgs)
  {
    hide Lives, Messages, PlacedAll, Drawn;
    var tl := Lives(news, order, fates, |order|).msgs;
    var msgs := Messages(tl);
    forall i | 0 <= i < |tl| ensures msgs[i] == Prepared(RecordOf(tl[i], i)) && tl[i].qty > 0 {
      MessageAt(tl, i);
      PlacedIsPriced(news, order, fates, mids, levels, u, i);
    }
    forall i, j | 0 <= i < j < |tl| && tl[i].id == tl[j].id ensures tl[i].side == tl[j].side && tl[j].kind != NEW {
      TapeNewOnce(news, order, fates, i, j);
    }
  }

  /** So every generated workload can be delivered to any engine: every message is admissible
      when its turn comes, and every modify of a resting order carries that order's side. */
  lemma TapeIsAdmissible(news: seq<NewOrder>, order: seq<nat>, fates: seq<Fate>,
                         mids: seq<int>, levels: seq<nat>, u: seq<Draw>, n: nat)
    requires Drawn(news, order, fates) && PlacedAll(news, mids, levels, u)
    requires n < |Lives(news, order, fates, |order|).msgs|
    ensures var msgs := Messages(Lives(news, order, fates, |order|).msgs);
            var b := Run([], msgs[..n]).book;
            && AdmissibleRun([], msgs)
            && (msgs[n].Modify? && Find(b, msgs[n].id).Some? ==> b[Find(b, msgs[n].id).value].side == msgs[n].side)
  {
    hide Lives, Messages, PlacedAll, Drawn, NewOnce, SidesAgree, Positive, Run, AllIntroduced, Admissible, Find;
    var msgs := Messages(Lives(news, order, fates, |order|).msgs);
    TapeIsSafe(news, order, fates, mids, levels, u);
    forall k | 0 <= k < |msgs| ensures Admissible(Run([], msgs[..k]).book, msgs[k]) {
      RunIsSafe(msgs, k);
    }
    RunIsSafe(msgs, n);
    if msgs[n].Modify? {
      ModifyKeepsSide(msgs, n, Run([], msgs[..n]).book);
    }
  }

  // ----- generated workloads fit the wire ---------------------------------------------------------------

  lemma {:induction false} TapeLength(news: seq<NewOrder>, order: seq<nat>, fates: seq<Fate>, k: nat)
    requires Drawn(news, order, fates) && k <= |order|
    ensures |Lives(news, order, fates, k).msgs| <= 5 * k
  {
    hide Life;
    if k > 0 {
      TapeLength(news, order, fates, k - 1);
      LifeIsLife(news[order[k - 1]], order[k - 1] + 1, fates[k - 1], Lives(news, order, fates, k - 1).now);
    }
  }

  /** Mid prices that stay within a reach, levels, which end at 799, and a count that keeps the
      number of records within 32 bits. */
  ghost predicate Modest(mids: seq<int>, levels: seq<nat>, reach: int) {
    |mids| == |levels| && 5 * |mids| < TWO_32
    && forall i | 0 <= i < |mids| :: -reach <= mids[i] <= reach && levels[i] <= 799
  }

  const WIDE_REACH: nat := 0x4000_0000_0000_0000

  lemma TapeIsWire(news: seq<NewOrder>, order: seq<nat>, fates: seq<Fate>,
                   mids: seq<int>, levels: seq<nat>, u: seq<Draw>, reach: int, i: nat)
    requires Drawn(news, order, fates) && PlacedAll(news, mids, levels, u)
    requires Modest(mids, levels, reach) && reach <= WIDE_REACH
    requires i < |Lives(news, order, fates, |order|).msgs|
    ensures var m := Messages(Lives(news, order, fates, |order|).msgs)[i];
            WireMsg(m) && m.id < TWO_32 && (m.Cancel? || (0 <= m.price <= reach + 800 && m.qty <= 101))
  {
    hide Lives, Messages, UniformInt;
    var tl := Lives(news, order, fates, |order|).msgs;
    MessageAt(tl, i);
    TapeLength(news, order, fates, |order|);
    var k := Owner(news, order, fates, i);
    PlacedPassively(order[k], |news|, mids[order[k]], levels[order[k]], u[order[k]]);
  }

  lemma TapeIsRun(news: seq<NewOrder>, order: seq<nat>, fates: seq<Fate>,
                  mids: seq<int>, levels: seq<nat>, u: seq<Draw>)
    requires Drawn(news, order, fates) && PlacedAll(news, mids, levels, u)
    ensures AdmissibleRun([], Messages(Lives(news, order, fates, |order|).msgs))
  {
    hide Lives, Messages, PlacedAll, Drawn, Run, Admissible;
    if |Lives(news, order, fates, |order|).msgs| > 0 {
      TapeIsAdmissible(news, order, fates, mids, levels, u, 0);
    }
  }
}
