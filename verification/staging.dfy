/** The fixed-size buffer in which the JVM adapters stage one message's fills, and its
    conversion to Trade reports. */
module Staging {
  import opened Basics
  import opened Contract
  import opened MatchingLaws
  import opened Reports

  datatype StageTrade = StageTrade(seqno: nat, price: int, qty: nat, maker: nat, taker: nat)

  function Staged(seqno: nat, taker: nat, f: Fill): StageTrade {
    StageTrade(seqno, f.price, f.qty, f.maker, taker)
  }

  /** The first `n` records of the buffer are the first `n` fills. */
  ghost predicate Holds(stage: seq<StageTrade>, seqno: nat, taker: nat, fills: seq<Fill>, n: nat) {
    n <= |stage| && n <= |fills| && forall k | 0 <= k < n :: stage[k] == Staged(seqno, taker, fills[k])
  }

  /** The number of fills one event stages. */
  function StagedFills(e: Event): nat {
    match e
    case Accepted(_, _, fills, _, _) => |fills|
    case Modified(_, _, _, fills, _) => |fills|
    case _ => 0
  }

  /** Message `k` of the run stages at most `cap` fills. */
  ghost predicate Stages(from: seq<Order>, msgs: seq<Msg>, k: nat, cap: nat) {
    k < |msgs| && StagedFills(Step(Run(from, msgs[..k]).book, msgs[k]).event) <= cap
  }

  /** Every message of the run in [start, end) does. */
  ghost predicate AllStage(from: seq<Order>, msgs: seq<Msg>, start: nat, end: nat, cap: nat) {
    forall k: nat | start <= k < end :: Stages(from, msgs, k, cap)
  }

  lemma StagesIs(from: seq<Order>, msgs: seq<Msg>, k: nat, cap: nat)
    requires k < |msgs|
    ensures Stages(from, msgs, k, cap) <==> StagedFills(Step(Run(from, msgs[..k]).book, msgs[k]).event) <= cap
  {}

  /** emit_staged_trades: one Trade per staged record; answers with the filled total. */
  method EmitStagedTrades(stage: array<StageTrade>, n: nat, sink: seq<Report>, ghost seqno: nat, ghost taker: Order,
                          ghost fills: seq<Fill>)
    returns (reports: seq<Report>, filled: nat)
    requires n == |fills| && n <= stage.Length && Holds(stage[..], seqno, taker.id, fills, n)
    ensures reports == sink + Trades(LIQUIBOOK, seqno, taker, fills)
    ensures filled == Traded(fills)
  {
    reports, filled := sink, 0;
    var k := 0;
    while k < n
      invariant k <= n
      invariant reports == sink + Trades(LIQUIBOOK, seqno, taker, fills[..k])
      invariant filled == Traded(fills[..k])
    {
      var t := stage[k];
      assert stage[..][k] == Staged(seqno, taker.id, fills[k]);
      TradesNext(LIQUIBOOK, seqno, taker, fills, k);
      TradedNext(fills, k);
      reports := reports + [Report(TRADE, t.seqno, 0, 0, t.price, t.qty, t.maker, t.taker)];
      filled := filled + t.qty;
      k := k + 1;
    }
    assert fills[..k] == fills;
  }

  lemma StepStages(b: seq<Order>, m: Msg, cap: nat)
    requires WellFormed(b) && (m.Cancel? || m.qty <= cap)
    ensures StagedFills(Step(b, m).event) <= cap
  {
    hide Match, Find;
    match m
    case New(_, _, price, qty, side, _) => FewFills(b, side, price, qty);
    case Cancel(_, _) =>
    case Modify(id, _, price, qty, side) =>
      var at := Find(b, id);
      if at.Some? {
        RemovedKeeps(b, at.value);
        FewFills(RemoveAt(b, at.value), side, price, qty);
      }
  }

  /** A message stages no more fills than it has lots: a run of small orders fits the buffer,
      however deep the book is. */
  lemma SmallOrdersStage(msgs: seq<Msg>, cap: nat)
    requires AdmissibleRun([], msgs) && forall k | 0 <= k < |msgs| :: msgs[k].Cancel? || msgs[k].qty <= cap
    ensures AllStage([], msgs, 0, |msgs|, cap)
  {
    hide Step, Run, WellFormed, Uncrossed, Admissible;
    EmptyBook();
    forall k: nat | k < |msgs| ensures Stages([], msgs, k, cap) {
      RunKeeps([], msgs, k);
      StepStages(Run([], msgs[..k]).book, msgs[k], cap);
    }
  }

  // ----- the deepest sweep of the conformance battery ---------------------------------------------

  /** `n` one-lot asks at one price, then one immediate-or-cancel buy for all of them. */
  function DeepSweep(n: nat): (msgs: seq<Msg>)
    ensures |msgs| == n + 1
  {
    seq(n + 1, i requires 0 <= i < n + 1 =>
      if i < n then New(i + 1, i, 100, 1, Sell, false) else New(n + 1, n, 100, n, Buy, true))
  }

  function Asks(n: nat): (b: seq<Order>)
    ensures |b| == n
  {
    seq(n, i requires 0 <= i < n => Order(i + 1, Sell, 100, 1))
  }

  lemma AskRests(k: nat)
    ensures Enter(Asks(k), Order(k + 1, Sell, 100, 1), false) == Outcome([], Asks(k + 1), 1)
  {
    assert BestMaker(Asks(k), Sell, 100).None?;
    assert Asks(k) + [Order(k + 1, Sell, 100, 1)] == Asks(k + 1);
  }

  lemma {:induction false} AsksRest(n: nat, k: nat)
    requires k <= n
    ensures Run([], DeepSweep(n)[..k]).book == Asks(k)
    ensures k < n ==> StagedFills(Step(Asks(k), DeepSweep(n)[k]).event) == 0
  {
    hide Enter, Match;
    AskRests(k);
    if k > 0 {
      AsksRest(n, k - 1);
      AskRests(k - 1);
      RunPrefix([], DeepSweep(n), k - 1);
    }
  }

  lemma {:induction false} SweepTakesAll(b: seq<Order>)
    requires forall i | 0 <= i < |b| :: b[i].side == Sell && b[i].price == 100 && b[i].qty == 1
    ensures |Match(b, Buy, 100, |b|).fills| == |b|
  {
    BestMakerIsBest(b, Buy, 100);
    var best := BestMaker(b, Buy, 100);
    if b != [] {
      assert Eligible(b[0], Buy, 100);
      SweepTakesAll(RemoveAt(b, best.value));
    }
  }

  /** A sweep through `n` resting orders fits a staging buffer exactly when the buffer holds `n`
      fills: the battery's 5000-deep sweep fits 8192 records and not 4096. */
  lemma DeepSweepStages(n: nat, cap: nat)
    ensures AllStage([], DeepSweep(n), 0, n + 1, cap) <==> n <= cap
  {
    hide Match;
    var msgs := DeepSweep(n);
    AsksRest(n, n);
    SweepTakesAll(Asks(n));
    forall k: nat | k < n ensures Stages([], msgs, k, cap) {
      AsksRest(n, k);
    }
    StagesIs([], msgs, n, cap);
  }
}
