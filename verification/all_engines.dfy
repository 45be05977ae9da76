/** Whole workloads through every adapter: one canonical text. */
module AllEngines {
  import opened Basics
  import opened Contract
  import opened Reports
  import opened Canonical
  import opened Consensus
  import opened Staging
  import opened Rng
  import opened Generator
  import opened Tape
  import opened Delivery
  import TechieBoyAdapter
  import LiquibookAdapter
  import KautenjaAdapter
  import QuantCupAdapter
  import JlobAdapter
  import JiangAdapter
  import CoinTossXAdapter
  import PackedShadow
  import opened MatchingLaws

  /** The size of the report buffer of the Jiang adapter. */
  const OUT_CAP: nat := 0x1_0000

  /** One text per adapter; none where the original aborts. */
  datatype Texts = Texts(techieboy: string, liquibook: string, kautenja: string,
                         quantcup: Option<string>, jlob: Option<string>, jiang: Option<string>,
                         cointossx: Option<string>)

  /** A workload every adapter accepts: admissible message by message, within the wire widths,
      no negative price, and every modify of a resting order on that order's side. */
  ghost predicate Deliverable(msgs: seq<Msg>) {
    && AdmissibleRun([], msgs) && |msgs| < TWO_32
    && (forall k | 0 <= k < |msgs| :: WireMsg(msgs[k]) && msgs[k].id < TWO_32)
    && (forall k | 0 <= k < |msgs| ::
          msgs[k].Cancel? || (msgs[k].price >= 0 && KautenjaAdapter.PriceFits(msgs[k].price)))
    && (forall k | 0 <= k < |msgs| :: KautenjaAdapter.Resided(Run([], msgs[..k]).book, msgs[k]) == msgs[k])
  }

  /** The text of the contract's own events. */
  ghost function ContractText(msgs: seq<Msg>): string {
    CanonicalText(Stream(LIQUIBOOK, Run([], msgs).events))
  }

  method TextOf(w: Wording, ghost msgs: seq<Msg>, reports: seq<Report>) returns (text: string)
    requires reports == Stream(w, Run([], msgs).events)
    requires forall k | 0 <= k < |msgs| :: WireMsg(msgs[k])
    ensures text == ContractText(msgs)
  {
    hide CanonicalText, Run, Stream, Ranged, WireMsg;
    StreamRanged(w, msgs);
    OneCanonicalText(w, LIQUIBOOK, Run([], msgs).events);
    var c := new Collected(reports);
    text := c.BuildCanonicalText();
  }

  /** Every adapter that does not abort produces the contract's text. Three never abort; the staging
      adapters abort exactly when some message fills more orders than they can stage, and QuantCup
      exactly outside its price range and arena. CoinTossX is one of them as long as it never
      looks for an order whose price its shadow does not carry. */
  method AllTexts(msgs: seq<Msg>) returns (t: Texts)
    requires Deliverable(msgs)
    ensures t.techieboy == t.liquibook == t.kautenja == ContractText(msgs)
    ensures t.quantcup == if QuantCupAdapter.RunFits(msgs) then Some(ContractText(msgs)) else None
    ensures t.jlob == if AllStage([], msgs, 0, |msgs|, JlobAdapter.STAGE_CAP) then Some(ContractText(msgs)) else None
    ensures t.jiang == if AllStage([], msgs, 0, |msgs|, JiangAdapter.STAGE_CAP) then Some(ContractText(msgs)) else None
    ensures t.cointossx == if MovesStage(msgs) then Some(MovesText(msgs)) else None
    ensures CoinTossXAdapter.NeverLost(msgs, |msgs|) ==>
              t.cointossx == if AllStage([], msgs, 0, |msgs|, CoinTossXAdapter.STAGE_CAP)
                             then Some(ContractText(msgs)) else None
  {
    hide ContractText, MovesText, MovesStage, Deliverable, AllStage, QuantCupAdapter.RunFits,
      CoinTossXAdapter.NeverLost;
    var techieboy := TechieBoyText(msgs);
    var liquibook := LiquibookText(msgs);
    var kautenja := KautenjaText(msgs);
    var quantcup := QuantCupText(msgs);
    var jlob := JlobText(msgs);
    var jiang := JiangText(msgs);
    var cointossx := CoinTossXText(msgs);
    t := Texts(techieboy, liquibook, kautenja, quantcup, jlob, jiang, cointossx);
  }

  method TechieBoyText(msgs: seq<Msg>) returns (text: string)
    requires Deliverable(msgs)
    ensures text == ContractText(msgs)
  {
    hide ContractText, Run, Stream, WireMsg, Admissible, TechieBoyAdapter.ClampedAll, TechieBoyAdapter.EchoedEvents;
    TechieBoyAdapter.EchoedIsRun(msgs);
    var a := new TechieBoyAdapter.Adapter();
    a.Deliver(msgs);
    text := TextOf(TECHIEBOY, msgs, a.reports);
  }

  method LiquibookText(msgs: seq<Msg>) returns (text: string)
    requires Deliverable(msgs)
    ensures text == ContractText(msgs)
  {
    hide ContractText, Run, Stream, WireMsg, Admissible;
    var b := new LiquibookAdapter.Adapter();
    b.Deliver(msgs);
    text := TextOf(LIQUIBOOK, msgs, b.reports);
  }

  method KautenjaText(msgs: seq<Msg>) returns (text: string)
    requires Deliverable(msgs)
    ensures text == ContractText(msgs)
  {
    hide ContractText, Run, Stream, WireMsg, Admissible, KautenjaAdapter.AppliedRun, KautenjaAdapter.Resided;
    KautenjaAccepts(msgs);
    var c := new KautenjaAdapter.Adapter();
    c.Deliver(msgs);
    text := TextOf(KAUTENJA, msgs, c.reports);
  }

  lemma KautenjaAccepts(msgs: seq<Msg>)
    requires Deliverable(msgs)
    ensures KautenjaAdapter.AppliedRun(msgs) == Run([], msgs)
    ensures forall k | 0 <= k < |msgs| :: Admissible(KautenjaAdapter.AppliedRun(msgs[..k]).book, msgs[k])
  {
    hide Run, WireMsg, Admissible, KautenjaAdapter.AppliedRun, KautenjaAdapter.Resided;
    forall k | 0 <= k < |msgs| ensures Admissible(KautenjaAdapter.AppliedRun(msgs[..k]).book, msgs[k]) {
      KautenjaAdapter.AppliedRunIsRun(msgs, k);
    }
    KautenjaAdapter.AppliedRunIsRun(msgs, |msgs|);
    assert msgs[..|msgs|] == msgs;
  }

  method QuantCupText(msgs: seq<Msg>) returns (text: Option<string>)
    requires Deliverable(msgs)
    ensures text == if QuantCupAdapter.RunFits(msgs) then Some(ContractText(msgs)) else None
  {
    hide ContractText, Run, Stream, WireMsg, Admissible, QuantCupAdapter.RunFits;
    var q := new QuantCupAdapter.Adapter();
    var ok := q.Deliver(msgs);
    if !ok {
      return None;
    }
    var s := TextOf(LIQUIBOOK, msgs, q.reports);
    text := Some(s);
  }

  method JlobText(msgs: seq<Msg>) returns (text: Option<string>)
    requires Deliverable(msgs)
    ensures text == if AllStage([], msgs, 0, |msgs|, JlobAdapter.STAGE_CAP) then Some(ContractText(msgs)) else None
  {
    hide ContractText, Run, Stream, WireMsg, Admissible, AllStage;
    var j := new JlobAdapter.Adapter();
    var ok := j.Deliver(msgs);
    if !ok {
      return None;
    }
    var s := TextOf(LIQUIBOOK, msgs, j.reports);
    text := Some(s);
  }

  method JiangText(msgs: seq<Msg>) returns (text: Option<string>)
    requires Deliverable(msgs)
    ensures text == if AllStage([], msgs, 0, |msgs|, JiangAdapter.STAGE_CAP) then Some(ContractText(msgs)) else None
  {
    hide ContractText, Run, Stream, WireMsg, Admissible, AllStage;
    var j := new JiangAdapter.Adapter(OUT_CAP);
    var ok := j.EngineOnBatch(msgs);
    if !ok {
      return None;
    }
    assert [] + Stream(LIQUIBOOK, Run([], msgs).events) == Stream(LIQUIBOOK, Run([], msgs).events);
    var s := TextOf(LIQUIBOOK, msgs, j.reports);
    text := Some(s);
  }

  // ----- CoinTossX, with prices its shadow carries and prices it does not -----------------------------

  ghost predicate MovesStage(msgs: seq<Msg>) {
    forall k | 0 <= k < |msgs| ::
      StagedFills(CoinTossXAdapter.Moves(msgs).events[k]) <= CoinTossXAdapter.STAGE_CAP
  }

  /** The text of what the CoinTossX adapter does. */
  ghost function MovesText(msgs: seq<Msg>): string {
    CanonicalText(Stream(LIQUIBOOK, CoinTossXAdapter.Moves(msgs).events))
  }

  lemma NeverLostIsContract(msgs: seq<Msg>)
    requires Deliverable(msgs) && CoinTossXAdapter.NeverLost(msgs, |msgs|)
    ensures MovesStage(msgs) <==> AllStage([], msgs, 0, |msgs|, CoinTossXAdapter.STAGE_CAP)
    ensures MovesText(msgs) == ContractText(msgs)
  {
    hide Run, Stream, Step, CanonicalText, Admissible, CoinTossXAdapter.Moves, CoinTossXAdapter.NeverLost,
      CoinTossXAdapter.Sound, KautenjaAdapter.Resided, StagedFills;
    CoinTossXAdapter.RunFollows(msgs, |msgs|);
    assert msgs[..|msgs|] == msgs;
    forall k: nat | k < |msgs|
      ensures Stages([], msgs, k, CoinTossXAdapter.STAGE_CAP)
         <==> StagedFills(CoinTossXAdapter.Moves(msgs).events[k]) <= CoinTossXAdapter.STAGE_CAP
    {
      RunEventAt([], msgs, k);
    }
  }

  method CoinTossXText(msgs: seq<Msg>) returns (text: Option<string>)
    requires Deliverable(msgs)
    ensures text == if MovesStage(msgs) then Some(MovesText(msgs)) else None
    ensures CoinTossXAdapter.NeverLost(msgs, |msgs|) ==>
              text == if AllStage([], msgs, 0, |msgs|, CoinTossXAdapter.STAGE_CAP)
                      then Some(ContractText(msgs)) else None
  {
    hide Run, Stream, AllStage, CanonicalText, Ranged, WireMsg, Admissible, StagedFills, ContractText,
      KautenjaAdapter.Resided, CoinTossXAdapter.Moves, CoinTossXAdapter.NeverLost, CoinTossXAdapter.WireState;
    CoinTossXAdapter.MovesRanged(msgs);
    if CoinTossXAdapter.NeverLost(msgs, |msgs|) {
      NeverLostIsContract(msgs);
    }
    var x := new CoinTossXAdapter.Adapter();
    var ok := x.Deliver(msgs);
    if !ok {
      return None;
    }
    var c := new Collected(x.reports);
    var s := c.BuildCanonicalText();
    text := Some(s);
  }

  // ----- generated workloads ------------------------------------------------------------------------------

  /** Mid prices far enough inside the range that the CoinTossX shadow packs. */
  const PACKED_REACH: nat := 0x3FFF_FCDF

  /** From the draws to the texts: whatever was drawn, the generated workload is one every
      adapter accepts, and so small in its quantities that nothing overflows. All of them print the
      contract's text of that workload, except that QuantCup aborts exactly where its price range or
      arena is left, and that CoinTossX needs a path its packed prices can follow. */
  method GeneratedConsensus(mids: seq<int>, levels: seq<nat>, u: seq<Draw>, swaps: seq<Draw>, fates: seq<Fate>)
    returns (t: Option<Texts>, ghost news: seq<NewOrder>, ghost order: seq<nat>, ghost msgs: seq<Msg>)
    requires |mids| == |levels| == |u| == |swaps| == |fates| && Modest(mids, levels, WIDE_REACH)
    ensures t.None? <==> |mids| < 2
    ensures t.Some? ==>
              && PlacedAll(news, mids, levels, u) && Drawn(news, order, fates)
              && order == Shuffled(Indices(|mids|), |mids| - 1, swaps)
              && msgs == Messages(Lives(news, order, fates, |order|).msgs)
    ensures t.Some? ==>
              && t.value.techieboy == t.value.liquibook == t.value.kautenja == ContractText(msgs)
              && t.value.jlob == t.value.jiang == Some(ContractText(msgs))
              && t.value.quantcup == (if QuantCupAdapter.RunFits(msgs) then Some(ContractText(msgs)) else None)
              && t.value.cointossx == (if MovesStage(msgs) then Some(MovesText(msgs)) else None)
              && (Modest(mids, levels, PACKED_REACH) || CoinTossXAdapter.NeverLost(msgs, |msgs|) ==>
                    t.value.cointossx == Some(ContractText(msgs)))
  {
    hide Lives, PlacedAll, Drawn, Modest, Deliverable, PrepareAll, Written, Shuffled, Indices, AllStage, ContractText,
      QuantCupAdapter.RunFits, CoinTossXAdapter.NeverLost, MovesStage, MovesText;
    var tl;
    tl, news, order := Generate(mids, levels, u, swaps, fates);
    if tl.None? {
      t, msgs := None, [];
      return;
    }
    var w := WriteRecords(tl.value);
    var delivered := PrepareAll(w);
    msgs := delivered;
    TapeIsDeliverable(news, order, fates, mids, levels, u);
    TapeStages(news, order, fates, mids, levels, u, JlobAdapter.STAGE_CAP);
    TapeStages(news, order, fates, mids, levels, u, JiangAdapter.STAGE_CAP);
    if Modest(mids, levels, PACKED_REACH) {
      TapeIsNeverLost(news, order, fates, mids, levels, u);
    }
    var texts := AllTexts(delivered);
    t := Some(texts);
  }

  lemma TapeIsDeliverable(news: seq<NewOrder>, order: seq<nat>, fates: seq<Fate>,
                          mids: seq<int>, levels: seq<nat>, u: seq<Draw>)
    requires Drawn(news, order, fates) && PlacedAll(news, mids, levels, u) && Modest(mids, levels, WIDE_REACH)
    ensures Deliverable(Messages(Lives(news, order, fates, |order|).msgs))
  {
    hide Lives, Messages, PlacedAll, Drawn, Run, Admissible, WireMsg, Find;
    var msgs := Messages(Lives(news, order, fates, |order|).msgs);
    TapeLength(news, order, fates, |order|);
    SameCount(news, order, fates, mids, levels, u);
    TapeIsRun(news, order, fates, mids, levels, u);
    forall k | 0 <= k < |msgs|
      ensures WireMsg(msgs[k]) && msgs[k].id < TWO_32
      ensures msgs[k].Cancel? || (msgs[k].price >= 0 && KautenjaAdapter.PriceFits(msgs[k].price))
      ensures KautenjaAdapter.Resided(Run([], msgs[..k]).book, msgs[k]) == msgs[k]
    {
      TapeIsWire(news, order, fates, mids, levels, u, WIDE_REACH, k);
      TapeIsAdmissible(news, order, fates, mids, levels, u, k);
    }
  }

  lemma SameCount(news: seq<NewOrder>, order: seq<nat>, fates: seq<Fate>,
                  mids: seq<int>, levels: seq<nat>, u: seq<Draw>)
    requires Drawn(news, order, fates) && PlacedAll(news, mids, levels, u)
    ensures |order| == |mids|
  {}

  /** Generated orders have at most 101 lots, so their fills fit every staging buffer. */
  lemma TapeStages(news: seq<NewOrder>, order: seq<nat>, fates: seq<Fate>,
                   mids: seq<int>, levels: seq<nat>, u: seq<Draw>, cap: nat)
    requires Drawn(news, order, fates) && PlacedAll(news, mids, levels, u) && Modest(mids, levels, WIDE_REACH)
    requires cap >= 101
    ensures var msgs := Messages(Lives(news, order, fates, |order|).msgs); AllStage([], msgs, 0, |msgs|, cap)
  {
    hide Lives, Messages, PlacedAll, Drawn, Run, Admissible, WireMsg, AllStage;
    var msgs := Messages(Lives(news, order, fates, |order|).msgs);
    TapeIsRun(news, order, fates, mids, levels, u);
    forall k | 0 <= k < |msgs| ensures msgs[k].Cancel? || msgs[k].qty <= cap {
      TapeIsWire(news, order, fates, mids, levels, u, WIDE_REACH, k);
    }
    SmallOrdersStage(msgs, cap);
  }

  lemma TapeIsNeverLost(news: seq<NewOrder>, order: seq<nat>, fates: seq<Fate>,
                        mids: seq<int>, levels: seq<nat>, u: seq<Draw>)
    requires Drawn(news, order, fates) && PlacedAll(news, mids, levels, u) && Modest(mids, levels, PACKED_REACH)
    ensures var msgs := Messages(Lives(news, order, fates, |order|).msgs);
            CoinTossXAdapter.NeverLost(msgs, |msgs|)
  {
    hide Lives, Messages, PlacedAll, Drawn, WireMsg, CoinTossXAdapter.NeverLost;
    var msgs := Messages(Lives(news, order, fates, |order|).msgs);
    forall k | 0 <= k < |msgs| ensures msgs[k].Cancel? || PackedShadow.PriceFits(msgs[k].price) {
      TapeIsWire(news, order, fates, mids, levels, u, PACKED_REACH, k);
    }
    CoinTossXAdapter.FittingNeverLost(msgs, |msgs|);
  }

  /** The deepest sweep of the conformance battery overflows the staging buffers of jLOB and CoinTossX, and
      fits Jiang's. */
  lemma BatteryOverflows()
    ensures !AllStage([], DeepSweep(5000), 0, 5001, JlobAdapter.STAGE_CAP)
    ensures !AllStage([], DeepSweep(5000), 0, 5001, CoinTossXAdapter.STAGE_CAP)
    ensures AllStage([], DeepSweep(5000), 0, 5001, JiangAdapter.STAGE_CAP)
  {
    hide AllStage;
    DeepSweepStages(5000, JlobAdapter.STAGE_CAP);
    DeepSweepStages(5000, CoinTossXAdapter.STAGE_CAP);
    DeepSweepStages(5000, JiangAdapter.STAGE_CAP);
  }

  // ----- a generated workload that QuantCup aborts on ---------------------------------------------------

  /** Whatever else was drawn: if the first arrival is a sell at 1 that is repriced, its modify is
      priced 0 and finds it resting, and QuantCup aborts. */
  lemma SellAtOneAborts(news: seq<NewOrder>, order: seq<nat>, fates: seq<Fate>)
    requires Drawn(news, order, fates) && |order| > 0
    requires var n := news[order[0]]; n.side.Sell? && n.price == 1 && n.qty > 0
    requires !fates[0].ioc && fates[0].modified && fates[0].repriced
    ensures !QuantCupAdapter.RunFits(Messages(Lives(news, order, fates, |order|).msgs))
  {
    hide Drawn, Messages, Lives, Run, Find, QuantCupAdapter.Count, QuantCupAdapter.NewsFit;
    var msgs := Messages(Lives(news, order, fates, |order|).msgs);
    FirstTwo(news, order, fates);
    RestsFirst(msgs);
    assert !QuantCupAdapter.AppliedFits(msgs, 1);
  }

  lemma FirstTwo(news: seq<NewOrder>, order: seq<nat>, fates: seq<Fate>)
    requires Drawn(news, order, fates) && |order| > 0
    requires var n := news[order[0]]; n.side.Sell? && n.price == 1
    requires !fates[0].ioc && fates[0].modified && fates[0].repriced
    ensures var n := news[order[0]];
            var msgs := Messages(Lives(news, order, fates, |order|).msgs);
            && |msgs| >= 2
            && msgs[0] == New(order[0] + 1, 0, 1, n.qty, Sell, false)
            && msgs[1] == Modify(order[0] + 1, 1, 0, n.qty + 1, Sell)
  {
    hide Scaled, Messages, Life;
    StretchStays(news, order, fates, 0, |order|);
    FirstLife(news[order[0]], order[0] + 1, fates[0]);
    var tl, first := Lives(news, order, fates, |order|).msgs, LifeOf(news, order, fates, 0).msgs;
    assert first[0] == tl[..|first|][0] && first[1] == tl[..|first|][1];
    MessageAt(tl, 0);
    MessageAt(tl, 1);
  }

  lemma FirstLife(n: NewOrder, id: nat, f: Fate)
    requires n.side.Sell? && n.price == 1 && !f.ioc && f.modified && f.repriced
    ensures var l := Life(n, id, f, 0).msgs;
            && |l| >= 2 && l[0] == Timed(0, NEW, Sell, false, n.qty, id, 1)
            && l[1] == Timed(l[1].ts, MODIFY, Sell, false, n.qty + 1, id, 0)
  {
    hide Scaled;
  }

  lemma RestsFirst(msgs: seq<Msg>)
    requires |msgs| >= 2 && msgs[0].New? && !msgs[0].ioc && msgs[0].qty > 0
    ensures Find(Run([], msgs[..1]).book, msgs[0].id).Some?
  {
    assert msgs[..1][..0] == [] && msgs[..1][0] == msgs[0];
    assert BestMaker([], msgs[0].side, msgs[0].price).None?;
    FindSpec(Run([], msgs[..1]).book, msgs[0].id);
  }

  /** And such draws exist: two orders at a mid price of 0, the sell shuffled to the front. */
  lemma SomeWorkloadAborts()
    returns (mids: seq<int>, levels: seq<nat>, u: seq<Draw>, swaps: seq<Draw>, fates: seq<Fate>,
             news: seq<NewOrder>, order: seq<nat>)
    ensures |mids| == |levels| == |u| == |swaps| == |fates| == 2 && Modest(mids, levels, 0)
    ensures PlacedAll(news, mids, levels, u) && Drawn(news, order, fates)
    ensures order == Shuffled(Indices(2), 1, swaps)
    ensures !QuantCupAdapter.RunFits(Messages(Lives(news, order, fates, 2).msgs))
  {
    hide Lives, UniformInt, QuantCupAdapter.RunFits, Messages;
    var f := Fate(false, true, 0, true, false, 0, false, 0, false, 0);
    mids, levels, u, fates := [0, 0], [0, 0], [0, 0], [f, f];
    var swap := EveryValueDrawn(0, 1, 0);
    swaps := [swap, swap];
    news := [Placed(0, 2, 0, 0, 0), Placed(1, 2, 0, 0, 0)];
    order := [1, 0];
    ShuffledStep(Indices(2), 1, swaps);
    ShuffledStep(order, 0, swaps);
    assert Swapped(Indices(2), 1, 0) == order;
    PlacedPassively(1, 2, 0, 0, 0);
    SellAtOneAborts(news, order, fates);
  }
}
