/** The Jiang adapter's batch delivery: a run of messages is handled in sub-chunks that fit a
    bounded report buffer, drained and resumed. */
module JiangAdapter {
  import opened Basics
  import opened Contract
  import opened MatchingLaws
  import opened Reports
  import opened Staging

  const STAGE_CAP: nat := 8192
  /** Worst case of one message: an ack, a full staging buffer of fills, a residual ack. */
  const REP_RESERVE: nat := STAGE_CAP + 2

  // ----- the packed answer of onBatch ---------------------------------------------------------

  /** (consumed << 32) | (written & 0xffffffff) */
  function Pack(consumed: nat, written: nat): nat {
    consumed * TWO_32 + written % TWO_32
  }

  function Consumed(packed: nat): nat {
    packed / TWO_32
  }

  function Written(packed: nat): nat {
    packed % TWO_32
  }

  lemma PackRoundTrip(consumed: nat, written: nat)
    ensures Consumed(Pack(consumed, written)) == consumed
    ensures Written(Pack(consumed, written)) == written <==> written < TWO_32
  {}

  lemma {:induction false} TradesLength(w: Wording, s: nat, taker: Order, fills: seq<Fill>)
    ensures |Trades(w, s, taker, fills)| == |fills|
  {
    if fills != [] {
      TradesLength(w, s, taker, fills[..|fills| - 1]);
    }
  }

  /** No message that fits the staging buffer reports more than the reserve. */
  lemma WithinReserve(w: Wording, e: Event)
    requires StagedFills(e) <= STAGE_CAP
    ensures |Worded(w, e)| <= REP_RESERVE
  {
    match e
    case Accepted(o, s, fills, _, _) => TradesLength(w, s, o, fills);
    case Modified(_, o, s, fills, _) => TradesLength(w, s, o, fills);
    case _ =>
  }

  class Adapter {
    /** The engine's book with its id index. */
    var engine: seq<Order>
    const tradeBuf: array<StageTrade>
    const outB: array<Report>
    var lastCancelPrice: int
    var lastCancelSide: Side
    /** Reports written into outB in this call. */
    var wc: nat
    /** What was pushed into the transport. */
    var reports: seq<Report>

    ghost predicate Valid()
      reads this
    {
      WellFormed(engine) && tradeBuf.Length == STAGE_CAP
    }

    constructor (outCap: nat)
      ensures Valid() && fresh(tradeBuf) && fresh(outB) && engine == [] && reports == [] && outB.Length == outCap
    {
      engine, reports, wc := [], [], 0;
      lastCancelPrice, lastCancelSide := 0, Buy;
      tradeBuf := new StageTrade[STAGE_CAP](_ => StageTrade(0, 0, 0, 0, 0));
      outB := new Report[outCap](_ => Report(0, 0, 0, 0, 0, 0, 0, 0));
    }

    /** onNew: the engine matches and rests; the new trades are staged one by one; a rested
        immediate-or-cancel residual is taken out again. Not ok when the trades overflow the
        staging buffer, where the original fails with an out-of-bounds exception. */
    method OnNew(o: Order, seqno: nat, ioc: bool) returns (n: nat, ok: bool)
      requires Valid() && o.qty > 0 && !Resting(engine, o.id)
      modifies this`engine, tradeBuf
      ensures var e := Enter(old(engine), o, ioc);
              && n == |e.fills| && (ok <==> n <= STAGE_CAP)
              && (ok ==> Valid() && engine == e.book && Holds(tradeBuf[..], seqno, o.id, e.fills, n))
    {
      hide Match, Find;
      IocUndone(engine, o);
      KeepsWellFormed(engine, o, ioc);
      var e := Enter(engine, o, false);
      engine := e.book;
      n := |e.fills|;
      var k := 0;
      while k < n
        invariant k <= n && k <= STAGE_CAP && engine == e.book
        invariant Holds(tradeBuf[..], seqno, o.id, e.fills, k)
      {
        if k >= tradeBuf.Length {
          return n, false;
        }
        tradeBuf[k] := Staged(seqno, o.id, e.fills[k]);
        k := k + 1;
      }
      if ioc {
        var at := Find(engine, o.id);
        if at.Some? {
          FindSpec(engine, o.id);
          engine := RemoveAt(engine, at.value);
        }
      }
      ok := true;
    }

    /** onCancel: liveness, price and side from the engine's own id index. The price is also
        left in record 0 of the staging buffer, where the per-message path reads it. */
    method OnCancel(orderId: nat) returns (hit: bool)
      requires Valid()
      modifies this`engine, this`lastCancelPrice, this`lastCancelSide, tradeBuf
      ensures Valid()
      ensures var at := Find(old(engine), orderId);
              && (hit <==> at.Some?)
              && (!hit ==> engine == old(engine))
              && (hit ==> var o := old(engine)[at.value];
                          && lastCancelPrice == o.price && lastCancelSide == o.side && tradeBuf[0].price == o.price
                          && engine == RemoveAt(old(engine), at.value) && !Resting(engine, orderId))
    {
      var at := Find(engine, orderId);
      if at.None? {
        return false;
      }
      lastCancelPrice, lastCancelSide := engine[at.value].price, engine[at.value].side;
      tradeBuf[0] := tradeBuf[0].(price := lastCancelPrice);
      engine := RemoveAt(engine, at.value);
      return true;
    }

    // ----- the batch path ------------------------------------------------------------------------

    /** rep: one report into the buffer. */
    method Rep(r: Report)
      requires wc < outB.Length
      modifies this`wc, outB
      ensures wc == old(wc) + 1 && outB[..wc] == old(outB[..wc]) + [r]
    {
      outB[wc] := r;
      wc := wc + 1;
    }

    method RepStagedTrades(n: nat, ghost seqno: nat, ghost taker: Order, ghost fills: seq<Fill>) returns (filled: nat)
      requires n == |fills| && tradeBuf.Length == STAGE_CAP && Holds(tradeBuf[..], seqno, taker.id, fills, n)
      requires wc + n <= outB.Length
      modifies this`wc, outB
      ensures wc == old(wc) + n && outB[..wc] == old(outB[..wc]) + Trades(LIQUIBOOK, seqno, taker, fills)
      ensures filled == Traded(fills)
    {
      hide Traded, Trades;
      filled := 0;
      var k := 0;
      NothingStaged(seqno, taker, fills);
      while k < n
        invariant k <= n && wc == old(wc) + k
        invariant outB[..wc] == old(outB[..wc]) + Trades(LIQUIBOOK, seqno, taker, fills[..k])
        invariant filled == Traded(fills[..k])
      {
        var t := tradeBuf[k];
        assert tradeBuf[..][k] == Staged(seqno, taker.id, fills[k]);
        TradesNext(LIQUIBOOK, seqno, taker, fills, k);
        TradedNext(fills, k);
        Rep(Report(TRADE, t.seqno, 0, 0, t.price, t.qty, t.maker, t.taker));
        filled := filled + t.qty;
        k := k + 1;
      }
      assert fills[..k] == fills;
    }

    method BatchNew(m: Msg) returns (ok: bool)
      requires Valid() && m.New? && Admissible(engine, m) && outB.Length - wc >= REP_RESERVE
      modifies this`engine, this`lastCancelPrice, this`lastCancelSide, this`wc, tradeBuf, outB
      ensures var s := Step(old(engine), m);
              && (ok <==> StagedFills(s.event) <= STAGE_CAP)
              && (ok ==> Valid() && engine == s.book && wc <= outB.Length
                         && outB[..wc] == old(outB[..wc]) + Worded(LIQUIBOOK, s.event))
    {
      hide Match, Enter, Traded, Trades, Find;
      ghost var o := Order(m.id, m.side, m.price, m.qty);
      ghost var e := Enter(engine, o, m.ioc);
      EnterFilled(engine, o, m.ioc);
      Rep(Ack(ORDER_ACK, m.seqno, m.id, m.side.Code(), m.price, m.qty));
      var n;
      n, ok := OnNew(Order(m.id, m.side, m.price, m.qty), m.seqno, m.ioc);
      if !ok {
        return;
      }
      var filled := RepStagedTrades(n, m.seqno, o, e.fills);
      if m.ioc && filled < m.qty {
        Rep(Ack(CANCEL_ACK, m.seqno, m.id, m.side.Code(), m.price, m.qty - filled));
      }
    }

    method BatchCancel(m: Msg)
      requires Valid() && m.Cancel? && outB.Length - wc >= REP_RESERVE
      modifies this`engine, this`lastCancelPrice, this`lastCancelSide, this`wc, tradeBuf, outB
      ensures var s := Step(old(engine), m);
              && Valid() && engine == s.book && wc <= outB.Length
              && outB[..wc] == old(outB[..wc]) + Worded(LIQUIBOOK, s.event)
    {
      var hit := OnCancel(m.id);
      if hit {
        Rep(Ack(CANCEL_ACK, m.seqno, m.id, lastCancelSide.Code(), lastCancelPrice, 0));
      } else {
        Rep(Ack(CANCEL_REJECT, m.seqno, m.id, 0, 0, 0));
      }
    }

    method BatchModify(m: Msg) returns (ok: bool)
      requires Valid() && m.Modify? && Admissible(engine, m) && outB.Length - wc >= REP_RESERVE
      modifies this`engine, this`lastCancelPrice, this`lastCancelSide, this`wc, tradeBuf, outB
      ensures var s := Step(old(engine), m);
              && (ok <==> StagedFills(s.event) <= STAGE_CAP)
              && (ok ==> Valid() && engine == s.book && wc <= outB.Length
                         && outB[..wc] == old(outB[..wc]) + Worded(LIQUIBOOK, s.event))
    {
      hide Match, Enter, Traded, Trades, Find;
      var hit := OnCancel(m.id);
      if !hit {
        Rep(Ack(MODIFY_REJECT, m.seqno, m.id, 0, 0, 0));
        return true;
      }
      ghost var o := Order(m.id, m.side, m.price, m.qty);
      ghost var e := Enter(engine, o, false);
      var n;
      n, ok := OnNew(Order(m.id, m.side, m.price, m.qty), m.seqno, false);
      if !ok {
        return;
      }
      var _ := RepStagedTrades(n, m.seqno, o, e.fills);
      Rep(Ack(MODIFY_ACK, m.seqno, m.id, m.side.Code(), m.price, m.qty));
    }

    method BatchMessage(m: Msg) returns (ok: bool)
      requires Valid() && Admissible(engine, m) && outB.Length - wc >= REP_RESERVE
      modifies this`engine, this`lastCancelPrice, this`lastCancelSide, this`wc, tradeBuf, outB
      ensures var s := Step(old(engine), m);
              && (ok <==> StagedFills(s.event) <= STAGE_CAP)
              && (ok ==> Valid() && engine == s.book && wc <= outB.Length
                         && outB[..wc] == old(outB[..wc]) + Worded(LIQUIBOOK, s.event))
    {
      hide Match, Enter, Trades, Find;
      ok := true;
      match m
      case New(_, _, _, _, _, _) => ok := BatchNew(m);
      case Cancel(_, _) => BatchCancel(m);
      case Modify(_, _, _, _, _) => ok := BatchModify(m);
    }

    /** onBatch: handles messages from `start` on until the run ends or the buffer may not
        hold one more message's worst case. When it is not at the end of the run and the
        buffer holds at least one reserve, it has made progress. */
    method OnBatch(inB: seq<Msg>, start: nat, ghost from: seq<Order>) returns (packed: nat, ok: bool)
      requires Valid() && start <= |inB| && |inB| < TWO_32 && outB.Length < TWO_32
      requires AdmissibleRun(from, inB) && engine == Run(from, inB[..start]).book
      modifies this`engine, this`lastCancelPrice, this`lastCancelSide, this`wc, tradeBuf, outB
      ensures ok ==>
                && start <= Consumed(packed) <= |inB| && Written(packed) <= outB.Length
                && Valid() && engine == Run(from, inB[..Consumed(packed)]).book
                && Stream(LIQUIBOOK, Run(from, inB[..Consumed(packed)]).events)
                == Stream(LIQUIBOOK, Run(from, inB[..start]).events) + outB[..Written(packed)]
                && (start < |inB| && outB.Length >= REP_RESERVE ==> start < Consumed(packed))
                && (Consumed(packed) < |inB| ==> outB.Length - Written(packed) < REP_RESERVE)
      ensures if ok then AllStage(from, inB, start, Consumed(packed), STAGE_CAP)
              else !AllStage(from, inB, start, |inB|, STAGE_CAP)
    {
      hide Step, Run, Stream, Worded, Admissible, WellFormed, Pack, Consumed, Written, Stages;
      wc := 0;
      var i := start;
      packed := 0;
      while i < |inB|
        invariant start <= i <= |inB| && wc <= outB.Length && Valid()
        invariant engine == Run(from, inB[..i]).book
        invariant Stream(LIQUIBOOK, Run(from, inB[..i]).events)
               == Stream(LIQUIBOOK, Run(from, inB[..start]).events) + outB[..wc]
        invariant AllStage(from, inB, start, i, STAGE_CAP)
        invariant i == start ==> wc == 0
      {
        if outB.Length - wc < REP_RESERVE {
          break;
        }
        StreamNext(LIQUIBOOK, from, inB, i);
        StagesIs(from, inB, i, STAGE_CAP);
        assert Admissible(Run(from, inB[..i]).book, inB[i]);
        ok := BatchMessage(inB[i]);
        if !ok {
          return;
        }
        i := i + 1;
      }
      PackRoundTrip(i, wc);
      packed := Pack(i, wc);
      ok := true;
    }

    /** engine_on_batch: calls onBatch until the run is consumed, pushing each chunk. With a report
        buffer that holds one reserve, the run ends normally if and only if every message's fills
        fit the staging buffer; and whenever it ends normally, the pushed chunks are together
        exactly the stream of per-message delivery. */
    method EngineOnBatch(msgs: seq<Msg>) returns (ok: bool)
      requires Valid() && |msgs| < TWO_32 && outB.Length < TWO_32 && AdmissibleRun(engine, msgs)
      modifies this, tradeBuf, outB
      ensures ok ==>
                && Valid() && engine == Run(old(engine), msgs).book
                && reports == old(reports) + Stream(LIQUIBOOK, Run(old(engine), msgs).events)
      ensures outB.Length >= REP_RESERVE ==> (ok <==> AllStage(old(engine), msgs, 0, |msgs|, STAGE_CAP))
    {
      hide Step, Run, Stream, Worded, Admissible, WellFormed, Pack, Consumed, Written, Stages;
      ghost var from := engine;
      var start: nat := 0;
      NothingDelivered(from, msgs);
      while start < |msgs|
        invariant start <= |msgs| && Valid() && engine == Run(from, msgs[..start]).book
        invariant AllStage(from, msgs, 0, start, STAGE_CAP)
        invariant reports == old(reports) + Stream(LIQUIBOOK, Run(from, msgs[..start]).events)
      {
        var packed;
        packed, ok := OnBatch(msgs, start, from);
        if !ok {
          return;
        }
        var consumed := Consumed(packed);
        var written := Written(packed);
        ghost var before, chunk := reports, outB[..written];
        var k := 0;
        while k < written
          invariant k <= written && outB[..written] == chunk && reports == before + chunk[..k]
          invariant engine == Run(from, msgs[..consumed]).book
        {
          assert outB[k] == chunk[k];
          reports := reports + [outB[k]];
          k := k + 1;
        }
        assert chunk[..k] == chunk;
        assert old(reports) + Stream(LIQUIBOOK, Run(from, msgs[..start]).events) + chunk
            == old(reports) + (Stream(LIQUIBOOK, Run(from, msgs[..start]).events) + chunk);
        if consumed <= start {
          return false;
        }
        start := consumed;
      }
      assert msgs[..start] == msgs;
      ok := true;
    }

    /** Per-message delivery of the same engine, for comparison with the batch path. */
    method EngineOnMessage(m: Msg) returns (ok: bool)
      requires Valid() && Admissible(engine, m)
      modifies this`engine, this`lastCancelPrice, this`lastCancelSide, this`reports, tradeBuf
      ensures var s := Step(old(engine), m);
              && (ok <==> StagedFills(s.event) <= STAGE_CAP)
              && (ok ==> Valid() && engine == s.book && reports == old(reports) + Worded(LIQUIBOOK, s.event))
    {
      hide Match, Enter, Traded, Trades, Find;
      ok := true;
      if m.New? {
        ghost var o := Order(m.id, m.side, m.price, m.qty);
        ghost var e := Enter(engine, o, m.ioc);
        EnterFilled(engine, o, m.ioc);
        reports := reports + [Ack(ORDER_ACK, m.seqno, m.id, m.side.Code(), m.price, m.qty)];
        var n;
        n, ok := OnNew(Order(m.id, m.side, m.price, m.qty), m.seqno, m.ioc);
        if !ok {
          return;
        }
        var filled;
        reports, filled := EmitStagedTrades(tradeBuf, n, reports, m.seqno, o, e.fills);
        if m.ioc && filled < m.qty {
          reports := reports + [Ack(CANCEL_ACK, m.seqno, m.id, m.side.Code(), m.price, m.qty - filled)];
        }
        return;
      }
      var hit := OnCancel(m.id);
      if m.Cancel? {
        reports := reports + [if hit then Ack(CANCEL_ACK, m.seqno, m.id, lastCancelSide.Code(), tradeBuf[0].price, 0)
                              else Ack(CANCEL_REJECT, m.seqno, m.id, 0, 0, 0)];
      } else if !hit {
        reports := reports + [Ack(MODIFY_REJECT, m.seqno, m.id, 0, 0, 0)];
      } else {
        ghost var o := Order(m.id, m.side, m.price, m.qty);
        ghost var e := Enter(engine, o, false);
        var n;
        n, ok := OnNew(Order(m.id, m.side, m.price, m.qty), m.seqno, false);
        if !ok {
          return;
        }
        var filled;
        reports, filled := EmitStagedTrades(tradeBuf, n, reports, m.seqno, o, e.fills);
        reports := reports + [Ack(MODIFY_ACK, m.seqno, m.id, m.side.Code(), m.price, m.qty)];
      }
    }
  }

  lemma NothingDelivered(from: seq<Order>, msgs: seq<Msg>)
    ensures Run(from, msgs[..0]).book == from && Stream(LIQUIBOOK, Run(from, msgs[..0]).events) == []
  {}

  lemma KeepsWellFormed(b: seq<Order>, o: Order, ioc: bool)
    requires WellFormed(b) && !Resting(b, o.id) && o.qty > 0
    ensures WellFormed(Enter(b, o, ioc).book)
    ensures !Resting(Match(b, o.side, o.price, o.qty).book, o.id)
    ensures Find(Match(b, o.side, o.price, o.qty).book, o.id).None?
  {
    hide Match;
    MatchKeeps(b, o.side, o.price, o.qty);
    ShrunkResting(b, Match(b, o.side, o.price, o.qty).book, o.id);
    FindSpec(Match(b, o.side, o.price, o.qty).book, o.id);
  }

  lemma NothingStaged(seqno: nat, taker: Order, fills: seq<Fill>)
    ensures Trades(LIQUIBOOK, seqno, taker, fills[..0]) == [] && Traded(fills[..0]) == 0
  {}
}
