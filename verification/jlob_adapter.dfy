/** The jLOB adapter. jLOB's fill callback names maker, taker and size but no price; the
    price of every Trade comes from the adapter's shadow of resting orders. */
module JlobAdapter {
  import opened Basics
  import opened Contract
  import opened MatchingLaws
  import opened Reports
  import opened Shadow
  import opened Staging

  const STAGE_CAP: nat := 4096

  class Adapter {
    /** The engine's own book, driven only through Place and EngineCancel. */
    var engine: seq<Order>
    var resting: map<nat, Rest>
    const tradeBuf: array<StageTrade>
    var fillN: nat
    var curSeq: nat
    var takerFilled: nat
    var reports: seq<Report>

    ghost predicate Valid()
      reads this
    {
      WellFormed(engine) && Lockstep(engine, resting) && tradeBuf.Length == STAGE_CAP
    }

    constructor ()
      ensures Valid() && fresh(tradeBuf) && engine == [] && reports == []
    {
      engine, resting, reports := [], map[], [];
      tradeBuf := new StageTrade[STAGE_CAP](_ => StageTrade(0, 0, 0, 0, 0));
      fillN, curSeq, takerFilled := 0, 0, 0;
    }

    /** The engine's fill callback. Not ok when the record does not fit the staging buffer,
        where the original fails with an out-of-bounds exception. */
    method OnMatch(maker: nat, taker: nat, qty: nat) returns (ok: bool)
      requires tradeBuf.Length == STAGE_CAP
      modifies this`resting, this`fillN, this`takerFilled, tradeBuf
      ensures ok <==> old(fillN) < STAGE_CAP
      ensures ok ==>
                var price := if maker in old(resting) then old(resting)[maker].price else 0;
                && fillN == old(fillN) + 1 && takerFilled == old(takerFilled) + qty
                && tradeBuf[..] == old(tradeBuf[..])[old(fillN) := StageTrade(curSeq, price, qty, maker, taker)]
                && resting == ApplyFill(old(resting), Fill(maker, price, qty))
    {
      var price := if maker in resting then resting[maker].price else 0;
      if fillN >= tradeBuf.Length {
        return false;
      }
      tradeBuf[fillN] := StageTrade(curSeq, price, qty, maker, taker);
      fillN := fillN + 1;
      takerFilled := takerFilled + qty;
      if maker in resting && qty >= resting[maker].qty {
        resting := resting - {maker};
      } else if maker in resting {
        resting := resting[maker := resting[maker].(qty := resting[maker].qty - qty)];
      }
      ok := true;
    }

    /** The engine places an order: it matches, calling back once per fill in match order,
        and rests what is left. */
    method Place(o: Order) returns (ok: bool)
      requires Valid() && o.qty > 0 && fillN == 0 && takerFilled == 0
      modifies this`engine, this`resting, this`fillN, this`takerFilled, tradeBuf
      ensures var m := Match(old(engine), o.side, o.price, o.qty);
              && (ok <==> |m.fills| <= STAGE_CAP)
              && (ok ==>
                    && engine == Enter(old(engine), o, false).book
                    && Lockstep(m.book, resting)
                    && fillN == |m.fills| && takerFilled == Traded(m.fills)
                    && Holds(tradeBuf[..], curSeq, o.id, m.fills, fillN))
    {
      hide Lockstep, Match, Traded;
      var m := Match(engine, o.side, o.price, o.qty);
      MatchLockstep(engine, resting, o.side, o.price, o.qty);
      ghost var target := ApplyFills(resting, m.fills);
      assert m.fills[0..] == m.fills && Traded(m.fills[..0]) == 0 by { NothingTraded(m.fills); }
      var k := 0;
      while k < |m.fills|
        invariant k <= |m.fills| && fillN == k <= STAGE_CAP && takerFilled == Traded(m.fills[..k])
        invariant Backed(resting, o.side, m.fills[k..]) && ApplyFills(resting, m.fills[k..]) == target
        invariant Holds(tradeBuf[..], curSeq, o.id, m.fills, k)
        invariant engine == old(engine)
      {
        var f := m.fills[k];
        assert m.fills[k..][0] == f && m.fills[k..][1..] == m.fills[k + 1..];
        TradedNext(m.fills, k);
        ok := OnMatch(f.maker, o.id, f.qty);
        if !ok {
          return;
        }
        k := k + 1;
      }
      assert m.fills[..k] == m.fills;
      engine := if m.left > 0 then m.book + [o.(qty := m.left)] else m.book;
      ok := true;
    }

    /** The engine's cancel takes a size: it throws on an unknown id or an oversized cancel
        and otherwise takes that many lots off the order. */
    method EngineCancel(id: nat, size: nat) returns (ok: bool)
      modifies this`engine
      ensures var at := Find(old(engine), id);
              && (ok <==> at.Some? && size <= old(engine)[at.value].qty)
              && engine == (if ok then Take(old(engine), at.value, size) else old(engine))
    {
      var at := Find(engine, id);
      if at.None? || size > engine[at.value].qty {
        return false;
      }
      engine := Take(engine, at.value, size);
      ok := true;
    }

    /** Enters an order, staging its fills; an immediate-or-cancel residual is taken out
        again through the engine's cancel and never reaches the shadow. */
    method OnNew(orderId: nat, seqno: nat, price: int, qty: nat, side: Side, ioc: bool) returns (n: nat, ok: bool)
      requires Valid() && qty > 0 && !Resting(engine, orderId)
      modifies this`engine, this`resting, this`fillN, this`curSeq, this`takerFilled, tradeBuf
      ensures var o := Order(orderId, side, price, qty);
              var e := Enter(old(engine), o, ioc);
              && (ok <==> |e.fills| <= STAGE_CAP)
              && (ok ==>
                    Valid() && engine == e.book && n == |e.fills|
                    && Holds(tradeBuf[..], seqno, orderId, e.fills, n))
    {
      hide Lockstep, Match, Traded, Find;
      ghost var o := Order(orderId, side, price, qty);
      ghost var m := Match(engine, side, price, qty);
      MatchKeeps(engine, side, price, qty);
      ShrunkResting(engine, m.book, orderId);
      MatchConserves(engine, side, price, qty);
      IocUndone(engine, o);
      fillN, curSeq, takerFilled := 0, seqno, 0;
      n := 0;
      ok := Place(Order(orderId, side, price, qty));
      if !ok {
        return;
      }
      n := fillN;
      var residual := qty - takerFilled;
      if ioc {
        if residual > 0 {
          var _ := EngineCancel(orderId, residual);
        }
      } else if residual > 0 {
        LockstepAppend(m.book, resting, o.(qty := residual));
        resting := resting[orderId := Rest(side, price, residual)];
      }
    }

    /** The shadow adjudicates a cancel; its remaining quantity sizes the engine's cancel. */
    method OnCancel(orderId: nat) returns (r: Option<Rest>)
      requires Valid()
      modifies this`engine, this`resting
      ensures Valid()
      ensures var at := Find(old(engine), orderId);
              if at.None? then r == None && engine == old(engine)
              else r == Some(RestOf(old(engine)[at.value])) && engine == RemoveAt(old(engine), at.value)
    {
      hide Lockstep, Find;
      LockstepFinds(engine, resting, orderId);
      if orderId !in resting {
        return None;
      }
      var h := resting[orderId];
      ghost var at := Find(engine, orderId).value;
      LockstepRemove(engine, resting, at);
      RemovedKeeps(engine, at);
      var ok := EngineCancel(orderId, h.qty);
      resting := resting - {orderId};
      if !ok {
        return None;
      }
      r := Some(h);
    }

    method OnNewOrder(m: Msg) returns (ok: bool)
      requires Valid() && m.New? && Admissible(engine, m)
      modifies this, tradeBuf
      ensures var s := Step(old(engine), m);
              && (ok <==> |s.event.fills| <= STAGE_CAP)
              && (ok ==> Valid() && engine == s.book && reports == old(reports) + Worded(LIQUIBOOK, s.event))
    {
      hide Lockstep, Match, Enter, Traded, Trades, Find;
      ghost var o := Order(m.id, m.side, m.price, m.qty);
      ghost var e := Enter(engine, o, m.ioc);
      EnterFilled(engine, o, m.ioc);
      reports := reports + [Ack(ORDER_ACK, m.seqno, m.id, m.side.Code(), m.price, m.qty)];
      var n;
      n, ok := OnNew(m.id, m.seqno, m.price, m.qty, m.side, m.ioc);
      if !ok {
        return;
      }
      var filled;
      reports, filled := EmitStagedTrades(tradeBuf, n, reports, m.seqno, o, e.fills);
      if m.ioc && filled < m.qty {
        reports := reports + [Ack(CANCEL_ACK, m.seqno, m.id, m.side.Code(), m.price, m.qty - filled)];
      }
    }

    method OnCancelMsg(m: Msg)
      requires Valid() && m.Cancel?
      modifies this
      ensures Valid()
      ensures var s := Step(old(engine), m);
              engine == s.book && reports == old(reports) + Worded(LIQUIBOOK, s.event)
    {
      hide Lockstep, Find, WellFormed;
      var r := OnCancel(m.id);
      match r
      case Some(h) =>
        reports := reports + [Ack(CANCEL_ACK, m.seqno, m.id, h.side.Code(), h.price, 0)];
      case None =>
        reports := reports + [Ack(CANCEL_REJECT, m.seqno, m.id, 0, 0, 0)];
    }

    /** Cancel and reinsert; the ModifyAck follows the trades. */
    method OnModify(m: Msg) returns (ok: bool)
      requires Valid() && m.Modify? && Admissible(engine, m)
      modifies this, tradeBuf
      ensures var s := Step(old(engine), m);
              && (ok <==> s.event.Modified? ==> |s.event.fills| <= STAGE_CAP)
              && (ok ==> Valid() && engine == s.book && reports == old(reports) + Worded(LIQUIBOOK, s.event))
    {
      hide Lockstep, Match, Enter, Traded, Trades, Find;
      ghost var at := Find(engine, m.id);
      if at.Some? {
        RemovedKeeps(engine, at.value);
      }
      var r := OnCancel(m.id);
      if r.None? {
        reports := reports + [Ack(MODIFY_REJECT, m.seqno, m.id, 0, 0, 0)];
        return true;
      }
      ghost var o := Order(m.id, m.side, m.price, m.qty);
      ghost var e := Enter(engine, o, false);
      var n;
      n, ok := OnNew(m.id, m.seqno, m.price, m.qty, m.side, false);
      if !ok {
        return;
      }
      var filled;
      reports, filled := EmitStagedTrades(tradeBuf, n, reports, m.seqno, o, e.fills);
      reports := reports + [Ack(MODIFY_ACK, m.seqno, m.id, m.side.Code(), m.price, m.qty)];
    }

    method OnMessage(m: Msg) returns (ok: bool)
      requires Valid() && Admissible(engine, m)
      modifies this, tradeBuf
      ensures var s := Step(old(engine), m);
              && (ok <==> StagedFills(s.event) <= STAGE_CAP)
              && (ok ==> Valid() && engine == s.book && reports == old(reports) + Worded(LIQUIBOOK, s.event))
    {
      hide Match, Enter, Find, Worded, Lockstep;
      ok := true;
      match m
      case New(_, _, _, _, _, _) => ok := OnNewOrder(m);
      case Cancel(_, _) => OnCancelMsg(m);
      case Modify(_, _, _, _, _) => ok := OnModify(m);
    }

    /** A whole run: it ends normally if and only if every message's fills fit the staging
        buffer, and then its reports are the contract's, every Trade at its maker's resting
        price although only the shadow knew it. */
    method Deliver(msgs: seq<Msg>) returns (ok: bool)
      requires Valid() && engine == [] && reports == [] && AdmissibleRun([], msgs)
      modifies this, tradeBuf
      ensures ok <==> AllStage([], msgs, 0, |msgs|, STAGE_CAP)
      ensures ok ==> Valid() && engine == Run([], msgs).book && reports == Stream(LIQUIBOOK, Run([], msgs).events)
    {
      hide Step, Run, Stream, Worded, Admissible, Valid, Stages;
      EmptyStream(LIQUIBOOK, msgs);
      var k := 0;
      while k < |msgs|
        invariant k <= |msgs| && Valid() && engine == Run([], msgs[..k]).book
        invariant AllStage([], msgs, 0, k, STAGE_CAP)
        invariant reports == Stream(LIQUIBOOK, Run([], msgs[..k]).events)
      {
        StreamNext(LIQUIBOOK, [], msgs, k);
        StagesIs([], msgs, k, STAGE_CAP);
        assert Admissible(Run([], msgs[..k]).book, msgs[k]);
        ok := OnMessage(msgs[k]);
        if !ok {
          return;
        }
        k := k + 1;
      }
      assert msgs[..k] == msgs;
      ok := true;
    }
  }

  lemma NothingTraded(fills: seq<Fill>)
    ensures fills[0..] == fills && Traded(fills[..0]) == 0
  {}
}
