/** The CoinTossX adapter: a price-time engine that reports every fill through a callback,
    beside a shadow of resting orders packed into longs. */
module CoinTossXAdapter {
  import opened Basics
  import opened Contract
  import opened MatchingLaws
  import opened Reports
  import opened Shadow
  import opened PackedShadow
  import opened Staging
  import opened Canonical
  import opened Consensus

  const STAGE_CAP: nat := 4096
  const ABSENT: int := 0

  function Unpacked(v: int): Rest {
    Rest(UnpackSide(v), UnpackPrice(v), UnpackResidual(v))
  }

  /** The record map that a packed map stands for. */
  function View(packed: map<nat, int>): map<nat, Rest> {
    map id | id in packed :: Unpacked(packed[id])
  }

  ghost predicate RestFits(r: Rest) {
    PriceFits(r.price) && 0 < r.qty < TWO_32
  }

  /** No live value is 0, and every packed record unpacks to what was packed. */
  ghost predicate AllPacked(packed: map<nat, int>) {
    forall id | id in packed :: packed[id] != ABSENT && RestFits(Unpacked(packed[id]))
  }

  lemma PackedPut(packed: map<nat, int>, id: nat, price: int, side: Side, qty: nat)
    requires 0 < qty < TWO_32
    ensures var v := Pack(price, side, qty);
            && View(packed[id := v]) == View(packed)[id := Rest(side, Narrow(price), qty)]
            && (AllPacked(packed) ==> AllPacked(packed[id := v]))
  {
    PackRoundTrip(price, side, qty);
  }

  lemma PackedRemove(packed: map<nat, int>, id: nat)
    ensures View(packed - {id}) == View(packed) - {id}
  {}

  /** The packed map after one fill callback. */
  function PackedFill(packed: map<nat, int>, f: Fill): map<nat, int> {
    var v := if f.maker in packed then packed[f.maker] else ABSENT;
    if v == ABSENT then packed
    else if UnpackResidual(v) > f.qty then
      packed[f.maker := Pack(UnpackPrice(v), UnpackSide(v), UnpackResidual(v) - f.qty)]
    else packed - {f.maker}
  }

  function PackedFills(packed: map<nat, int>, fills: seq<Fill>): map<nat, int> {
    if fills == [] then packed else PackedFills(PackedFill(packed, fills[0]), fills[1..])
  }

  /** An in-place repack does to the packed map what the fill does to the record map. */
  lemma PackedFillRefines(packed: map<nat, int>, f: Fill)
    requires AllPacked(packed)
    ensures AllPacked(PackedFill(packed, f)) && View(PackedFill(packed, f)) == ApplyFill(View(packed), f)
  {
    hide UnpackPrice, UnpackSide, UnpackResidual, Pack;
    if f.maker in packed {
      var r := Unpacked(packed[f.maker]);
      if r.qty > f.qty {
        PackedPut(packed, f.maker, r.price, r.side, r.qty - f.qty);
      } else {
        PackedRemove(packed, f.maker);
      }
    }
  }

  lemma {:induction false} PackedFillsRefine(packed: map<nat, int>, fills: seq<Fill>)
    requires AllPacked(packed)
    ensures AllPacked(PackedFills(packed, fills)) && View(PackedFills(packed, fills)) == ApplyFills(View(packed), fills)
    decreases fills
  {
    hide AllPacked, View, PackedFill;
    if fills != [] {
      PackedFillRefines(packed, fills[0]);
      PackedFillsRefine(PackedFill(packed, fills[0]), fills[1..]);
    }
  }

  /** removeFromBook: drops every order with this id from the level at price and side. */
  function Without(b: seq<Order>, id: nat, price: int, side: Side): seq<Order> {
    if b == [] then []
    else
      var last := b[|b| - 1];
      Without(b[..|b| - 1], id, price, side)
      + (if last.id == id && last.price == price && last.side == side then [] else [last])
  }

  lemma {:induction false} WithoutAbsent(b: seq<Order>, id: nat, price: int, side: Side)
    requires !Resting(b, id)
    ensures Without(b, id, price, side) == b
  {
    if b != [] {
      var n := |b| - 1;
      assert b[n].id != id;
      assert !Resting(b[..n], id);
      WithoutAbsent(b[..n], id, price, side);
      assert b == b[..n] + [b[n]];
    }
  }

  lemma {:induction false} WithoutConcat(a: seq<Order>, b: seq<Order>, id: nat, price: int, side: Side)
    ensures Without(a + b, id, price, side) == Without(a, id, price, side) + Without(b, id, price, side)
  {
    if b == [] {
      assert a + b == a;
    } else {
      assert (a + b)[..|a + b| - 1] == a + b[..|b| - 1];
      WithoutConcat(a, b[..|b| - 1], id, price, side);
    }
  }

  /** Removal by id, price and side removes exactly the resting order, when price and side
      are the order's own. */
  lemma WithoutIsRemove(b: seq<Order>, i: nat)
    requires DistinctIds(b) && i < |b|
    ensures Without(b, b[i].id, b[i].price, b[i].side) == RemoveAt(b, i)
  {
    hide Without, DistinctIds, Resting;
    IdElsewhere(b, i);
    var o := b[i];
    assert b == b[..i] + [o] + b[i + 1..];
    WithoutConcat(b[..i] + [o], b[i + 1..], o.id, o.price, o.side);
    WithoutConcat(b[..i], [o], o.id, o.price, o.side);
    WithoutAbsent(b[..i], o.id, o.price, o.side);
    WithoutAbsent(b[i + 1..], o.id, o.price, o.side);
    WithoutItself(o);
  }

  lemma IdElsewhere(b: seq<Order>, i: nat)
    requires DistinctIds(b) && i < |b|
    ensures !Resting(b[..i], b[i].id) && !Resting(b[i + 1..], b[i].id)
  {}

  lemma WithoutItself(o: Order)
    ensures Without([o], o.id, o.price, o.side) == []
  {}

  /** Removal at a level the order is not in removes nothing. */
  lemma {:induction false} WithoutElsewhere(b: seq<Order>, id: nat, price: int, side: Side)
    requires forall i | 0 <= i < |b| :: !(b[i].id == id && b[i].price == price && b[i].side == side)
    ensures Without(b, id, price, side) == b
  {
    if b != [] {
      var n := |b| - 1;
      WithoutElsewhere(b[..n], id, price, side);
      assert b == b[..n] + [b[n]];
    }
  }

  // ----- what the adapter does, in every state --------------------------------------------------------

  /** The engine's book and the packed shadow beside it. */
  datatype State = State(engine: seq<Order>, resting: map<nat, int>)
  datatype Moved = Moved(state: State, event: Event)
  datatype Result = Result(state: State, events: seq<Event>)

  /** The shadow's record of an id; 0 counts as absent. */
  function Shadowed(s: State, id: nat): Option<Rest> {
    if id in s.resting && s.resting[id] != ABSENT then Some(Unpacked(s.resting[id])) else None
  }

  /** An order enters: the fills repack the shadow, and what rests is packed into it. */
  function Entered(s: State, o: Order, ioc: bool): State {
    var e := Enter(s.engine, o, ioc);
    var packed := PackedFills(s.resting, e.fills);
    State(e.book, if !ioc && e.left > 0 then packed[o.id := Pack(o.price, o.side, e.left)] else packed)
  }

  /** A shadowed order is dropped from the shadow, and from the level the shadow places it in. */
  function Dropped(s: State, id: nat): State {
    match Shadowed(s, id)
    case None => s
    case Some(h) => State(Without(s.engine, id, h.price, h.side), s.resting - {id})
  }

  /** One message: a cancel that finds nothing in the level is rejected, a modify re-enters the
      order whether or not the level had it. */
  function Move(s: State, m: Msg): Moved {
    match m
    case New(id, seqno, price, qty, side, ioc) =>
      var o := Order(id, side, price, qty);
      var e := Enter(s.engine, o, ioc);
      Moved(Entered(s, o, ioc), Accepted(o, seqno, e.fills, e.left, ioc))
    case Cancel(id, seqno) =>
      var d := Dropped(s, id);
      var h := Shadowed(s, id);
      if h.None? || |d.engine| == |s.engine| then Moved(d, CancelRejected(id, seqno))
      else Moved(d, Cancelled(Order(id, h.value.side, h.value.price, h.value.qty), seqno))
    case Modify(id, seqno, price, qty, side) =>
      var d := Dropped(s, id);
      var h := Shadowed(s, id);
      if h.None? then Moved(s, ModifyRejected(id, seqno))
      else
        var o := Order(id, side, price, qty);
        var e := Enter(d.engine, o, false);
        Moved(Entered(d, o, false),
              Modified(Order(id, h.value.side, h.value.price, h.value.qty), o, seqno, e.fills, e.left))
  }

  function Moves(msgs: seq<Msg>): (r: Result)
    ensures |r.events| == |msgs|
  {
    if msgs == [] then Result(State([], map[]), [])
    else
      var before := Moves(msgs[..|msgs| - 1]);
      var m := Move(before.state, msgs[|msgs| - 1]);
      Result(m.state, before.events + [m.event])
  }

  lemma MovesNext(msgs: seq<Msg>, k: nat)
    requires k < |msgs|
    ensures var m := Move(Moves(msgs[..k]).state, msgs[k]);
            && Moves(msgs[..k + 1]).state == m.state
            && Stream(LIQUIBOOK, Moves(msgs[..k + 1]).events)
            == Stream(LIQUIBOOK, Moves(msgs[..k]).events) + Worded(LIQUIBOOK, m.event)
  {
    assert msgs[..k + 1][..k] == msgs[..k];
    var e := Moves(msgs[..k + 1]).events;
    assert e[..|e| - 1] == Moves(msgs[..k]).events;
  }

  // ----- when that is the contract ------------------------------------------------------------------------

  /** Every resting order is in the shadow with its side, its residual and its price narrowed. */
  ghost predicate Sound(s: State) {
    WellFormed(s.engine) && AllPacked(s.resting) && View(s.resting) == Repriced(Records(s.engine), Narrow)
  }

  lemma StartIsSound()
    ensures Sound(State([], map[]))
  {}

  lemma EnteredSound(s: State, o: Order, ioc: bool)
    requires Sound(s) && !Resting(s.engine, o.id) && 0 < o.qty < TWO_32
    ensures Sound(Entered(s, o, ioc))
  {
    hide Match, Lockstep, AllPacked, View, Pack, Records, Narrow, PackedFills, ApplyFills, Find, Resting;
    var b := s.engine;
    var e := Enter(b, o, ioc);
    RecordsLockstep(b);
    EnterStays(b, Records(b), o, ioc);
    PackedFillsRefine(s.resting, e.fills);
    RepricedFills(Records(b), e.fills, Narrow);
    MatchConserves(b, o.side, o.price, o.qty);
    var records := ApplyFills(Records(b), e.fills);
    if !ioc && e.left > 0 {
      PackedPut(PackedFills(s.resting, e.fills), o.id, o.price, o.side, e.left);
      RepricedPut(records, o.id, Rest(o.side, o.price, e.left), Narrow);
      LockstepIsRecords(e.book, records[o.id := Rest(o.side, o.price, e.left)]);
    } else {
      LockstepIsRecords(e.book, records);
    }
  }

  /** The shadow's record of an id is the resting order's, narrowed. */
  lemma ShadowedIs(s: State, id: nat)
    requires Sound(s)
    ensures var at := Find(s.engine, id);
            Shadowed(s, id) == if at.None? then None
                               else Some(RestOf(s.engine[at.value]).(price := Narrow(s.engine[at.value].price)))
  {
    hide Lockstep, Records, Narrow, UnpackPrice, UnpackSide, UnpackResidual, Find;
    RecordsLockstep(s.engine);
    LockstepFinds(s.engine, Records(s.engine), id);
    assert id in View(s.resting) <==> id in s.resting;
  }

  /** The message looks for a resting order whose price the shadow does not carry. */
  ghost predicate Lost(b: seq<Order>, m: Msg) {
    !m.New? && Find(b, m.id).Some? && !PriceFits(b[Find(b, m.id).value].price)
  }

  /** A lost order stays in the book: the level looked in does not have it. */
  lemma DroppedIs(s: State, id: nat)
    requires Sound(s)
    ensures var at := Find(s.engine, id);
            if at.None? then Dropped(s, id) == s
            else if PriceFits(s.engine[at.value].price) then
              Sound(Dropped(s, id)) && Dropped(s, id).engine == RemoveAt(s.engine, at.value)
            else Dropped(s, id).engine == s.engine
  {
    hide Lockstep, Records, View, AllPacked, Unpacked, Find, Without, Narrow;
    ShadowedIs(s, id);
    var at := Find(s.engine, id);
    if at.Some? {
      var o := s.engine[at.value];
      FindSpec(s.engine, id);
      if PriceFits(o.price) {
        WithoutIsRemove(s.engine, at.value);
        RemovedKeeps(s.engine, at.value);
        RecordsLockstep(s.engine);
        LockstepRemove(s.engine, Records(s.engine), at.value);
        LockstepIsRecords(RemoveAt(s.engine, at.value), Records(s.engine) - {id});
        PackedRemove(s.resting, id);
        PackedStays(s.resting, id);
        RepricedPut(Records(s.engine), id, RestOf(o), Narrow);
      } else {
        WithoutElsewhere(s.engine, id, Narrow(o.price), o.side);
      }
    }
  }

  lemma PackedStays(packed: map<nat, int>, id: nat)
    ensures AllPacked(packed) ==> AllPacked(packed - {id})
  {}

  /** In step with a shadow that carries the price, the adapter makes the contract's step. */
  lemma MoveIsStep(s: State, m: Msg)
    requires Sound(s) && Admissible(s.engine, m) && (m.Cancel? || m.qty < TWO_32) && !Lost(s.engine, m)
    ensures var t := Move(s, m);
            Sound(t.state) && t.state.engine == Step(s.engine, m).book && t.event == Step(s.engine, m).event
  {
    hide Sound, Enter, Dropped, Find, Shadowed, Entered, Narrow;
    match m
    case New(id, _, price, qty, side, ioc) =>
      EnteredIs(s, Order(id, side, price, qty), ioc);
      SoundIs(s);
      EnteredSound(s, Order(id, side, price, qty), ioc);
    case Cancel(id, _) =>
      ShadowedIs(s, id);
      DroppedIs(s, id);
    case Modify(id, _, price, qty, side) =>
      ShadowedIs(s, id);
      DroppedIs(s, id);
      SoundIs(s);
      var at := Find(s.engine, id);
      if at.Some? {
        RemovedKeeps(s.engine, at.value);
        EnteredIs(Dropped(s, id), Order(id, side, price, qty), false);
        EnteredSound(Dropped(s, id), Order(id, side, price, qty), false);
      }
  }

  lemma EnteredIs(s: State, o: Order, ioc: bool)
    ensures Entered(s, o, ioc).engine == Enter(s.engine, o, ioc).book
  {}

  lemma SoundIs(s: State)
    requires Sound(s)
    ensures WellFormed(s.engine)
  {}

  lemma {:induction false} SameTrades(s: nat, taker: Order, f: seq<Fill>, g: seq<Fill>)
    requires Trades(LIQUIBOOK, s, taker, f) == Trades(LIQUIBOOK, s, taker, g)
    ensures f == g
  {
    if f != [] && g != [] {
      var m, n := |f| - 1, |g| - 1;
      var x, y := Trades(LIQUIBOOK, s, taker, f), Trades(LIQUIBOOK, s, taker, g);
      assert x[..|x| - 1] == Trades(LIQUIBOOK, s, taker, f[..m]) && y[..|y| - 1] == Trades(LIQUIBOOK, s, taker, g[..n]);
      SameTrades(s, taker, f[..m], g[..n]);
      assert x[|x| - 1] == y[|y| - 1];
      assert f == f[..m] + [f[m]] && g == g[..n] + [g[n]];
    }
  }

  /** Exactly then: a cancel of a lost order is rejected although it rests, and a modify of one
      re-enters it beside itself, so that book or reports are not the contract's. */
  lemma MoveExact(s: State, m: Msg)
    requires Sound(s) && Admissible(s.engine, m) && (m.Cancel? || m.qty < TWO_32)
    ensures var t := Move(s, m);
            && (m.Cancel? && Lost(s.engine, m) ==>
                  t.state.engine == s.engine && t.event == CancelRejected(m.id, m.seqno))
            && (m.Modify? && Lost(s.engine, m) ==>
                  t.state.engine == Enter(s.engine, Order(m.id, m.side, m.price, m.qty), false).book)
            && (SameOutcome(t, Step(s.engine, m)) <==> !Lost(s.engine, m))
  {
    hide Sound, Enter, Dropped, Find, Shadowed, Entered, Worded, Narrow;
    if !Lost(s.engine, m) {
      MoveIsStep(s, m);
    } else {
      ShadowedIs(s, m.id);
      DroppedIs(s, m.id);
      FindSpec(s.engine, m.id);
      if m.Modify? {
        EnteredIs(Dropped(s, m.id), Order(m.id, m.side, m.price, m.qty), false);
        SoundIs(s);
        BesideItself(s, m);
      }
    }
  }

  /** The same book and the same reports. */
  ghost predicate SameOutcome(t: Moved, c: Stepped) {
    t.state.engine == c.book && Worded(LIQUIBOOK, t.event) == Worded(LIQUIBOOK, c.event)
  }

  lemma BesideItself(s: State, m: Msg)
    requires WellFormed(s.engine) && m.Modify?
    requires Move(s, m).event.Modified? && Find(s.engine, m.id).Some?
    requires Move(s, m).event.o == Order(m.id, m.side, m.price, m.qty) && Move(s, m).event.seqno == m.seqno
    requires var e := Enter(s.engine, Order(m.id, m.side, m.price, m.qty), false);
             Move(s, m).state.engine == e.book && Move(s, m).event.fills == e.fills
    ensures !SameOutcome(Move(s, m), Step(s.engine, m))
  {
    hide Move, Enter, Find, Trades, Total;
    var o := Order(m.id, m.side, m.price, m.qty);
    var at := Find(s.engine, m.id).value;
    FindSpec(s.engine, m.id);
    var e, c := Enter(s.engine, o, false), Enter(RemoveAt(s.engine, at), o, false);
    EnterConserves(s.engine, o, false);
    EnterConserves(RemoveAt(s.engine, at), o, false);
    TotalTake(s.engine, at, s.engine[at].qty);
    if SameOutcome(Move(s, m), Step(s.engine, m)) {
      SameModified(Move(s, m).event, Step(s.engine, m).event);
    }
  }

  lemma SameModified(e: Event, c: Event)
    requires e.Modified? && c.Modified? && e.o == c.o && e.seqno == c.seqno
    requires Worded(LIQUIBOOK, e) == Worded(LIQUIBOOK, c)
    ensures e.fills == c.fills
  {
    var x, y := Trades(LIQUIBOOK, e.seqno, e.o, e.fills), Trades(LIQUIBOOK, e.seqno, e.o, c.fills);
    var ack := Ack(MODIFY_ACK, e.seqno, e.o.id, e.o.side.Code(), e.o.price, e.o.qty);
    assert (x + [ack])[..|x + [ack]| - 1] == x && (y + [ack])[..|y + [ack]| - 1] == y;
    SameTrades(e.seqno, e.o, e.fills, c.fills);
  }

  // ----- whole runs -----------------------------------------------------------------------------------------

  /** Message `k` looks for a resting order whose price the shadow does not carry. */
  ghost predicate LostAt(msgs: seq<Msg>, k: nat) {
    k < |msgs| && Lost(Run([], msgs[..k]).book, msgs[k])
  }

  ghost predicate NeverLost(msgs: seq<Msg>, n: nat) {
    forall k: nat | k < n :: !LostAt(msgs, k)
  }

  /** After `n` messages, book and reports are the contract's. */
  ghost predicate Agrees(msgs: seq<Msg>, n: nat)
    requires n <= |msgs|
  {
    && Moves(msgs[..n]).state.engine == Run([], msgs[..n]).book
    && Stream(LIQUIBOOK, Moves(msgs[..n]).events) == Stream(LIQUIBOOK, Run([], msgs[..n]).events)
  }

  /** Quantities are 32-bit numbers. */
  predicate Quantified(msgs: seq<Msg>) {
    forall k | 0 <= k < |msgs| :: msgs[k].Cancel? || msgs[k].qty < TWO_32
  }

  /** Without a lost order the adapter follows the contract event by event. */
  lemma {:induction false} RunFollows(msgs: seq<Msg>, n: nat)
    requires AdmissibleRun([], msgs) && Quantified(msgs) && n <= |msgs| && NeverLost(msgs, n)
    ensures var r := Moves(msgs[..n]);
            && Sound(r.state) && r.state.engine == Run([], msgs[..n]).book && r.events == Run([], msgs[..n]).events
  {
    hide Sound, Move, Step, Admissible, Lost;
    if n == 0 {
      StartIsSound();
    } else {
      RunFollows(msgs, n - 1);
      assert !LostAt(msgs, n - 1);
      assert Admissible(Run([], msgs[..n - 1]).book, msgs[n - 1]);
      MoveIsStep(Moves(msgs[..n - 1]).state, msgs[n - 1]);
      assert msgs[..n][..n - 1] == msgs[..n - 1];
    }
  }

  /** Book and reports are the contract's after every message if and only if no message looks for
      a resting order whose price is outside [-2^30, 2^30). */
  lemma RunExact(msgs: seq<Msg>)
    requires AdmissibleRun([], msgs) && Quantified(msgs)
    ensures (forall n: nat | n <= |msgs| :: Agrees(msgs, n)) <==> NeverLost(msgs, |msgs|)
  {
    hide Moves, Run, Stream, Admissible, Lost;
    if NeverLost(msgs, |msgs|) {
      forall n: nat | n <= |msgs| ensures Agrees(msgs, n) {
        RunFollows(msgs, n);
      }
    } else {
      var k: nat :| k < |msgs| && LostAt(msgs, k);
      FirstLostDisagrees(msgs, k);
    }
  }

  lemma {:induction false} FirstLostDisagrees(msgs: seq<Msg>, k: nat)
    requires AdmissibleRun([], msgs) && Quantified(msgs) && k < |msgs| && LostAt(msgs, k)
    ensures exists n: nat :: n <= |msgs| && !Agrees(msgs, n)
  {
    hide Moves, Run, Stream, Admissible, Lost, Move, Step, Worded, Sound;
    if j: nat :| j < k && LostAt(msgs, j) {
      FirstLostDisagrees(msgs, j);
    } else {
      RunFollows(msgs, k);
      assert Admissible(Run([], msgs[..k]).book, msgs[k]);
      MoveExact(Moves(msgs[..k]).state, msgs[k]);
      MovesNext(msgs, k);
      StreamNext(LIQUIBOOK, [], msgs, k);
      if Agrees(msgs, k + 1) {
        SameRest(Stream(LIQUIBOOK, Run([], msgs[..k]).events),
                 Worded(LIQUIBOOK, Move(Moves(msgs[..k]).state, msgs[k]).event),
                 Worded(LIQUIBOOK, Step(Run([], msgs[..k]).book, msgs[k]).event));
      }
      assert !Agrees(msgs, k + 1);
    }
  }

  lemma SameRest<T>(x: seq<T>, u: seq<T>, v: seq<T>)
    requires x + u == x + v
    ensures u == v
  {
    assert (x + u)[|x|..] == u && (x + v)[|x|..] == v;
  }

  /** When every price fits, nothing is lost. */
  lemma {:induction false} FittingNeverLost(msgs: seq<Msg>, n: nat)
    requires n <= |msgs| && forall k | 0 <= k < |msgs| :: msgs[k].Cancel? || PriceFits(msgs[k].price)
    ensures AllPriced(Run([], msgs[..n]).book, PriceFits) && NeverLost(msgs, n)
  {
    hide Step, AllPriced, Find, PriceFits, Run;
    if n == 0 {
      NothingFits(msgs);
    } else {
      FittingNeverLost(msgs, n - 1);
      RunPrefix([], msgs, n - 1);
      StepFits(Run([], msgs[..n - 1]).book, msgs[n - 1]);
      FitNotLost(Run([], msgs[..n - 1]).book, msgs[n - 1]);
    }
  }

  lemma NothingFits(msgs: seq<Msg>)
    ensures AllPriced(Run([], msgs[..0]).book, PriceFits)
  {}

  lemma FitNotLost(b: seq<Order>, m: Msg)
    requires AllPriced(b, PriceFits)
    ensures !Lost(b, m)
  {
    hide PriceFits;
  }

  lemma StepFits(b: seq<Order>, m: Msg)
    requires AllPriced(b, PriceFits) && (m.Cancel? || PriceFits(m.price))
    ensures AllPriced(Step(b, m).book, PriceFits)
  {
    hide Match, Find, PriceFits;
    var at := Find(b, m.id);
    match m
    case New(_, _, price, qty, side, _) => MatchPriced(b, side, price, qty, PriceFits);
    case Cancel(_, _) =>
    case Modify(id, _, price, qty, side) =>
      if at.Some? {
        MatchPriced(RemoveAt(b, at.value), side, price, qty, PriceFits);
      }
  }

  /** A lost order in two messages: a buy at 2^30 rests, and its cancel is rejected. */
  lemma CancelOutOfRange()
    ensures var msgs := [New(1, 0, PRICE_BOUND, 5, Buy, false), Cancel(1, 1)];
            && AdmissibleRun([], msgs) && LostAt(msgs, 1)
            && Moves(msgs).events[1] == CancelRejected(1, 1) && Run([], msgs).events[1].Cancelled?
  {
    var msgs := [New(1, 0, PRICE_BOUND, 5, Buy, false), Cancel(1, 1)];
    assert msgs[..0] == [] && msgs[..1] == [msgs[0]] && msgs[..2] == msgs;
    var o := Order(1, Buy, PRICE_BOUND, 5);
    assert BestMaker([], Buy, PRICE_BOUND).None?;
    assert Match([], Buy, PRICE_BOUND, 5) == Outcome([], [], 5);
    assert Enter([], o, false).book == [o];
    assert msgs[..1][..0] == [];
    assert Run([], msgs[..1]).book == [o];
    assert Find([o], 1) == Some(0);
    assert Admissible([o], msgs[1]) && Admissible([], msgs[0]);
    RunFollows(msgs, 1);
    MoveExact(Moves(msgs[..1]).state, msgs[1]);
  }

  // ----- the adapter -------------------------------------------------------------------------------------------

  class Adapter {
    /** The engine's own book. */
    var engine: seq<Order>
    var resting: map<nat, int>
    const tradeBuf: array<StageTrade>
    var fillN: nat
    var curSeq: nat
    var reports: seq<Report>

    ghost function Now(): State
      reads this
    {
      State(engine, resting)
    }

    ghost predicate Valid()
      reads this
    {
      tradeBuf.Length == STAGE_CAP
    }

    constructor ()
      ensures Valid() && fresh(tradeBuf) && Now() == State([], map[]) && reports == []
    {
      engine, resting, reports := [], map[], [];
      tradeBuf := new StageTrade[STAGE_CAP](_ => StageTrade(0, 0, 0, 0, 0));
      fillN, curSeq := 0, 0;
    }

    /** The fill callback. Not ok when the record does not fit the staging buffer. */
    method OnFill(maker: nat, taker: nat, price: int, qty: nat) returns (ok: bool)
      requires Valid()
      modifies this`resting, this`fillN, tradeBuf
      ensures ok <==> old(fillN) < STAGE_CAP
      ensures ok ==>
                && fillN == old(fillN) + 1
                && tradeBuf[..] == old(tradeBuf[..])[old(fillN) := StageTrade(curSeq, price, qty, maker, taker)]
                && resting == PackedFill(old(resting), Fill(maker, price, qty))
    {
      hide UnpackPrice, UnpackSide, UnpackResidual, Pack;
      if fillN >= tradeBuf.Length {
        return false;
      }
      tradeBuf[fillN] := StageTrade(curSeq, price, qty, maker, taker);
      fillN := fillN + 1;
      var v := if maker in resting then resting[maker] else ABSENT;
      if v != ABSENT {
        var rem := UnpackResidual(v) - qty;
        if rem > 0 {
          resting := resting[maker := Pack(UnpackPrice(v), UnpackSide(v), rem)];
        } else {
          resting := resting - {maker};
        }
      }
      ok := true;
    }

    /** The engine matches an order, calling back once per fill in match order. */
    method Process(o: Order, ioc: bool) returns (left: nat, ok: bool)
      requires Valid() && fillN == 0
      modifies this`engine, this`resting, this`fillN, tradeBuf
      ensures var e := Enter(old(engine), o, ioc);
              && left == e.left && (ok <==> |e.fills| <= STAGE_CAP)
              && (ok ==>
                    && engine == e.book && resting == PackedFills(old(resting), e.fills)
                    && fillN == |e.fills| && Holds(tradeBuf[..], curSeq, o.id, e.fills, fillN))
    {
      hide Match, PackedFill;
      var m := Match(engine, o.side, o.price, o.qty);
      left := m.left;
      assert m.fills[0..] == m.fills;
      var k := 0;
      while k < |m.fills|
        invariant k <= |m.fills| && fillN == k <= STAGE_CAP && engine == old(engine)
        invariant PackedFills(resting, m.fills[k..]) == PackedFills(old(resting), m.fills)
        invariant Holds(tradeBuf[..], curSeq, o.id, m.fills, k)
      {
        var f := m.fills[k];
        assert m.fills[k..][0] == f && m.fills[k..][1..] == m.fills[k + 1..];
        ok := OnFill(f.maker, o.id, f.price, f.qty);
        if !ok {
          return;
        }
        k := k + 1;
      }
      engine := if m.left > 0 && !ioc then m.book + [o.(qty := m.left)] else m.book;
      ok := true;
    }

    method OnNew(orderId: nat, seqno: nat, price: int, qty: nat, side: Side, ioc: bool) returns (n: nat, ok: bool)
      requires Valid()
      modifies this`engine, this`resting, this`fillN, this`curSeq, tradeBuf
      ensures var o := Order(orderId, side, price, qty);
              var fills := Enter(old(engine), o, ioc).fills;
              && (ok <==> |fills| <= STAGE_CAP)
              && (ok ==> Now() == Entered(old(Now()), o, ioc) && n == |fills|
                         && Holds(tradeBuf[..], seqno, orderId, fills, n))
    {
      hide Enter, PackedFills, Pack;
      fillN, curSeq, n := 0, seqno, 0;
      var residual;
      residual, ok := Process(Order(orderId, side, price, qty), ioc);
      if !ok {
        return;
      }
      if !ioc && residual > 0 {
        resting := resting[orderId := Pack(price, side, residual)];
      }
      n := fillN;
    }

    /** The engine drops the order from its level at the given price and side; answers
        whether an entry was there. */
    method RemoveFromBook(orderId: nat, price: int, side: Side) returns (removed: bool)
      modifies this`engine
      ensures engine == Without(old(engine), orderId, price, side)
      ensures removed <==> |engine| < |old(engine)|
    {
      var kept: seq<Order> := [];
      removed := false;
      var k := 0;
      while k < |engine|
        invariant k <= |engine| && engine == old(engine)
        invariant kept == Without(engine[..k], orderId, price, side)
        invariant |kept| <= k && (removed <==> |kept| < k)
      {
        var o := engine[k];
        assert engine[..k + 1][..k] == engine[..k];
        if o.id == orderId && o.price == price && o.side == side {
          removed := true;
        } else {
          kept := kept + [o];
        }
        k := k + 1;
      }
      assert engine[..k] == engine;
      engine := kept;
    }

    /** CANCEL: the shadow supplies price and side for the engine's removal; none when the shadow
        has no entry, or the level had none. */
    method OnCancel(orderId: nat) returns (r: Option<Rest>)
      modifies this`engine, this`resting
      ensures Now() == Dropped(old(Now()), orderId)
      ensures r == if |engine| == |old(engine)| then None else Shadowed(old(Now()), orderId)
    {
      hide UnpackPrice, UnpackSide, UnpackResidual, Without;
      var v := if orderId in resting then resting[orderId] else ABSENT;
      if v == ABSENT {
        return None;
      }
      var removed := RemoveFromBook(orderId, UnpackPrice(v), UnpackSide(v));
      WithoutShrinks(old(engine), orderId, UnpackPrice(v), UnpackSide(v));
      resting := resting - {orderId};
      if !removed {
        return None;
      }
      r := Some(Unpacked(v));
    }

    /** MODIFY: cancel and reinsert, whether or not the level had the order; none when the shadow
        has no entry. */
    method OnModify(orderId: nat, seqno: nat, price: int, qty: nat, side: Side) returns (n: Option<nat>, ok: bool)
      requires Valid()
      modifies this`engine, this`resting, this`fillN, this`curSeq, tradeBuf
      ensures var d := Dropped(old(Now()), orderId);
              var o := Order(orderId, side, price, qty);
              var fills := Enter(d.engine, o, false).fills;
              if Shadowed(old(Now()), orderId).None? then ok && n == None && Now() == old(Now())
              else
                && (ok <==> |fills| <= STAGE_CAP)
                && (ok ==> Now() == Entered(d, o, false) && n == Some(|fills|)
                           && Holds(tradeBuf[..], seqno, orderId, fills, |fills|))
    {
      hide UnpackPrice, UnpackSide, UnpackResidual, Without, Enter, Entered;
      var v := if orderId in resting then resting[orderId] else ABSENT;
      if v == ABSENT {
        return None, true;
      }
      var _ := RemoveFromBook(orderId, UnpackPrice(v), UnpackSide(v));
      resting := resting - {orderId};
      var k;
      k, ok := OnNew(orderId, seqno, price, qty, side, false);
      n := Some(k);
    }

    // ----- the reports above the engine -----------------------------------------------------------

    method OnNewOrder(m: Msg) returns (ok: bool)
      requires Valid() && m.New?
      modifies this, tradeBuf
      ensures var t := Move(old(Now()), m);
              && (ok <==> StagedFills(t.event) <= STAGE_CAP)
              && (ok ==> Now() == t.state && reports == old(reports) + Worded(LIQUIBOOK, t.event))
    {
      hide Enter, Entered, Traded, Trades;
      ghost var o := Order(m.id, m.side, m.price, m.qty);
      ghost var e := Enter(engine, o, m.ioc);
      EnterFilled(engine, o, m.ioc);
      reports := reports + [Ack(ORDER_ACK, m.seqno, m.id, m.side.Code(), m.price, m.qty)];
      var n;
      n, ok := OnNew(m.id, m.seqno, m.price, m.qty, m.side, m.ioc);
      if !ok {
        return;
      }
      var filled;
      reports, filled := EmitStagedTrades(tradeBuf, n, reports, m.seqno, o, e.fills);
      if m.ioc && filled < m.qty {
        reports := reports + [Ack(CANCEL_ACK, m.seqno, m.id, m.side.Code(), m.price, m.qty - filled)];
      }
    }

    method OnCancelMsg(m: Msg)
      requires m.Cancel?
      modifies this
      ensures var t := Move(old(Now()), m);
              Now() == t.state && reports == old(reports) + Worded(LIQUIBOOK, t.event)
    {
      hide Dropped, Shadowed;
      ShadowedOrSame(Now(), m.id);
      var r := OnCancel(m.id);
      match r
      case Some(h) =>
        reports := reports + [Ack(CANCEL_ACK, m.seqno, m.id, h.side.Code(), h.price, 0)];
      case None =>
        reports := reports + [Ack(CANCEL_REJECT, m.seqno, m.id, 0, 0, 0)];
    }

    /** The ModifyAck follows the trades. */
    method OnModifyMsg(m: Msg) returns (ok: bool)
      requires Valid() && m.Modify?
      modifies this, tradeBuf
      ensures var t := Move(old(Now()), m);
              && (ok <==> StagedFills(t.event) <= STAGE_CAP)
              && (ok ==> Now() == t.state && reports == old(reports) + Worded(LIQUIBOOK, t.event))
    {
      hide Enter, Entered, Traded, Trades, Dropped, Shadowed;
      ghost var o := Order(m.id, m.side, m.price, m.qty);
      ghost var e := Enter(Dropped(Now(), m.id).engine, o, false);
      var n;
      n, ok := OnModify(m.id, m.seqno, m.price, m.qty, m.side);
      if !ok {
        return;
      }
      match n
      case None =>
        reports := reports + [Ack(MODIFY_REJECT, m.seqno, m.id, 0, 0, 0)];
      case Some(k) =>
        var filled;
        reports, filled := EmitStagedTrades(tradeBuf, k, reports, m.seqno, o, e.fills);
        reports := reports + [Ack(MODIFY_ACK, m.seqno, m.id, m.side.Code(), m.price, m.qty)];
    }

    method OnMessage(m: Msg) returns (ok: bool)
      requires Valid()
      modifies this, tradeBuf
      ensures var t := Move(old(Now()), m);
              && (ok <==> StagedFills(t.event) <= STAGE_CAP)
              && (ok ==> Now() == t.state && reports == old(reports) + Worded(LIQUIBOOK, t.event))
    {
      hide Enter, Entered, Dropped, Shadowed, Worded;
      ok := true;
      match m
      case New(_, _, _, _, _, _) => ok := OnNewOrder(m);
      case Cancel(_, _) => OnCancelMsg(m);
      case Modify(_, _, _, _, _) => ok := OnModifyMsg(m);
    }

    /** A whole run of any messages: what the adapter does, message by message; it ends normally if
        and only if every message's fills fit the staging buffer. */
    method Deliver(msgs: seq<Msg>) returns (ok: bool)
      requires Valid() && Now() == State([], map[]) && reports == []
      modifies this, tradeBuf
      ensures ok <==> forall k | 0 <= k < |msgs| :: StagedFills(Moves(msgs).events[k]) <= STAGE_CAP
      ensures ok ==> Now() == Moves(msgs).state && reports == Stream(LIQUIBOOK, Moves(msgs).events)
    {
      hide Move, Moves, Stream, Worded, StagedFills;
      NothingMoved(msgs);
      var k := 0;
      while k < |msgs|
        invariant k <= |msgs| && Now() == Moves(msgs[..k]).state
        invariant forall j | 0 <= j < k :: StagedFills(Moves(msgs).events[j]) <= STAGE_CAP
        invariant reports == Stream(LIQUIBOOK, Moves(msgs[..k]).events)
      {
        MovesNext(msgs, k);
        MovesAt(msgs, k);
        ok := OnMessage(msgs[k]);
        if !ok {
          return;
        }
        k := k + 1;
      }
      assert msgs[..k] == msgs;
      ok := true;
    }
  }

  // ----- reports fit the wire, lost orders or not ----------------------------------------------------

  /** Every order and every packed price is within the wire widths. */
  ghost predicate WireState(s: State) {
    WireBook(s.engine) && AllPacked(s.resting)
  }

  lemma {:induction false} WithoutWire(b: seq<Order>, id: nat, price: int, side: Side)
    requires WireBook(b)
    ensures WireBook(Without(b, id, price, side))
  {
    if b != [] {
      WithoutWire(b[..|b| - 1], id, price, side);
    }
  }

  lemma EnteredWire(s: State, o: Order, ioc: bool)
    requires WireState(s) && WireOrder(o)
    ensures WireState(Entered(s, o, ioc))
    ensures WireFills(Enter(s.engine, o, ioc).fills) && Enter(s.engine, o, ioc).left < TWO_32
  {
    hide Match, AllPacked, View, Pack, PackedFills, ApplyFills;
    var e := Enter(s.engine, o, ioc);
    MatchWire(s.engine, o.side, o.price, o.qty);
    PackedFillsRefine(s.resting, e.fills);
    if !ioc && e.left > 0 {
      PackedPut(PackedFills(s.resting, e.fills), o.id, o.price, o.side, e.left);
    }
  }

  lemma DroppedWire(s: State, id: nat)
    requires WireState(s)
    ensures WireState(Dropped(s, id))
    ensures var h := Shadowed(s, id); h.Some? ==> WireOrder(Order(0, h.value.side, h.value.price, h.value.qty))
  {
    hide Without, WireBook, UnpackPrice, UnpackSide, UnpackResidual;
    var h := Shadowed(s, id);
    if h.Some? {
      WithoutWire(s.engine, id, h.value.price, h.value.side);
      PackedStays(s.resting, id);
      assert RestFits(Unpacked(s.resting[id]));
    }
  }

  lemma MoveWire(s: State, m: Msg)
    requires WireState(s) && WireMsg(m)
    ensures WireState(Move(s, m).state) && WireEvent(Move(s, m).event)
  {
    hide WireState, Enter, Entered, Dropped, Shadowed, WireFills;
    match m
    case New(id, _, price, qty, side, ioc) => EnteredWire(s, Order(id, side, price, qty), ioc);
    case Cancel(id, _) => DroppedWire(s, id);
    case Modify(id, _, price, qty, side) =>
      DroppedWire(s, id);
      EnteredWire(Dropped(s, id), Order(id, side, price, qty), false);
  }

  lemma {:induction false} MovesRanged(msgs: seq<Msg>)
    requires forall k | 0 <= k < |msgs| :: WireMsg(msgs[k])
    ensures WireState(Moves(msgs).state) && AllRanged(Stream(LIQUIBOOK, Moves(msgs).events))
  {
    hide Move, Worded, WireMsg;
    if msgs != [] {
      var n := |msgs| - 1;
      MovesRanged(msgs[..n]);
      assert msgs[..n + 1] == msgs;
      MovesNext(msgs, n);
      MoveWire(Moves(msgs[..n]).state, msgs[n]);
      WordedRanged(LIQUIBOOK, Move(Moves(msgs[..n]).state, msgs[n]).event);
    }
  }

  lemma NothingMoved(msgs: seq<Msg>)
    ensures Moves(msgs[..0]) == Result(State([], map[]), []) && Stream(LIQUIBOOK, []) == []
  {}

  lemma {:induction false} MovesAt(msgs: seq<Msg>, k: nat)
    requires k < |msgs|
    ensures Moves(msgs).events[k] == Move(Moves(msgs[..k]).state, msgs[k]).event
  {
    hide Move;
    if k < |msgs| - 1 {
      MovesAt(msgs[..|msgs| - 1], k);
      assert msgs[..|msgs| - 1][..k] == msgs[..k];
    }
  }

  lemma {:induction false} WithoutShrinks(b: seq<Order>, id: nat, price: int, side: Side)
    ensures |Without(b, id, price, side)| <= |b|
  {
    if b != [] {
      WithoutShrinks(b[..|b| - 1], id, price, side);
    }
  }

  lemma ShadowedOrSame(s: State, id: nat)
    ensures Shadowed(s, id).None? ==> Dropped(s, id) == s
  {}
}
