/** The hand-off of reports from the matcher thread to the drainer thread over a bounded queue,
    as a state machine: a schedule is any interleaving of the two threads' steps. */
module Drain {
  import opened Basics
  import opened Reports

  const DRAIN_BATCH: nat := 256

  /** Where the drainer thread is: about to load `running`; about to poll; consuming a batch it
      has popped; about to poll after having seen `running` false; finished. */
  datatype Drainer =
    | Checking
    | Polling
    | Consuming(batch: seq<Report>, closing: bool)
    | ClosingPoll
    | Finished

  datatype Tally = Tally(orderAcks: nat, trades: nat, cancelAcks: nat, modifyAcks: nat,
                         cancelRejects: nat, modifyRejects: nat)

  datatype State = State(pushed: nat, queue: seq<Report>, running: bool, drainer: Drainer,
                         collected: seq<Report>, tally: Tally)

  /** One step of one thread. The matcher pushes its next report, or finds the queue full and
      tries again, and clears `running` after its last report. The drainer loads `running`,
      polls, consumes one report of its batch, and polls until empty once `running` was false.
      A poll beside a running matcher may see only part of what is queued; the load of a false
      `running` makes every push visible, so a closing poll sees the whole queue. */
  datatype Action = Push | PushFails | Stop | Load | Poll(n: nat) | Consume | PollClosing

  function Start(): State {
    State(0, [], true, Checking, [], Tally(0, 0, 0, 0, 0, 0))
  }

  predicate Enabled(all: seq<Report>, capacity: nat, s: State, a: Action) {
    match a
    case Push => s.pushed < |all| && |s.queue| < capacity
    case PushFails => s.pushed < |all|
    case Stop => s.pushed == |all| && s.running
    case Load => s.drainer.Checking?
    case Poll(n) => s.drainer.Polling? && n <= |s.queue| && n <= DRAIN_BATCH
    case Consume => s.drainer.Consuming?
    case PollClosing => s.drainer.ClosingPoll?
  }

  function Counted(t: Tally, kind: nat): Tally {
    if kind == ORDER_ACK then t.(orderAcks := t.orderAcks + 1)
    else if kind == TRADE then t.(trades := t.trades + 1)
    else if kind == CANCEL_ACK then t.(cancelAcks := t.cancelAcks + 1)
    else if kind == MODIFY_ACK then t.(modifyAcks := t.modifyAcks + 1)
    else if kind == CANCEL_REJECT then t.(cancelRejects := t.cancelRejects + 1)
    else if kind == MODIFY_REJECT then t.(modifyRejects := t.modifyRejects + 1)
    else t
  }

  /** The drainer with a popped batch: an empty one sends it back to loading `running`, or,
      when closing, ends it. */
  function WithBatch(batch: seq<Report>, closing: bool): Drainer {
    if batch != [] then Consuming(batch, closing) else if closing then Finished else Checking
  }

  function After(all: seq<Report>, capacity: nat, s: State, a: Action): State
    requires Enabled(all, capacity, s, a)
  {
    match a
    case Push => s.(pushed := s.pushed + 1, queue := s.queue + [all[s.pushed]])
    case PushFails => s
    case Stop => s.(running := false)
    case Load => s.(drainer := if s.running then Polling else ClosingPoll)
    case Poll(n) => s.(queue := s.queue[n..], drainer := WithBatch(s.queue[..n], false))
    case Consume =>
      if s.drainer.batch == [] then s.(drainer := if s.drainer.closing then ClosingPoll else Checking)
      else s.(collected := s.collected + [s.drainer.batch[0]],
              tally := Counted(s.tally, s.drainer.batch[0].kind),
              drainer := Consuming(s.drainer.batch[1..], s.drainer.closing))
    case PollClosing =>
      var n := Min(|s.queue|, DRAIN_BATCH);
      s.(queue := s.queue[n..], drainer := WithBatch(s.queue[..n], true))
  }

  // ----- runs ----------------------------------------------------------------------------------------

  /** Every action of the schedule is enabled when its turn comes. */
  predicate Legal(all: seq<Report>, capacity: nat, schedule: seq<Action>)
    decreases |schedule|, 0
  {
    schedule == []
    || (var before := schedule[..|schedule| - 1];
        && Legal(all, capacity, before)
        && Enabled(all, capacity, Reached(all, capacity, before), schedule[|schedule| - 1]))
  }

  function Reached(all: seq<Report>, capacity: nat, schedule: seq<Action>): State
    requires Legal(all, capacity, schedule)
    decreases |schedule|, 1
  {
    if schedule == [] then Start()
    else
      var before := schedule[..|schedule| - 1];
      After(all, capacity, Reached(all, capacity, before), schedule[|schedule| - 1])
  }

  function Count(reports: seq<Report>, kind: nat): nat {
    if reports == [] then 0
    else Count(reports[..|reports| - 1], kind) + if reports[|reports| - 1].kind == kind then 1 else 0
  }

  /** Every counter is the number of collected reports of its type. */
  ghost predicate Tallied(t: Tally, collected: seq<Report>) {
    t == Tally(Count(collected, ORDER_ACK), Count(collected, TRADE), Count(collected, CANCEL_ACK),
               Count(collected, MODIFY_ACK), Count(collected, CANCEL_REJECT), Count(collected, MODIFY_REJECT))
  }

  function InHand(d: Drainer): seq<Report> {
    if d.Consuming? then d.batch else []
  }

  /** The drainer has seen `running` false. */
  predicate Closing(d: Drainer) {
    d.ClosingPoll? || d.Finished? || (d.Consuming? && d.closing)
  }

  /** What is collected, in hand and queued is, in this order, what was pushed. */
  ghost predicate Inv(all: seq<Report>, capacity: nat, s: State) {
    && s.pushed <= |all| && |s.queue| <= capacity && |InHand(s.drainer)| <= DRAIN_BATCH
    && s.collected + InHand(s.drainer) + s.queue == all[..s.pushed]
    && Tallied(s.tally, s.collected)
    && (!s.running ==> s.pushed == |all|)
    && (Closing(s.drainer) ==> !s.running)
    && (s.drainer.Finished? ==> s.queue == [])
  }

  lemma TalliedNext(t: Tally, collected: seq<Report>, r: Report)
    requires Tallied(t, collected)
    ensures Tallied(Counted(t, r.kind), collected + [r])
  {}

  lemma PollsKeepInv(all: seq<Report>, capacity: nat, s: State, a: Action)
    requires Inv(all, capacity, s) && Enabled(all, capacity, s, a) && (a.Poll? || a.PollClosing?)
    ensures Inv(all, capacity, After(all, capacity, s, a))
  {}

  lemma ConsumeKeepsInv(all: seq<Report>, capacity: nat, s: State)
    requires Inv(all, capacity, s) && s.drainer.Consuming?
    ensures Inv(all, capacity, After(all, capacity, s, Consume))
  {
    hide Tallied, Counted, Count;
    if s.drainer.batch != [] {
      TalliedNext(s.tally, s.collected, s.drainer.batch[0]);
      assert s.collected + s.drainer.batch == s.collected + [s.drainer.batch[0]] + s.drainer.batch[1..];
    }
  }

  lemma StepKeepsInv(all: seq<Report>, capacity: nat, s: State, a: Action)
    requires Inv(all, capacity, s) && Enabled(all, capacity, s, a)
    ensures Inv(all, capacity, After(all, capacity, s, a))
  {
    hide Tallied, Counted, Count;
    match a
    case Push => assert s.collected + InHand(s.drainer) + s.queue + [all[s.pushed]] == all[..s.pushed + 1];
    case Poll(_) => PollsKeepInv(all, capacity, s, a);
    case Consume => ConsumeKeepsInv(all, capacity, s);
    case PollClosing => PollsKeepInv(all, capacity, s, a);
    case _ =>
  }

  lemma {:induction false} RunKeepsInv(all: seq<Report>, capacity: nat, schedule: seq<Action>)
    requires Legal(all, capacity, schedule)
    ensures Inv(all, capacity, Reached(all, capacity, schedule))
  {
    hide Inv, After, Enabled;
    if schedule == [] {
      StartInv(all, capacity);
    } else {
      var before := schedule[..|schedule| - 1];
      RunKeepsInv(all, capacity, before);
      StepKeepsInv(all, capacity, Reached(all, capacity, before), schedule[|schedule| - 1]);
    }
  }

  lemma StartInv(all: seq<Report>, capacity: nat)
    ensures Inv(all, capacity, Start())
  {}

  /** After the drainer has been joined, whatever the interleaving was, the collected reports
      are exactly the pushed ones, in order, and every tally is its type's count. */
  lemma NothingLost(all: seq<Report>, capacity: nat, schedule: seq<Action>)
    requires Legal(all, capacity, schedule) && Reached(all, capacity, schedule).drainer.Finished?
    ensures var s := Reached(all, capacity, schedule);
            s.collected == all && Tallied(s.tally, all)
  {
    RunKeepsInv(all, capacity, schedule);
    var s := Reached(all, capacity, schedule);
    assert s.collected + InHand(s.drainer) + s.queue == s.collected;
    assert all[..s.pushed] == all;
  }

  /** At no time, in no interleaving, is anything collected that was not pushed, or out of order. */
  lemma AlwaysAPrefix(all: seq<Report>, capacity: nat, schedule: seq<Action>)
    requires Legal(all, capacity, schedule)
    ensures Reached(all, capacity, schedule).collected <= all
  {
    hide Tallied;
    RunKeepsInv(all, capacity, schedule);
    var s := Reached(all, capacity, schedule);
    assert s.collected == all[..s.pushed][..|s.collected|] == all[..|s.collected|];
  }

  // ----- the hand-off cannot get stuck ------------------------------------------------------------------

  function Rank(d: Drainer, running: bool): nat {
    match d
    case Checking => 3
    case Polling => if running then 2 else 4
    case Consuming(_, closing) => if closing then 2 else 4
    case ClosingPoll => 1
    case Finished => 0
  }

  /** Work left: reports not pushed, queued, and in hand, the flag, and the drainer's place. */
  function Work(all: seq<Report>, s: State): nat {
    6 * (if s.pushed <= |all| then |all| - s.pushed else 0) + 5 * |s.queue| + 2 * |InHand(s.drainer)|
      + (if s.running then 4 else 0)
    + Rank(s.drainer, s.running)
  }

  /** A step that brings the hand-off nearer to its end. */
  function Next(all: seq<Report>, s: State): Action {
    match s.drainer
    case Consuming(_, _) => Consume
    case ClosingPoll => PollClosing
    case Polling =>
      if s.queue != [] then Poll(Min(|s.queue|, DRAIN_BATCH))
      else if s.pushed < |all| then Push
      else if s.running then Stop
      else Poll(0)
    case _ =>
      if s.queue != [] then Load
      else if s.pushed < |all| then Push
      else if s.running then Stop
      else Load
  }

  /** In every state of every interleaving that has not ended, some thread can take a step that
      leaves less work. */
  lemma NeverStuck(all: seq<Report>, capacity: nat, schedule: seq<Action>)
    requires Legal(all, capacity, schedule) && capacity > 0
    requires !Reached(all, capacity, schedule).drainer.Finished?
    ensures var s := Reached(all, capacity, schedule);
            && Inv(all, capacity, s) && Enabled(all, capacity, s, Next(all, s))
            && Work(all, After(all, capacity, s, Next(all, s))) < Work(all, s)
  {
    hide After, Enabled, Next, Inv;
    RunKeepsInv(all, capacity, schedule);
    NextDropsWork(all, capacity, Reached(all, capacity, schedule));
  }

  lemma NextDropsWork(all: seq<Report>, capacity: nat, s: State)
    requires capacity > 0 && Inv(all, capacity, s) && !s.drainer.Finished?
    ensures Enabled(all, capacity, s, Next(all, s))
    ensures Work(all, After(all, capacity, s, Next(all, s))) < Work(all, s)
  {}

  lemma LegalNext(all: seq<Report>, capacity: nat, schedule: seq<Action>, a: Action)
    requires Legal(all, capacity, schedule) && Enabled(all, capacity, Reached(all, capacity, schedule), a)
    ensures Legal(all, capacity, schedule + [a])
    ensures Reached(all, capacity, schedule + [a]) == After(all, capacity, Reached(all, capacity, schedule), a)
  {
    hide After, Enabled;
    assert (schedule + [a])[..|schedule|] == schedule;
  }

  /** From every reachable state the hand-off can be brought to its end, in no more steps than there
      is work left, and then everything pushed has been collected. */
  lemma {:induction false} CanFinish(all: seq<Report>, capacity: nat, schedule: seq<Action>) returns (more: seq<Action>)
    requires Legal(all, capacity, schedule) && capacity > 0
    ensures Legal(all, capacity, schedule + more) && Reached(all, capacity, schedule + more).drainer.Finished?
    ensures Reached(all, capacity, schedule + more).collected == all
    ensures |more| <= Work(all, Reached(all, capacity, schedule))
    decreases Work(all, Reached(all, capacity, schedule))
  {
    hide After, Enabled, Next, Inv, Tallied, Work;
    var s := Reached(all, capacity, schedule);
    if s.drainer.Finished? {
      more := [];
      assert schedule + more == schedule;
      NothingLost(all, capacity, schedule);
    } else {
      var a := Next(all, s);
      NeverStuck(all, capacity, schedule);
      LegalNext(all, capacity, schedule, a);
      var rest := CanFinish(all, capacity, schedule + [a]);
      more := [a] + rest;
      assert schedule + more == schedule + [a] + rest;
    }
  }

  /** Once the matcher has stopped, every step leaves less work, whichever it is: polls that
      return nothing no longer repeat. */
  lemma StoppedStepDrops(all: seq<Report>, capacity: nat, s: State, a: Action)
    requires Inv(all, capacity, s) && !s.running && Enabled(all, capacity, s, a)
    ensures var t := After(all, capacity, s, a); !t.running && Work(all, t) < Work(all, s)
  {}

  /** So after the matcher has stopped no schedule is longer than the work left then. */
  lemma {:induction false} StoppedEnds(all: seq<Report>, capacity: nat, schedule: seq<Action>, more: seq<Action>)
    requires Legal(all, capacity, schedule) && !Reached(all, capacity, schedule).running
    requires Legal(all, capacity, schedule + more)
    ensures !Reached(all, capacity, schedule + more).running
    ensures |more| + Work(all, Reached(all, capacity, schedule + more)) <= Work(all, Reached(all, capacity, schedule))
  {
    hide After, Enabled, Work, Inv;
    if more == [] {
      assert schedule + more == schedule;
    } else {
      var n := |more| - 1;
      assert (schedule + more)[..|schedule + more| - 1] == schedule + more[..n];
      StoppedEnds(all, capacity, schedule, more[..n]);
      RunKeepsInv(all, capacity, schedule + more[..n]);
      StoppedStepDrops(all, capacity, Reached(all, capacity, schedule + more[..n]), more[n]);
    }
  }

  // ----- the drainer's own loops ---------------------------------------------------------------------------

  class DrainState {
    var collected: seq<Report>
    var tally: Tally

    ghost predicate Valid()
      reads this
    {
      Tallied(tally, collected)
    }

    constructor ()
      ensures Valid() && collected == []
    {
      collected, tally := [], Tally(0, 0, 0, 0, 0, 0);
    }

    /** consume: copies a popped batch out, report by report, and counts each by type. */
    method Consume(batch: seq<Report>)
      requires Valid()
      modifies this
      ensures Valid() && collected == old(collected) + batch
    {
      hide Tallied, Counted;
      var i := 0;
      while i < |batch|
        invariant i <= |batch| && Valid() && collected == old(collected) + batch[..i]
      {
        TalliedNext(tally, collected, batch[i]);
        collected, tally := collected + [batch[i]], Counted(tally, batch[i].kind);
        i := i + 1;
      }
    }

    /** The drain-until-empty after `running` was seen false. */
    method DrainRest(queued: seq<Report>)
      requires Valid()
      modifies this
      ensures Valid() && collected == old(collected) + queued
    {
      var queue := queued;
      var n := Min(|queue|, DRAIN_BATCH);
      while n > 0
        invariant n == Min(|queue|, DRAIN_BATCH)
        invariant Valid() && collected + queue == old(collected) + queued
        decreases |queue|
      {
        assert queue[..n] + queue[n..] == queue;
        Consume(queue[..n]);
        queue := queue[n..];
        n := Min(|queue|, DRAIN_BATCH);
      }
    }
  }
}
