/** The harness's dispatch of a workload into an engine: one message at a time, or in batches
    that end exactly at the indices picked for a book-state probe. */
module Delivery {
  import opened Basics
  import opened Contract
  import opened Reports
  import opened MatchingLaws

  /** A workload record; a cancel carries a price, quantity and side too. */
  datatype Record = Record(kind: nat, id: nat, seqno: nat, price: int, qty: nat, side: Side, ioc: bool)

  /** The engine's form of a record: 0 is a new order, 1 a cancel, anything else a modify. */
  function Prepared(r: Record): Msg {
    if r.kind == 0 then New(r.id, r.seqno, r.price, r.qty, r.side, r.ioc)
    else if r.kind == 1 then Cancel(r.id, r.seqno)
    else Modify(r.id, r.seqno, r.price, r.qty, r.side)
  }

  function PrepareAll(w: seq<Record>): (msgs: seq<Msg>)
    ensures |msgs| == |w|
  {
    if w == [] then [] else PrepareAll(w[..|w| - 1]) + [Prepared(w[|w| - 1])]
  }

  lemma {:induction false} PreparedAt(w: seq<Record>, i: nat)
    requires i < |w|
    ensures PrepareAll(w)[i] == Prepared(w[i])
  {
    if i < |w| - 1 {
      PreparedAt(w[..|w| - 1], i);
    }
  }

  /** What an engine sees of the harness. */
  datatype Call = Delivered(m: Msg) | Probed(index: nat)

  datatype Snapshot = Snapshot(index: nat, bestBid: int, bestAsk: int, price: int, side: Side, depth: nat)

  /** The answers the contract asks for when the book `b` is probed after record `i`. */
  function Answer(b: seq<Order>, i: nat, r: Record): Snapshot {
    Snapshot(i, BestBidAnswer(b), BestAskAnswer(b), r.price, r.side, Depth(b, r.side, r.price))
  }

  /** The book after the first `n` records. */
  function BookAfter(w: seq<Record>, n: nat): seq<Order>
    requires n <= |w|
  {
    Run([], PrepareAll(w)[..n]).book
  }

  /** The engine's message carries the record's fields: all of a new order's, a cancel's id and
      number, all but the flag of a modify's. */
  ghost predicate Carries(m: Msg, r: Record) {
    && m.id == r.id && m.seqno == r.seqno
    && match r.kind
       case 0 => m.New? && m.price == r.price && m.qty == r.qty && m.side == r.side && m.ioc == r.ioc
       case 1 => m.Cancel?
       case _ => m.Modify? && m.price == r.price && m.qty == r.qty && m.side == r.side
  }

  /** The messages of a call sequence, without the probes. */
  function MessagesOf(calls: seq<Call>): seq<Msg> {
    if calls == [] then []
    else
      var last := calls[|calls| - 1];
      MessagesOf(calls[..|calls| - 1]) + (if last.Delivered? then [last.m] else [])
  }

  /** The engine was handed the records, each once and in order. */
  ghost predicate HandedAll(calls: seq<Call>, w: seq<Record>) {
    |MessagesOf(calls)| == |w| && forall k | 0 <= k < |w| :: Carries(MessagesOf(calls)[k], w[k])
  }

  lemma MessagesOne(calls: seq<Call>, c: Call)
    ensures MessagesOf(calls + [c]) == MessagesOf(calls) + (if c.Delivered? then [c.m] else [])
  {}

  lemma {:induction false} TraceHandsAll(w: seq<Record>, picks: seq<nat>, n: nat)
    requires n <= |w|
    ensures |MessagesOf(Trace(w, picks, n))| == n
    ensures forall k | 0 <= k < n :: Carries(MessagesOf(Trace(w, picks, n))[k], w[k])
  {
    hide MessagesOf, Carries, Prepared;
    if n == 0 {
      NoMessages();
    } else {
      TraceHandsAll(w, picks, n - 1);
      var before, call := Trace(w, picks, n - 1), Delivered(Prepared(w[n - 1]));
      MessagesOne(before, call);
      MessagesOne(before + [call], Probed(n - 1));
      assert Trace(w, picks, n) == if n - 1 in picks then before + [call] + [Probed(n - 1)] else before + [call];
      PreparedCarries(w[n - 1]);
    }
  }

  lemma HandedAtEnd(w: seq<Record>, picks: seq<nat>)
    ensures HandedAll(Trace(w, picks, |w|), w)
  {
    TraceHandsAll(w, picks, |w|);
  }

  lemma PreparedCarries(r: Record)
    ensures Carries(Prepared(r), r)
  {}

  lemma NoMessages()
    ensures MessagesOf([]) == []
  {}

  /** What the records do to the book, in their own fields. */
  lemma BookFollowsRecords(w: seq<Record>, k: nat)
    requires k < |w|
    ensures var r, b := w[k], BookAfter(w, k);
            var at := Find(b, r.id);
            var o := Order(r.id, r.side, r.price, r.qty);
            BookAfter(w, k + 1)
            == match r.kind
               case 0 => Enter(b, o, r.ioc).book
               case 1 => if at.None? then b else RemoveAt(b, at.value)
               case _ => if at.None? then b else Enter(RemoveAt(b, at.value), o, false).book
  {
    hide Enter, Find, Run, PrepareAll;
    PreparedAt(w, k);
    RunPrefix([], PrepareAll(w), k);
  }

  /** An immediate-or-cancel record never rests. */
  lemma IocRecordIsGone(w: seq<Record>, k: nat)
    requires AdmissibleRun([], PrepareAll(w)) && k < |w| && w[k].kind == 0 && w[k].ioc
    ensures !Resting(BookAfter(w, k + 1), w[k].id)
  {
    hide Run, Resting, AdmissibleRun, PrepareAll;
    PreparedAt(w, k);
    IocIsGone(PrepareAll(w), k);
  }

  lemma IocIsGone(msgs: seq<Msg>, k: nat)
    requires AdmissibleRun([], msgs) && k < |msgs| && msgs[k].New? && msgs[k].ioc
    ensures !Resting(Run([], msgs[..k + 1]).book, msgs[k].id)
  {
    hide Run, Resting, AdmissibleRun, WellFormed, Uncrossed;
    EmptyBook();
    RunKeeps([], msgs, k + 1);
  }

  // ----- what delivery promises ------------------------------------------------------------------

  ghost predicate StrictlyIncreasing(s: seq<nat>) {
    forall j, k | 0 <= j < k < |s| :: s[j] < s[k]
  }

  /** The probe indices: strictly increasing and within the workload. */
  ghost predicate Picked(picks: seq<nat>, count: nat) {
    StrictlyIncreasing(picks) && forall k | 0 <= k < |picks| :: picks[k] < count
  }

  /** The call sequence for the first `n` records: each record once, in order, and a probe
      directly behind every picked one. */
  ghost function Trace(w: seq<Record>, picks: seq<nat>, n: nat): seq<Call>
    requires n <= |w|
  {
    if n == 0 then []
    else Trace(w, picks, n - 1) + [Delivered(Prepared(w[n - 1]))] + (if n - 1 in picks then [Probed(n - 1)] else [])
  }

  /** The snapshot a contract-keeping engine gives after record `i`. */
  ghost function SnapshotAt(w: seq<Record>, i: nat): Snapshot
    requires i < |w|
  {
    Answer(BookAfter(w, i + 1), i, w[i])
  }

  ghost function Snapshots(w: seq<Record>, picks: seq<nat>): (s: seq<Snapshot>)
    requires forall k | 0 <= k < |picks| :: picks[k] < |w|
    ensures |s| == |picks| && forall k | 0 <= k < |picks| :: s[k] == SnapshotAt(w, picks[k])
  {
    seq(|picks|, k requires 0 <= k < |picks| => SnapshotAt(w, picks[k]))
  }

  lemma {:induction false} RunFurther(msgs: seq<Msg>, i: nat, j: nat)
    requires i <= j <= |msgs|
    ensures Run(Run([], msgs[..i]).book, msgs[i..j]).book == Run([], msgs[..j]).book
  {
    hide Step;
    if i < j {
      RunFurther(msgs, i, j - 1);
      assert msgs[i..j][..j - i - 1] == msgs[i..j - 1];
      assert msgs[..j][..j - 1] == msgs[..j - 1];
    }
  }

  function Deliveries(msgs: seq<Msg>): seq<Call> {
    if msgs == [] then [] else Deliveries(msgs[..|msgs| - 1]) + [Delivered(msgs[|msgs| - 1])]
  }

  /** No record in [i, j) is picked. */
  ghost predicate Quiet(picks: seq<nat>, i: nat, j: nat) {
    forall k | i <= k < j :: k !in picks
  }

  /** A stretch of records without a picked one is delivered without a probe. */
  lemma {:induction false} QuietStretch(w: seq<Record>, picks: seq<nat>, i: nat, j: nat)
    requires i <= j <= |w| && Quiet(picks, i, j)
    ensures Trace(w, picks, j) == Trace(w, picks, i) + Deliveries(PrepareAll(w)[i..j])
  {
    hide PrepareAll, Prepared;
    if i < j {
      QuietStretch(w, picks, i, j - 1);
      DeliveriesNext(w, i, j - 1);
    }
  }

  lemma DeliveriesNext(w: seq<Record>, i: nat, j: nat)
    requires i <= j < |w|
    ensures Deliveries(PrepareAll(w)[i..j + 1]) == Deliveries(PrepareAll(w)[i..j]) + [Delivered(Prepared(w[j]))]
  {
    hide PrepareAll, Prepared, Deliveries;
    PreparedAt(w, j);
    DeliveriesOne(PrepareAll(w)[i..j], PrepareAll(w)[j]);
    assert PrepareAll(w)[i..j + 1] == PrepareAll(w)[i..j] + [PrepareAll(w)[j]];
  }

  lemma DeliveriesOne(msgs: seq<Msg>, m: Msg)
    ensures Deliveries(msgs + [m]) == Deliveries(msgs) + [Delivered(m)]
  {}

  /** A stretch that ends at a picked record ends with its probe. */
  lemma ProbedStretch(w: seq<Record>, picks: seq<nat>, i: nat, j: nat)
    requires i <= j < |w| && j in picks && Quiet(picks, i, j)
    ensures Trace(w, picks, j + 1) == Trace(w, picks, i) + Deliveries(PrepareAll(w)[i..j + 1]) + [Probed(j)]
  {
    hide Deliveries, PrepareAll, Prepared, Quiet;
    QuietStretch(w, picks, i, j);
    DeliveriesNext(w, i, j);
  }

  /** Nothing is picked strictly between two neighbouring picks, before the first, or after the last. */
  lemma GapIsQuiet(picks: seq<nat>, k: nat, i: nat, j: nat)
    requires StrictlyIncreasing(picks) && k <= |picks|
    requires (k > 0 ==> picks[k - 1] < i) && (k < |picks| ==> j <= picks[k])
    ensures Quiet(picks, i, j)
  {}

  /** What the batch up to probe `k` does. */
  lemma BatchToProbe(w: seq<Record>, picks: seq<nat>, k: nat, start: nat)
    requires Picked(picks, |w|) && k < |picks| && start == (if k == 0 then 0 else picks[k - 1] + 1)
    ensures start <= picks[k] < |w|
    ensures Trace(w, picks, picks[k] + 1)
         == Trace(w, picks, start) + Deliveries(PrepareAll(w)[start..picks[k] + 1]) + [Probed(picks[k])]
    ensures BookAfter(w, picks[k] + 1) == Run(BookAfter(w, start), PrepareAll(w)[start..picks[k] + 1]).book
    ensures Snapshots(w, picks)[..k + 1]
         == Snapshots(w, picks)[..k] + [Answer(BookAfter(w, picks[k] + 1), picks[k], w[picks[k]])]
  {
    hide Run, Trace, Deliveries, Prepared, PrepareAll, Answer, Quiet;
    assert k > 0 ==> picks[k - 1] < picks[k];
    GapIsQuiet(picks, k, start, picks[k]);
    ProbedStretch(w, picks, start, picks[k]);
    RunFurther(PrepareAll(w), start, picks[k] + 1);
  }

  /** What the batch behind the last probe does. */
  lemma BatchToEnd(w: seq<Record>, picks: seq<nat>, start: nat)
    requires Picked(picks, |w|) && start == (if picks == [] then 0 else picks[|picks| - 1] + 1)
    ensures start <= |w| && PrepareAll(w)[|w|..] == []
    ensures Trace(w, picks, |w|) == Trace(w, picks, start) + Deliveries(PrepareAll(w)[start..])
    ensures BookAfter(w, |w|) == Run(BookAfter(w, start), PrepareAll(w)[start..]).book
    ensures Snapshots(w, picks)[..|picks|] == Snapshots(w, picks)
  {
    hide Run, Trace, Deliveries, Prepared, PrepareAll, Answer, Quiet;
    GapIsQuiet(picks, |picks|, start, |w|);
    QuietStretch(w, picks, start, |w|);
    RunFurther(PrepareAll(w), start, |w|);
    assert PrepareAll(w)[start..] == PrepareAll(w)[start..|w|];
  }

  /** An engine that keeps the contract, and remembers how it was called. */
  class Engine {
    var book: seq<Order>
    var log: seq<Call>

    constructor ()
      ensures book == [] && log == []
    {
      book, log := [], [];
    }

    method OnMessage(m: Msg)
      modifies this
      ensures book == Step(old(book), m).book && log == old(log) + [Delivered(m)]
    {
      book := Step(book, m).book;
      log := log + [Delivered(m)];
    }

    /** engine_on_batch: the same as the messages one after another. */
    method OnBatch(msgs: seq<Msg>)
      modifies this
      ensures book == Run(old(book), msgs).book && log == old(log) + Deliveries(msgs)
    {
      hide Step;
      var k := 0;
      while k < |msgs|
        invariant k <= |msgs|
        invariant book == Run(old(book), msgs[..k]).book && log == old(log) + Deliveries(msgs[..k])
      {
        OnMessage(msgs[k]);
        assert msgs[..k + 1][..k] == msgs[..k];
        k := k + 1;
      }
      assert msgs[..k] == msgs;
    }

    /** probe: the three queries after record `i`. */
    method Probe(i: nat, r: Record) returns (s: Snapshot)
      modifies this`log
      ensures s == Answer(book, i, r) && log == old(log) + [Probed(i)]
    {
      s := Snapshot(i, BestBidAnswer(book), BestAskAnswer(book), r.price, r.side, Depth(book, r.side, r.price));
      log := log + [Probed(i)];
    }
  }

  /** Batch delivery: each batch ends at the next probe index; a tail follows the last probe.
      The batch length is passed as a 32-bit number. */
  method DeliverBatches(e: Engine, w: seq<Record>, picks: seq<nat>) returns (snaps: seq<Snapshot>)
    requires e.book == [] && Picked(picks, |w|) && |w| < TWO_32
    modifies e
    ensures e.log == old(e.log) + Trace(w, picks, |w|)
    ensures e.book == BookAfter(w, |w|) && snaps == Snapshots(w, picks)
    ensures HandedAll(e.log[|old(e.log)|..], w)
  {
    hide Step, Run, Answer, Deliveries, Trace, Snapshots, Prepared, PrepareAll, StrictlyIncreasing, HandedAll;
    HandedAtEnd(w, picks);
    var prepared := PrepareAll(w);
    var start: nat := 0;
    snaps := [];
    TraceStart(w, picks);
    var k := 0;
    while k < |picks|
      invariant k <= |picks|
      invariant start == (if k == 0 then 0 else picks[k - 1] + 1)
      invariant start <= |w| && e.log == old(e.log) + Trace(w, picks, start)
      invariant e.book == BookAfter(w, start) && snaps == Snapshots(w, picks)[..k]
    {
      hide BookAfter;
      var b := picks[k];
      BatchToProbe(w, picks, k, start);
      var n := (b - start + 1) % TWO_32;
      e.OnBatch(prepared[start..start + n]);
      var s := e.Probe(b, w[b]);
      snaps := snaps + [s];
      start := b + 1;
      k := k + 1;
    }
    BatchToEnd(w, picks, start);
    if start < |w| {
      var n := (|w| - start) % TWO_32;
      assert prepared[start..start + n] == prepared[start..];
      e.OnBatch(prepared[start..start + n]);
    }
  }

  lemma TraceStart(w: seq<Record>, picks: seq<nat>)
    ensures Trace(w, picks, 0) == [] && BookAfter(w, 0) == []
  {}

  lemma TraceNext(w: seq<Record>, picks: seq<nat>, i: nat)
    requires i < |w|
    ensures Trace(w, picks, i + 1)
         == Trace(w, picks, i) + [Delivered(Prepared(w[i]))] + (if i in picks then [Probed(i)] else [])
    ensures BookAfter(w, i + 1) == Step(BookAfter(w, i), Prepared(w[i])).book
  {
    PreparedAt(w, i);
    assert PrepareAll(w)[..i + 1][..i] == PrepareAll(w)[..i];
  }

  /** Per-message delivery with a cursor into the probe indices. */
  method DeliverOneByOne(e: Engine, w: seq<Record>, picks: seq<nat>) returns (snaps: seq<Snapshot>)
    requires e.book == [] && Picked(picks, |w|)
    modifies e
    ensures e.log == old(e.log) + Trace(w, picks, |w|)
    ensures e.book == BookAfter(w, |w|) && snaps == Snapshots(w, picks)
    ensures HandedAll(e.log[|old(e.log)|..], w)
  {
    hide Step, Run, Answer, Trace, Prepared, PrepareAll, HandedAll;
    HandedAtEnd(w, picks);
    snaps := [];
    TraceStart(w, picks);
    var prepared := PrepareAll(w);
    var auditCur := 0;
    var i := 0;
    while i < |w|
      invariant i <= |w| && auditCur <= |picks|
      invariant auditCur > 0 ==> picks[auditCur - 1] < i
      invariant auditCur < |picks| ==> i <= picks[auditCur]
      invariant e.log == old(e.log) + Trace(w, picks, i)
      invariant e.book == BookAfter(w, i) && snaps == Snapshots(w, picks)[..auditCur]
    {
      TraceNext(w, picks, i);
      PreparedAt(w, i);
      e.OnMessage(prepared[i]);
      if auditCur < |picks| && i == picks[auditCur] {
        var s := e.Probe(i, w[i]);
        snaps := snaps + [s];
        auditCur := auditCur + 1;
      } else {
        GapIsQuiet(picks, auditCur, i, i + 1);
      }
      i := i + 1;
    }
  }
}
