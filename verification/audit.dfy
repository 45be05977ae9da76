/** The random-point state audit: which indices are probed, and the replay through a baseline
    that judges the recorded answers. */
module Audit {
  import opened Basics
  import opened Contract
  import opened Reports
  import opened Delivery

  const AUDIT_POINTS: nat := 64

  // ----- picking the probe indices -----------------------------------------------------------------

  ghost function Residues(draws: seq<nat>, count: nat): set<nat>
    requires count > 0
  {
    set k | 0 <= k < |draws| :: draws[k] % count
  }

  function Elements(s: seq<nat>): (e: set<nat>)
    ensures forall x :: x in e <==> x in s
  {
    set x | x in s
  }

  lemma ResiduesNext(draws: seq<nat>, count: nat, k: nat)
    requires count > 0 && k < |draws|
    ensures Residues(draws[..k + 1], count) == Residues(draws[..k], count) + {draws[k] % count}
    ensures Residues(draws[..k], count) <= Residues(draws, count)
    ensures Residues(draws[..|draws|], count) == Residues(draws, count)
  {
    assert draws[..|draws|] == draws;
    forall x | x in Residues(draws[..k], count)
      ensures x in Residues(draws, count) && x in Residues(draws[..k + 1], count)
    {
      var j :| 0 <= j < k && draws[..k][j] % count == x;
      assert draws[j] % count == x && draws[..k + 1][j] % count == x;
    }
    assert draws[..k + 1][k] % count == draws[k] % count;
    forall x | x in Residues(draws[..k + 1], count)
      ensures x in Residues(draws[..k], count) + {draws[k] % count}
    {
      var j :| 0 <= j < k + 1 && draws[..k + 1][j] % count == x;
      assert j < k ==> draws[..k][j] % count == x;
    }
  }

  lemma {:induction false} SubsetIsNoLarger(a: set<nat>, b: set<nat>)
    requires a <= b
    ensures |a| <= |b|
  {
    if a != {} {
      var x :| x in a;
      SubsetIsNoLarger(a - {x}, b - {x});
    }
  }

  lemma {:induction false} HasLeast(s: set<nat>) returns (m: nat)
    requires s != {}
    ensures m in s && forall x | x in s :: m <= x
  {
    var y :| y in s;
    m := y;
    if s != {y} {
      var other := HasLeast(s - {y});
      m := if other < y then other else y;
    }
    assert forall x | x in s :: x == y || x in s - {y};
  }

  /** std::set iterates in increasing order. */
  method InOrder(s: set<nat>) returns (r: seq<nat>)
    ensures StrictlyIncreasing(r) && |r| == |s|
    ensures forall x :: x in r <==> x in s
  {
    var rest := s;
    r := [];
    while rest != {}
      invariant rest <= s && |r| + |rest| == |s| && StrictlyIncreasing(r)
      invariant forall x :: x in r <==> x in s - rest
      invariant forall k, y | 0 <= k < |r| && y in rest :: r[k] < y
    {
      var _ := HasLeast(rest);
      var m :| m in rest && forall x | x in rest :: m <= x;
      r := r + [m];
      rest := rest - {m};
    }
  }

  /** audit_pick_indices over the generator's draws: no answer when the draws given are too few
      for the loop to end. */
  method PickIndices(draws: seq<nat>, count: nat, n: int) returns (r: Option<seq<nat>>)
    ensures r.Some? ==> Picked(r.value, count) && |r.value| == if n <= 0 then 0 else Min(n, count)
    ensures r.Some? && count > 0 && n > 0 ==>
              exists used :: 0 <= used <= |draws| && Elements(r.value) == Residues(draws[..used], count)
    ensures r.None? <==> count > 0 && n > 0 && |Residues(draws, count)| < Min(n, count)
  {
    if count == 0 || n <= 0 {
      return Some([]);
    }
    var want := Min(n, count);
    var picked: set<nat> := {};
    var used := 0;
    while |picked| < want
      invariant used <= |draws| && picked == Residues(draws[..used], count)
      invariant |picked| <= want && picked <= Residues(draws, count)
      invariant forall x | x in picked :: x < count
      decreases |draws| - used
    {
      if used == |draws| {
        assert draws[..used] == draws;
        return None;
      }
      ResiduesNext(draws, count, used);
      picked := picked + {draws[used] % count};
      used := used + 1;
      if used < |draws| {
        ResiduesNext(draws, count, used);
      }
    }
    SubsetIsNoLarger(picked, Residues(draws, count));
    var inOrder := InOrder(picked);
    assert forall k | 0 <= k < |inOrder| :: inOrder[k] in inOrder;
    assert Elements(inOrder) == Residues(draws[..used], count);
    return Some(inOrder);
  }

  /** When as many indices are picked as there are records, every record is probed. */
  lemma {:induction false} EveryIndexPicked(picks: seq<nat>, count: nat, k: nat)
    requires Picked(picks, count) && |picks| == count && k < count
    ensures picks[k] == k
  {
    AtLeastItsPlace(picks, k);
    AtMostItsPlace(picks, count, k);
  }

  lemma {:induction false} AtLeastItsPlace(picks: seq<nat>, k: nat)
    requires StrictlyIncreasing(picks) && k < |picks|
    ensures picks[k] >= k
  {
    if k > 0 {
      AtLeastItsPlace(picks, k - 1);
      assert picks[k - 1] < picks[k];
    }
  }

  lemma {:induction false} AtMostItsPlace(picks: seq<nat>, count: nat, k: nat)
    requires Picked(picks, count) && k < |picks|
    ensures picks[k] + |picks| - k <= count
    decreases |picks| - k
  {
    if k < |picks| - 1 {
      AtMostItsPlace(picks, count, k + 1);
      assert picks[k] < picks[k + 1];
    }
  }

  // ----- the replay ----------------------------------------------------------------------------------

  datatype AuditReport = AuditReport(checks: nat, mismatches: nat, passed: bool)

  /** What the contract answers to the question snapshot `s` recorded an answer to. */
  function Truth(w: seq<Record>, s: Snapshot): Snapshot
    requires s.index < |w|
  {
    var b := BookAfter(w, s.index + 1);
    Snapshot(s.index, BestBidAnswer(b), BestAskAnswer(b), s.price, s.side, Depth(b, s.side, s.price))
  }

  function Mismatch(s: Snapshot, t: Snapshot): nat {
    (if s.bestBid != t.bestBid then 1 else 0) + (if s.bestAsk != t.bestAsk then 1 else 0)
    + (if s.depth != t.depth then 1 else 0)
  }

  /** How many leading snapshots have strictly increasing indices inside the workload. */
  ghost function Comparable(ut: seq<Snapshot>, count: nat): (c: nat)
    ensures c <= |ut|
    ensures forall k | 0 <= k < c :: ut[k].index < count
  {
    if ut == [] then 0
    else
      var n := |ut| - 1;
      var c := Comparable(ut[..n], count);
      if c == n && ut[n].index < count && (n == 0 || ut[n - 1].index < ut[n].index) then n + 1 else c
  }

  ghost function Mismatches(w: seq<Record>, ut: seq<Snapshot>, n: nat): nat
    requires n <= |ut| && forall k | 0 <= k < n :: ut[k].index < |w|
  {
    if n == 0 then 0 else Mismatches(w, ut, n - 1) + Mismatch(ut[n - 1], Truth(w, ut[n - 1]))
  }

  lemma {:induction false} NoMismatch(w: seq<Record>, ut: seq<Snapshot>, n: nat)
    requires n <= |ut| && forall k | 0 <= k < n :: ut[k].index < |w|
    ensures Mismatches(w, ut, n) == 0 <==> forall k | 0 <= k < n :: ut[k] == Truth(w, ut[k])
  {
    hide BookAfter, BestBidAnswer, BestAskAnswer, Depth;
    if n > 0 {
      NoMismatch(w, ut, n - 1);
    }
  }

  lemma NothingCompared(w: seq<Record>, ut: seq<Snapshot>)
    ensures Comparable(ut[..0], |w|) == 0 && Mismatches(w, ut, 0) == 0
  {}

  lemma ComparedNext(w: seq<Record>, ut: seq<Snapshot>, n: nat)
    requires n < |ut| && ut[n].index < |w| && (n == 0 || ut[n - 1].index < ut[n].index)
    requires forall k | 0 <= k < n :: ut[k].index < |w|
    ensures Comparable(ut[..n], |w|) == n ==> Comparable(ut[..n + 1], |w|) == n + 1
    ensures Mismatches(w, ut, n + 1) == Mismatches(w, ut, n) + Mismatch(ut[n], Truth(w, ut[n]))
  {
    hide Truth, Mismatch;
    assert ut[..n + 1][..n] == ut[..n];
  }

  /** Once a snapshot cannot be reached, none behind it is. */
  lemma {:induction false} ComparableStops(ut: seq<Snapshot>, count: nat, k: nat, n: nat)
    requires k < n <= |ut| && Comparable(ut[..k], count) == k
    requires !(ut[k].index < count && (k == 0 || ut[k - 1].index < ut[k].index))
    ensures Comparable(ut[..n], count) == k
  {
    assert ut[..n][..n - 1] == ut[..n - 1];
    if k < n - 1 {
      ComparableStops(ut, count, k, n - 1);
    }
  }

  /** run_state_audit: replays the workload through a contract-keeping baseline and compares the
      snapshots in order. Every comparable snapshot is compared after the same prefix it was
      taken after; the audit passes if and only if there is one and all of them are right. */
  method RunStateAudit(baseline: Engine, w: seq<Record>, ut: seq<Snapshot>) returns (r: AuditReport)
    requires baseline.book == []
    modifies baseline
    ensures var n := Comparable(ut, |w|);
            && r.checks == 3 * n && r.mismatches == Mismatches(w, ut, n)
            && (r.passed <==> n > 0 && forall k | 0 <= k < n :: ut[k] == Truth(w, ut[k]))
  {
    hide Step, Run, BestBidAnswer, BestAskAnswer, Depth, Prepared, Trace, Mismatches, Comparable;
    NothingCompared(w, ut);
    if ut == [] {
      return AuditReport(0, 0, false);
    }
    var checks, mismatches := 0, 0;
    var cur, i := 0, 0;
    TraceStart(w, []);
    while i < |w| && cur < |ut|
      invariant i <= |w| && cur <= |ut| && baseline.book == BookAfter(w, i)
      invariant Comparable(ut[..cur], |w|) == cur
      invariant forall k | 0 <= k < cur :: ut[k].index < |w|
      invariant cur > 0 ==> ut[cur - 1].index < i
      invariant cur < |ut| && (cur == 0 || ut[cur - 1].index < ut[cur].index) ==> i <= ut[cur].index
      invariant checks == 3 * cur && mismatches == Mismatches(w, ut, cur)
    {
      hide BookAfter;
      TraceNext(w, [], i);
      baseline.OnMessage(Prepared(w[i]));
      if ut[cur].index == i {
        var s := ut[cur];
        ComparedNext(w, ut, cur);
        var bb := BestBidAnswer(baseline.book);
        var ba := BestAskAnswer(baseline.book);
        var dp := Depth(baseline.book, s.side, s.price);
        checks := checks + 3;
        if bb != s.bestBid {
          mismatches := mismatches + 1;
        }
        if ba != s.bestAsk {
          mismatches := mismatches + 1;
        }
        if dp != s.depth {
          mismatches := mismatches + 1;
        }
        cur := cur + 1;
      }
      i := i + 1;
    }
    assert ut[..|ut|] == ut;
    if cur < |ut| {
      ComparableStops(ut, |w|, cur, |ut|);
    }
    NoMismatch(w, ut, cur);
    r := AuditReport(checks, mismatches, checks > 0 && mismatches == 0);
  }

  // ----- the audit as a whole --------------------------------------------------------------------------

  /** Snapshots `ut` recorded at the picked indices. */
  ghost predicate RecordedAt(w: seq<Record>, picks: seq<nat>, ut: seq<Snapshot>) {
    && Picked(picks, |w|) && |ut| == |picks|
    && forall k | 0 <= k < |ut| ::
         ut[k].index == picks[k] && ut[k].price == w[picks[k]].price && ut[k].side == w[picks[k]].side
  }

  lemma {:induction false} AllComparable(ut: seq<Snapshot>, picks: seq<nat>, count: nat)
    requires Picked(picks, count) && |ut| == |picks|
    requires forall k | 0 <= k < |ut| :: ut[k].index == picks[k]
    ensures Comparable(ut, count) == |ut|
  {
    if ut != [] {
      var n := |ut| - 1;
      AllComparable(ut[..n], picks[..n], count);
      assert n > 0 ==> picks[n - 1] < picks[n];
    }
  }

  lemma TruthIsAnswer(w: seq<Record>, picks: seq<nat>, ut: seq<Snapshot>, k: nat)
    requires RecordedAt(w, picks, ut) && k < |ut|
    ensures Truth(w, ut[k]) == Snapshots(w, picks)[k]
  {}

  /** Snapshots recorded at picked indices are all compared, and pass if and only if they are
      exactly the snapshots of a contract-keeping engine: one wrong answer anywhere fails. */
  lemma AuditIsExact(w: seq<Record>, picks: seq<nat>, ut: seq<Snapshot>)
    requires RecordedAt(w, picks, ut)
    ensures Comparable(ut, |w|) == |ut|
    ensures (forall k | 0 <= k < |ut| :: ut[k] == Truth(w, ut[k])) <==> ut == Snapshots(w, picks)
  {
    hide BookAfter, BestBidAnswer, BestAskAnswer, Depth, Comparable;
    AllComparable(ut, picks, |w|);
    hide Truth;
    var honest := Snapshots(w, picks);
    forall k | 0 <= k < |ut| ensures ut[k] == Truth(w, ut[k]) <==> ut[k] == honest[k] {
      TruthIsAnswer(w, picks, ut, k);
    }
    if forall k | 0 <= k < |ut| :: ut[k] == Truth(w, ut[k]) {
      assert forall k | 0 <= k < |ut| :: ut[k] == honest[k];
    }
  }

  /** A benchmark run followed by its audit, in either delivery mode: a contract-keeping engine
      passes on every non-empty workload, with three checks for every probe. */
  method AuditedRun(w: seq<Record>, draws: seq<nat>, batched: bool) returns (r: Option<AuditReport>)
    requires |w| < TWO_32
    ensures r.Some? ==> r.value == AuditReport(3 * Min(AUDIT_POINTS, |w|), 0, w != [])
    ensures r.None? <==> w != [] && |Residues(draws, |w|)| < Min(AUDIT_POINTS, |w|)
  {
    hide Comparable, Mismatches, BookAfter, Trace, Truth, Residues;
    var picks := PickIndices(draws, |w|, AUDIT_POINTS);
    if picks.None? {
      return None;
    }
    var engine := new Engine();
    var baseline := new Engine();
    var snaps;
    if batched {
      snaps := DeliverBatches(engine, w, picks.value);
    } else {
      snaps := DeliverOneByOne(engine, w, picks.value);
    }
    assert RecordedAt(w, picks.value, snaps);
    AuditIsExact(w, picks.value, snaps);
    NoMismatch(w, snaps, |snaps|);
    var report := RunStateAudit(baseline, w, snaps);
    return Some(report);
  }
}
