// The scanner's worker pool: one producer, an unbuffered channel, any number
// of workers, a mutex around the callback and a cancellation that may come at
// any moment. One action is one thing a goroutine does between two points
// where another one can run.
module ProbePool {
  import opened Prelude

  datatype MatchStatus = Matched | Mismatched | NotInInventory | NoTls | Unreachable

  // What the callback made of a probe: how it reconciled, and what became of
  // the statement that stores the result row.
  datatype Report = Report(index: nat, status: MatchStatus, saved: Fault)

  // A worker works on the occurrence `index` of the host and port list.
  datatype Worker =
    | Waiting                  // for the channel
    | Received(index: nat)     // about to look at the context
    | Probing(index: nat)
    | Probed(index: nat)       // waiting for the mutex
    | Reporting(index: nat)    // in the callback, holding the mutex
    | Exited
  {
    predicate Busy() { !Waiting? && !Exited? }
  }

  datatype Pool = Pool(
    total: nat,
    next: nat,                 // how many occurrences the producer has sent
    closed: bool,
    canceled: bool,
    locked: bool,
    workers: seq<Worker>,
    reported: seq<Report>,
    lost: set<nat>)            // dropped on cancellation or by a panicking probe

  datatype Action =
    | Send(w: nat)             // the producer hands the next occurrence to w
    | Abandon                  // the producer sees the cancellation
    | Finish                   // the producer has sent everything
    | Drain(w: nat)            // w finds the channel closed
    | Look(w: nat)             // w looks at the context
    | Probe(w: nat, panics: bool)
    | Acquire(w: nat)
    | Deliver(w: nat, status: MatchStatus, saved: Fault)
    | Cancel

  function Start(total: nat, concurrency: nat): Pool {
    Pool(total, 0, false, false, false, seq(concurrency, i => Waiting), [], {})
  }

  predicate Enabled(p: Pool, a: Action) {
    match a
    case Send(w) => w < |p.workers| && p.workers[w].Waiting? && !p.closed && p.next < p.total
    case Abandon => p.canceled && !p.closed && p.next < p.total
    case Finish => !p.closed && p.next == p.total
    case Drain(w) => w < |p.workers| && p.workers[w].Waiting? && p.closed
    case Look(w) => w < |p.workers| && p.workers[w].Received?
    case Probe(w, _) => w < |p.workers| && p.workers[w].Probing?
    case Acquire(w) => w < |p.workers| && p.workers[w].Probed? && !p.locked
    case Deliver(w, _, _) => w < |p.workers| && p.workers[w].Reporting?
    case Cancel => !p.canceled
  }

  function SetWorker(p: Pool, w: nat, x: Worker): Pool
    requires w < |p.workers|
  {
    p.(workers := p.workers[w := x])
  }

  function Apply(p: Pool, a: Action): Pool
    requires Enabled(p, a)
  {
    match a
    case Send(w) => SetWorker(p, w, Received(p.next)).(next := p.next + 1)
    case Abandon => p.(closed := true)
    case Finish => p.(closed := true)
    case Drain(w) => SetWorker(p, w, Exited)
    case Look(w) =>
      var i := p.workers[w].index;
      if p.canceled then SetWorker(p, w, Exited).(lost := p.lost + {i}) else SetWorker(p, w, Probing(i))
    case Probe(w, panics) =>
      var i := p.workers[w].index;
      if panics then SetWorker(p, w, Waiting).(lost := p.lost + {i}) else SetWorker(p, w, Probed(i))
    case Acquire(w) => SetWorker(p, w, Reporting(p.workers[w].index)).(locked := true)
    case Deliver(w, status, saved) =>
      SetWorker(p, w, Waiting).(locked := false, reported := p.reported + [Report(p.workers[w].index, status, saved)])
    case Cancel => p.(canceled := true)
  }

  // Every goroutine of the pool has returned: wg.Wait lets the caller go on.
  predicate AllDone(p: Pool) {
    forall w :: 0 <= w < |p.workers| ==> p.workers[w].Exited?
  }

  ghost predicate IsRun(p: Pool, actions: seq<Action>)
    decreases |actions|
  {
    actions == [] || (Enabled(p, actions[0]) && IsRun(Apply(p, actions[0]), actions[1..]))
  }

  ghost function Run(p: Pool, actions: seq<Action>): Pool
    requires IsRun(p, actions)
    decreases |actions|
  {
    if actions == [] then p else Run(Apply(p, actions[0]), actions[1..])
  }

  // ------------------------------------------------------------------ invariant

  ghost predicate WorkersApart(p: Pool) {
    forall v, w :: 0 <= v < w < |p.workers| && p.workers[v].Busy() && p.workers[w].Busy() ==>
      p.workers[v].index != p.workers[w].index
  }

  ghost predicate DifferentIndices(reports: seq<Report>) {
    forall j, k :: 0 <= j < k < |reports| ==> reports[j].index != reports[k].index
  }

  ghost predicate IndicesBelow(reports: seq<Report>, n: nat) {
    forall k :: 0 <= k < |reports| ==> reports[k].index < n
  }

  ghost predicate ReportsApart(p: Pool) {
    && (forall w, k :: 0 <= w < |p.workers| && p.workers[w].Busy() && 0 <= k < |p.reported| ==>
      p.workers[w].index != p.reported[k].index)
    && DifferentIndices(p.reported)
  }

  ghost predicate Sent(p: Pool) {
    && p.next <= p.total
    && (forall w :: 0 <= w < |p.workers| && p.workers[w].Busy() ==> p.workers[w].index < p.next)
    && IndicesBelow(p.reported, p.next)
  }

  ghost predicate IsHeld(p: Pool, i: nat) {
    exists w :: 0 <= w < |p.workers| && p.workers[w].Busy() && p.workers[w].index == i
  }

  ghost predicate IsReported(p: Pool, i: nat) {
    exists k :: 0 <= k < |p.reported| && p.reported[k].index == i
  }

  // Nothing that was sent is forgotten.
  ghost predicate Accounted(p: Pool) {
    forall i: nat :: i < p.next ==> IsHeld(p, i) || IsReported(p, i) || i in p.lost
  }

  predicate InCallback(p: Pool, w: int) {
    0 <= w < |p.workers| && p.workers[w].Reporting?
  }

  ghost predicate OneInCallback(p: Pool) {
    forall v, w :: InCallback(p, v) && InCallback(p, w) ==> v == w
  }

  ghost predicate Exclusive(p: Pool) {
    && (p.locked ==> exists w :: InCallback(p, w))
    && OneInCallback(p)
    && (forall w :: InCallback(p, w) ==> p.locked)
  }

  ghost predicate Shutdown(p: Pool) {
    && (p.closed && !p.canceled ==> p.next == p.total)
    && (forall w :: 0 <= w < |p.workers| && p.workers[w].Exited? ==> p.closed || p.canceled)
  }

  ghost predicate Inv(p: Pool) {
    WorkersApart(p) && ReportsApart(p) && Sent(p) && Accounted(p) && Exclusive(p) && Shutdown(p)
  }

  lemma WorkersApartStep(p: Pool, a: Action)
    requires WorkersApart(p) && Sent(p) && Enabled(p, a)
    ensures WorkersApart(Apply(p, a))
  {
  }

  lemma SentStep(p: Pool, a: Action)
    requires Sent(p) && Enabled(p, a)
    ensures Sent(Apply(p, a))
  {
  }

  lemma DeliverKeepsApart(p: Pool, a: Action)
    requires WorkersApart(p) && ReportsApart(p) && a.Deliver? && Enabled(p, a)
    ensures ReportsApart(Apply(p, a))
  {
    var q := Apply(p, a);
    assert forall k :: 0 <= k < |p.reported| ==> q.reported[k] == p.reported[k];
    assert q.reported[|p.reported|].index == p.workers[a.w].index;
  }

  lemma ReportsApartStep(p: Pool, a: Action)
    requires WorkersApart(p) && ReportsApart(p) && Sent(p) && Enabled(p, a)
    ensures ReportsApart(Apply(p, a))
  {
    if a.Deliver? {
      DeliverKeepsApart(p, a);
    } else {
      assert Apply(p, a).reported == p.reported;
    }
  }

  lemma ReportsStay(p: Pool, a: Action, i: nat)
    requires Enabled(p, a) && IsReported(p, i)
    ensures IsReported(Apply(p, a), i)
  {
    var k :| 0 <= k < |p.reported| && p.reported[k].index == i;
    assert Apply(p, a).reported[k].index == i;
  }

  lemma HeldGoesOn(p: Pool, a: Action, i: nat)
    requires Enabled(p, a) && IsHeld(p, i)
    ensures var q := Apply(p, a); IsHeld(q, i) || IsReported(q, i) || i in q.lost
  {
    var q := Apply(p, a);
    var w :| 0 <= w < |p.workers| && p.workers[w].Busy() && p.workers[w].index == i;
    if a.Deliver? && a.w == w {
      assert q.reported[|p.reported|].index == i;
    } else {
      assert q.workers[w].Busy() ==> q.workers[w].index == i;
    }
  }

  lemma LostStays(p: Pool, a: Action)
    requires Enabled(p, a)
    ensures p.lost <= Apply(p, a).lost
  {
  }

  lemma NextIsHeld(p: Pool, a: Action, i: nat)
    requires Enabled(p, a) && p.next <= i < Apply(p, a).next
    ensures IsHeld(Apply(p, a), i)
  {
    assert Apply(p, a).workers[a.w].index == i;
  }

  lemma AccountedStep(p: Pool, a: Action)
    requires Accounted(p) && Enabled(p, a)
    ensures Accounted(Apply(p, a))
  {
    var q := Apply(p, a);
    LostStays(p, a);
    forall i: nat | i < q.next ensures IsHeld(q, i) || IsReported(q, i) || i in q.lost {
      if i >= p.next {
        NextIsHeld(p, a, i);
      } else if IsReported(p, i) {
        ReportsStay(p, a, i);
      } else if IsHeld(p, i) {
        HeldGoesOn(p, a, i);
      }
    }
  }

  lemma ExclusiveStep(p: Pool, a: Action)
    requires Exclusive(p) && Enabled(p, a)
    ensures Exclusive(Apply(p, a))
  {
    var q := Apply(p, a);
    if a.Acquire? {
      assert InCallback(q, a.w);
      assert forall v :: InCallback(q, v) ==> v == a.w || InCallback(p, v);
    } else {
      if a.Deliver? { assert InCallback(p, a.w); }
      assert forall v :: InCallback(q, v) ==> InCallback(p, v);
      if p.locked && !a.Deliver? {
        var w :| InCallback(p, w);
        assert InCallback(q, w);
      }
    }
  }

  lemma InvStep(p: Pool, a: Action)
    requires Inv(p) && Enabled(p, a)
    ensures Inv(Apply(p, a))
  {
    WorkersApartStep(p, a);
    ReportsApartStep(p, a);
    SentStep(p, a);
    AccountedStep(p, a);
    ExclusiveStep(p, a);
  }

  lemma {:induction false} InvRun(p: Pool, actions: seq<Action>)
    requires Inv(p) && IsRun(p, actions)
    ensures Inv(Run(p, actions))
    ensures Run(p, actions).total == p.total && |Run(p, actions).workers| == |p.workers|
    decreases |actions|
  {
    if actions == [] {
    } else {
      InvStep(p, actions[0]);
      InvRun(Apply(p, actions[0]), actions[1..]);
    }
  }

  // ------------------------------------------------------------------- theorems

  /** However producer, workers and cancellation interleave, no occurrence
      reaches the callback twice, only listed ones do, and the callback never
      runs in two workers at once. */
  lemma ReportedAtMostOnce(total: nat, concurrency: nat, actions: seq<Action>)
    requires IsRun(Start(total, concurrency), actions)
    ensures var p := Run(Start(total, concurrency), actions);
            DifferentIndices(p.reported) && IndicesBelow(p.reported, total) && OneInCallback(p)
  {
    InvRun(Start(total, concurrency), actions);
  }

  predicate Undisturbed(actions: seq<Action>) {
    forall a :: a in actions ==> !a.Cancel? && !(a.Probe? && a.panics)
  }

  lemma {:induction false} UndisturbedLosesNothing(p: Pool, actions: seq<Action>)
    requires IsRun(p, actions) && Undisturbed(actions) && !p.canceled
    ensures Run(p, actions).lost == p.lost && !Run(p, actions).canceled
    decreases |actions|
  {
    if actions == [] {
    } else {
      assert actions[0] in actions;
      UndisturbedLosesNothing(Apply(p, actions[0]), actions[1..]);
    }
  }

  /** With at least one worker, no cancellation and no panic, every occurrence
      has been reported when the pool is done. */
  lemma EverythingIsReported(total: nat, concurrency: nat, actions: seq<Action>)
    requires concurrency >= 1 && IsRun(Start(total, concurrency), actions) && Undisturbed(actions)
    requires AllDone(Run(Start(total, concurrency), actions))
    ensures forall i: nat :: i < total ==> IsReported(Run(Start(total, concurrency), actions), i)
  {
    InvRun(Start(total, concurrency), actions);
    UndisturbedLosesNothing(Start(total, concurrency), actions);
    var p := Run(Start(total, concurrency), actions);
    assert p.workers[0].Exited?;
  }

  // ------------------------------------------------------------------ cancelling

  // A worker that has found the context alive and not yet reported.
  predicate PastLook(x: Worker) { x.Probing? || x.Probed? || x.Reporting? }

  ghost predicate InHand(p: Pool, i: nat) {
    exists w :: 0 <= w < |p.workers| && PastLook(p.workers[w]) && p.workers[w].index == i
  }

  // From p to q nothing new has got past the look, and only what was past it
  // has been reported.
  ghost predicate WindsDown(p: Pool, q: Pool) {
    && q.canceled && |q.workers| == |p.workers| && p.reported <= q.reported
    && (forall w :: 0 <= w < |q.workers| && PastLook(q.workers[w]) ==>
          PastLook(p.workers[w]) && p.workers[w].index == q.workers[w].index)
    && (forall k :: |p.reported| <= k < |q.reported| ==> InHand(p, q.reported[k].index))
  }

  lemma CanceledStep(p: Pool, a: Action)
    requires p.canceled && Enabled(p, a)
    ensures WindsDown(p, Apply(p, a))
    ensures forall w :: 0 <= w < |p.workers| && Apply(p, a).workers[w].Probing? ==> p.workers[w].Probing?
  {
    if a.Deliver? { assert InHand(p, p.workers[a.w].index); }
  }

  lemma WindsDownOn(p: Pool, q: Pool, r: Pool)
    requires WindsDown(p, q) && WindsDown(q, r)
    ensures WindsDown(p, r)
  {
    forall k | |p.reported| <= k < |r.reported| ensures InHand(p, r.reported[k].index) {
      if k < |q.reported| {
        assert r.reported[k] == q.reported[k];
      } else {
        assert InHand(q, r.reported[k].index);
        var w :| 0 <= w < |q.workers| && PastLook(q.workers[w]) && q.workers[w].index == r.reported[k].index;
        assert p.workers[w].index == q.workers[w].index;
      }
    }
  }

  /** After a cancellation no occurrence begins to be probed any more, and only
      those that were being probed, waiting for the mutex or in the callback
      at that moment are still reported. */
  lemma {:induction false} CancelStopsTheScan(p: Pool, actions: seq<Action>)
    requires p.canceled && IsRun(p, actions)
    ensures WindsDown(p, Run(p, actions))
    decreases |actions|
  {
    if actions != [] {
      CanceledStep(p, actions[0]);
      CancelStopsTheScan(Apply(p, actions[0]), actions[1..]);
      WindsDownOn(p, Apply(p, actions[0]), Run(p, actions));
    }
  }

  // What the callback made of the occurrences, in the order of the mutex.
  function Deliveries(actions: seq<Action>): seq<(MatchStatus, Fault)> {
    if actions == [] then []
    else (if actions[0].Deliver? then [(actions[0].status, actions[0].saved)] else []) + Deliveries(actions[1..])
  }

  function Outcomes(reports: seq<Report>): seq<(MatchStatus, Fault)> {
    seq(|reports|, k requires 0 <= k < |reports| => (reports[k].status, reports[k].saved))
  }

  lemma OutcomesStep(p: Pool, a: Action)
    requires Enabled(p, a)
    ensures Outcomes(Apply(p, a).reported) ==
            Outcomes(p.reported) + (if a.Deliver? then [(a.status, a.saved)] else [])
  {
  }

  /** The reports of a run say what the callbacks found and what became of the
      rows they stored. */
  lemma {:induction false} ReportsAreDeliveries(p: Pool, actions: seq<Action>)
    requires IsRun(p, actions)
    ensures Outcomes(Run(p, actions).reported) == Outcomes(p.reported) + Deliveries(actions)
    decreases |actions|
  {
    if actions != [] {
      OutcomesStep(p, actions[0]);
      ReportsAreDeliveries(Apply(p, actions[0]), actions[1..]);
    }
  }

  // ------------------------------------------------------ progress, termination

  function Rank(x: Worker): nat {
    match x
    case Waiting => 1
    case Received(_) => 5
    case Probing(_) => 4
    case Probed(_) => 3
    case Reporting(_) => 2
    case Exited => 0
  }

  function Ranks(ws: seq<Worker>): nat {
    if ws == [] then 0 else Rank(ws[0]) + Ranks(ws[1..])
  }

  lemma {:induction false} RanksUpdate(ws: seq<Worker>, w: nat, x: Worker)
    requires w < |ws|
    ensures Ranks(ws[w := x]) + Rank(ws[w]) == Ranks(ws) + Rank(x)
  {
    if w > 0 {
      assert ws[w := x][1..] == ws[1..][w - 1 := x];
      RanksUpdate(ws[1..], w - 1, x);
    } else {
      assert ws[w := x][1..] == ws[1..];
    }
  }

  ghost function WorkLeft(p: Pool): int {
    5 * (p.total - p.next) + Ranks(p.workers) + (if p.closed then 0 else 1) + (if p.canceled then 0 else 1)
  }

  // Steps of the producer and of whoever cancels leave the workers alone.
  predicate OfAWorker(a: Action) {
    !(a.Abandon? || a.Finish? || a.Cancel?)
  }

  lemma WorkerStepRanks(p: Pool, a: Action)
    requires Enabled(p, a) && OfAWorker(a)
    ensures var q := Apply(p, a);
            && q.workers == p.workers[a.w := q.workers[a.w]]
            && Rank(q.workers[a.w]) < Rank(p.workers[a.w]) + (if a.Send? then 5 else 0)
  {
  }

  /** Every step of every goroutine, cancelled or not, uses up work. */
  lemma StepUsesWork(p: Pool, a: Action)
    requires Enabled(p, a)
    ensures WorkLeft(Apply(p, a)) < WorkLeft(p)
  {
    if OfAWorker(a) {
      WorkerStepRanks(p, a);
      RanksUpdate(p.workers, a.w, Apply(p, a).workers[a.w]);
    }
  }

  lemma {:induction false} RunsAreBounded(p: Pool, actions: seq<Action>)
    requires Inv(p) && IsRun(p, actions)
    ensures |actions| <= WorkLeft(p)
    decreases |actions|
  {
    if actions == [] {
    } else {
      InvStep(p, actions[0]);
      StepUsesWork(p, actions[0]);
      RunsAreBounded(Apply(p, actions[0]), actions[1..]);
    }
  }

  lemma {:induction false} AllWaitingRank(n: nat)
    ensures Ranks(seq(n, i => Waiting)) == n
  {
    if n == 0 {
    } else {
      assert seq(n, i => Waiting)[1..] == seq(n - 1, i => Waiting);
      AllWaitingRank(n - 1);
    }
  }

  /** No schedule goes on forever: a scan takes at most this many steps. */
  lemma ScanTerminates(total: nat, concurrency: nat, actions: seq<Action>)
    requires IsRun(Start(total, concurrency), actions)
    ensures |actions| <= 5 * total + concurrency + 2
  {
    RunsAreBounded(Start(total, concurrency), actions);
    AllWaitingRank(concurrency);
  }

  /** No deadlock: while some worker has not returned, some goroutine can move,
      with or without a cancellation. */
  lemma SomeoneCanMove(p: Pool) returns (a: Action)
    requires Inv(p) && !AllDone(p)
    ensures Enabled(p, a) && !a.Cancel?
  {
    var w :| 0 <= w < |p.workers| && !p.workers[w].Exited?;
    match p.workers[w]
    case Received(_) => a := Look(w);
    case Probing(_) => a := Probe(w, false);
    case Reporting(_) => a := Deliver(w, Unreachable, Rejected);
    case Probed(_) =>
      if p.locked {
        var v :| InCallback(p, v);
        a := Deliver(v, Unreachable, Rejected);
      } else {
        a := Acquire(w);
      }
    case Waiting =>
      a := if p.closed then Drain(w) else if p.next < p.total then Send(w) else Finish;
  }

  /** The producer is never left behind: when the workers of a non-empty pool
      have returned, it has closed the channel or is free to do so. */
  lemma ProducerIsNotStranded(p: Pool)
    requires Inv(p) && AllDone(p) && |p.workers| >= 1
    ensures p.closed || Enabled(p, Abandon) || Enabled(p, Finish)
  {
    assert p.workers[0].Exited?;
  }
}
