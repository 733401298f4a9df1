// One scan: the host and port list given to the worker pool, the callback that
// stores and counts results, and the status the scan ends with.
module ScanRun {
  import opened Prelude
  import opened ProbePool

  datatype Endpoint = Endpoint(host: string, port: int)

  // The producer's order: every port of the first host, then the next host.
  function Endpoints(hosts: seq<string>, ports: seq<int>): seq<Endpoint> {
    if hosts == [] then []
    else seq(|ports|, i requires 0 <= i < |ports| => Endpoint(hosts[0], ports[i])) + Endpoints(hosts[1..], ports)
  }

  lemma {:induction false} EndpointCount(hosts: seq<string>, ports: seq<int>)
    ensures |Endpoints(hosts, ports)| == |hosts| * |ports|
  {
    if hosts == [] {
    } else {
      EndpointCount(hosts[1..], ports);
    }
  }

  /** Endpoint number i*|ports|+j is host i with port j. */
  lemma {:induction false} EndpointAt(hosts: seq<string>, ports: seq<int>, i: nat, j: nat)
    requires i < |hosts| && j < |ports|
    ensures i * |ports| + j < |Endpoints(hosts, ports)|
    ensures Endpoints(hosts, ports)[i * |ports| + j] == Endpoint(hosts[i], ports[j])
  {
    EndpointCount(hosts, ports);
    if i == 0 {
    } else {
      EndpointAt(hosts[1..], ports, i - 1, j);
      assert i * |ports| + j == |ports| + ((i - 1) * |ports| + j);
    }
  }

  // ---------------------------------------------------------- reported exactly

  function Pick<T>(items: seq<T>, indices: seq<nat>): (r: seq<T>)
    requires forall k :: 0 <= k < |indices| ==> indices[k] < |items|
    ensures |r| == |indices|
  {
    seq(|indices|, k requires 0 <= k < |indices| => items[indices[k]])
  }

  function Indices(reports: seq<Report>): (s: seq<nat>)
    ensures |s| == |reports|
  {
    seq(|reports|, k requires 0 <= k < |reports| => reports[k].index)
  }

  ghost predicate AllDifferent(s: seq<nat>) {
    forall j, k :: 0 <= j < k < |s| ==> s[j] != s[k]
  }

  function Without(s: seq<nat>, k: nat): seq<nat>
    requires k < |s|
  {
    s[..k] + s[k + 1..]
  }

  // Without the position of n, the indices below n remain.
  lemma RemoveLargest(indices: seq<nat>, k: nat, n: nat)
    requires AllDifferent(indices) && k < |indices| && indices[k] == n
    requires forall j :: 0 <= j < |indices| ==> indices[j] <= n
    requires forall i: nat :: i <= n ==> i in indices
    ensures var rest := Without(indices, k);
            AllDifferent(rest) && (forall j :: 0 <= j < |rest| ==> rest[j] < n) && forall i: nat :: i < n ==> i in rest
  {
    var rest := Without(indices, k);
    forall j | 0 <= j < |rest| ensures rest[j] < n {
      assert rest[j] == if j < k then indices[j] else indices[j + 1];
    }
    forall i: nat | i < n ensures i in rest {
      assert i in indices;
      var j :| 0 <= j < |indices| && indices[j] == i;
      assert if j < k then rest[j] == i else rest[j - 1] == i;
    }
  }

  lemma SplitAt<T>(p: seq<T>, k: nat)
    requires k < |p|
    ensures multiset(p) == multiset(p[..k] + p[k + 1..]) + multiset{p[k]}
  {
    assert p == p[..k] + [p[k]] + p[k + 1..];
  }

  lemma PickWithout<T>(items: seq<T>, indices: seq<nat>, k: nat)
    requires k < |indices| && (forall j :: 0 <= j < |indices| ==> indices[j] < |items|)
    requires indices[k] == |items| - 1
    requires var rest := Without(indices, k); forall j :: 0 <= j < |rest| ==> rest[j] < |items| - 1
    ensures multiset(Pick(items, indices)) == multiset(Pick(items[..|items| - 1], Without(indices, k))) +
            multiset{items[|items| - 1]}
  {
    var p := Pick(items, indices);
    var q := Pick(items[..|items| - 1], Without(indices, k));
    SplitAt(p, k);
    assert q == p[..k] + p[k + 1..] by {
      forall j | 0 <= j < |q| ensures q[j] == (p[..k] + p[k + 1..])[j] {
        assert Without(indices, k)[j] == if j < k then indices[j] else indices[j + 1];
      }
    }
  }

  lemma LastItem<T>(items: seq<T>)
    requires items != []
    ensures multiset(items) == multiset(items[..|items| - 1]) + multiset{items[|items| - 1]}
  {
    assert items == items[..|items| - 1] + [items[|items| - 1]];
  }

  // Choosing every position once gives the same items.
  lemma {:induction false} PickAll<T>(items: seq<T>, indices: seq<nat>)
    requires AllDifferent(indices)
    requires forall k :: 0 <= k < |indices| ==> indices[k] < |items|
    requires forall i: nat :: i < |items| ==> i in indices
    ensures multiset(Pick(items, indices)) == multiset(items)
    decreases |items|
  {
    if items == [] {
    } else {
      var n := |items| - 1;
      assert n in indices;
      var k :| 0 <= k < |indices| && indices[k] == n;
      RemoveLargest(indices, k, n);
      PickAll(items[..n], Without(indices, k));
      PickWithout(items, indices, k);
      LastItem(items);
    }
  }

  /** An undisturbed scan reports hosts times ports, as a multiset: nothing is
      missing, nothing doubled, whatever the schedule. */
  lemma UndisturbedScanReportsAll(hosts: seq<string>, ports: seq<int>, concurrency: nat, actions: seq<Action>)
    requires var all := Endpoints(hosts, ports);
             && concurrency >= 1 && IsRun(Start(|all|, concurrency), actions) && Undisturbed(actions)
             && AllDone(Run(Start(|all|, concurrency), actions))
    ensures var all := Endpoints(hosts, ports);
            var indices := Indices(Run(Start(|all|, concurrency), actions).reported);
            && (forall k :: 0 <= k < |indices| ==> indices[k] < |all|)
            && multiset(Pick(all, indices)) == multiset(all)
  {
    var all := Endpoints(hosts, ports);
    var p := Run(Start(|all|, concurrency), actions);
    ReportedAtMostOnce(|all|, concurrency, actions);
    EverythingIsReported(|all|, concurrency, actions);
    var indices := Indices(p.reported);
    assert AllDifferent(indices) by {
      forall j, k | 0 <= j < k < |indices| ensures indices[j] != indices[k] {
        assert p.reported[j].index != p.reported[k].index;
      }
    }
    forall i: nat | i < |all| ensures i in indices {
      assert IsReported(p, i);
      var k :| 0 <= k < |p.reported| && p.reported[k].index == i;
      assert indices[k] == i;
    }
    PickAll(all, indices);
  }

  // ------------------------------------------------------------------- counting

  // The rows of the scan: every insert that landed.
  function Stored(reports: seq<Report>): seq<Report> {
    if reports == [] then []
    else
      Stored(reports[..|reports| - 1]) +
      (if reports[|reports| - 1].saved.Landed() then [reports[|reports| - 1]] else [])
  }

  // The results the scan knows to be stored.
  function Acknowledged(reports: seq<Report>): seq<Report> {
    if reports == [] then []
    else
      Acknowledged(reports[..|reports| - 1]) +
      (if reports[|reports| - 1].saved.Acked() then [reports[|reports| - 1]] else [])
  }

  function Count(results: seq<Report>, status: MatchStatus): nat {
    if results == [] then 0
    else Count(results[..|results| - 1], status) + (if results[|results| - 1].status == status then 1 else 0)
  }

  lemma {:induction false} CountsFit(results: seq<Report>)
    ensures Count(results, Matched) + Count(results, Mismatched) + Count(results, NotInInventory) <= |results|
  {
    if results == [] {
    } else {
      CountsFit(results[..|results| - 1]);
    }
  }

  lemma OneMoreReport(reports: seq<Report>, r: Report)
    ensures Stored(reports + [r]) == if r.saved.Landed() then Stored(reports) + [r] else Stored(reports)
    ensures Acknowledged(reports + [r]) == if r.saved.Acked() then Acknowledged(reports) + [r]
            else Acknowledged(reports)
  {
    assert (reports + [r])[..|reports|] == reports;
  }

  lemma OneMoreResult(results: seq<Report>, r: Report, status: MatchStatus)
    ensures Count(results + [r], status) == Count(results, status) + (if r.status == status then 1 else 0)
  {
    assert (results + [r])[..|results|] == results;
  }

  // What a scan counts: results, and among them three kinds.
  datatype Counts = Counts(scanned: nat, matched: nat, mismatched: nat, added: nat)

  function CountsOf(results: seq<Report>): Counts {
    Counts(|results|, Count(results, Matched), Count(results, Mismatched), Count(results, NotInInventory))
  }

  function CountedUp(c: Counts, status: MatchStatus): Counts {
    Counts(c.scanned + 1,
           c.matched + (if status == Matched then 1 else 0),
           c.mismatched + (if status == Mismatched then 1 else 0),
           c.added + (if status == NotInInventory then 1 else 0))
  }

  // The rows and the counters of a scan describe the reports so far.
  ghost predicate Describe(rows: seq<Report>, counts: Counts, reports: seq<Report>) {
    rows == Stored(reports) && counts == CountsOf(Acknowledged(reports))
  }

  function RowsAfter(rows: seq<Report>, r: Report): seq<Report> {
    if r.saved.Landed() then rows + [r] else rows
  }

  function CountsAfter(counts: Counts, r: Report): Counts {
    if r.saved.Acked() then CountedUp(counts, r.status) else counts
  }

  /** What one report adds to the rows and the counters. */
  lemma OneReportAdds(rows: seq<Report>, c: Counts, r: Report)
    ensures r.saved.Rejected? ==> RowsAfter(rows, r) == rows
    ensures !r.saved.Rejected? ==> RowsAfter(rows, r) == rows + [r]
    ensures !r.saved.Done? ==> CountsAfter(c, r) == c
    ensures r.saved.Done? ==>
              var c' := CountsAfter(c, r);
              && c'.scanned == c.scanned + 1
              && (r.status == Matched ==> c' == c.(scanned := c.scanned + 1, matched := c.matched + 1))
              && (r.status == Mismatched ==> c' == c.(scanned := c.scanned + 1, mismatched := c.mismatched + 1))
              && (r.status == NotInInventory ==> c' == c.(scanned := c.scanned + 1, added := c.added + 1))
              && (r.status == NoTls || r.status == Unreachable ==> c' == c.(scanned := c.scanned + 1))
  {
  }

  lemma OneMoreCounted(results: seq<Report>, r: Report)
    ensures CountsOf(results + [r]) == CountedUp(CountsOf(results), r.status)
  {
    OneMoreResult(results, r, Matched);
    OneMoreResult(results, r, Mismatched);
    OneMoreResult(results, r, NotInInventory);
  }

  lemma DescribeAfter(rows: seq<Report>, counts: Counts, reports: seq<Report>, r: Report)
    requires Describe(rows, counts, reports)
    ensures Describe(RowsAfter(rows, r), CountsAfter(counts, r), reports + [r])
  {
    OneMoreReport(reports, r);
    OneMoreCounted(Acknowledged(reports), r);
  }

  predicate NoReplyLost(reports: seq<Report>) {
    forall r :: r in reports ==> !r.saved.LostReply?
  }

  // What is acknowledged is stored, and all of it unless a reply is lost.
  lemma {:induction false} AcknowledgedIsStored(reports: seq<Report>)
    ensures |Acknowledged(reports)| <= |Stored(reports)|
    ensures |Acknowledged(reports)| == |Stored(reports)| <==> NoReplyLost(reports)
  {
    if reports == [] {
    } else {
      var n := |reports| - 1;
      assert reports == reports[..n] + [reports[n]];
      AcknowledgedIsStored(reports[..n]);
    }
  }

  datatype ScanStatus = Pending | Running | Completed | PartiallyCompleted | Failed | Canceled

  function FinalStatus(seen: seq<Report>, canceled: bool, total: nat): ScanStatus {
    if canceled then Canceled else if |Acknowledged(seen)| >= total then Completed else PartiallyCompleted
  }

  lemma PrefixGrows(before: seq<Report>, reports: seq<Report>, n: nat)
    requires n < |reports|
    ensures before + reports[..n] + [reports[n]] == before + reports[..n + 1]
  {
  }

  class ScanJob {
    const totalTargets: nat
    var status: ScanStatus
    var rowStatus: ScanStatus         // what the scan's row says
    var scannedCount: nat
    var matchedCount: nat
    var mismatchCount: nat
    var newCount: nat
    var results: seq<Report>          // the rows of this scan
    ghost var seen: seq<Report>       // every callback so far

    ghost function Counters(): Counts
      reads this
    {
      Counts(scannedCount, matchedCount, mismatchCount, newCount)
    }

    ghost predicate Valid()
      reads this
    {
      Describe(results, Counters(), seen)
    }

    constructor (totalTargets: nat)
      ensures Valid() && seen == [] && this.totalTargets == totalTargets && status == rowStatus == Running
    {
      this.totalTargets := totalTargets;
      status, rowStatus := Running, Running;
      scannedCount, matchedCount, mismatchCount, newCount := 0, 0, 0, 0;
      results, seen := [], [];
    }

    // The insert, whose reply may be lost after it landed.
    method AddResult(r: Report) returns (ok: bool)
      modifies `results
      ensures results == RowsAfter(old(results), r)
      ensures ok == r.saved.Acked()
    {
      if r.saved.Landed() {
        results := results + [r];
      }
      ok := r.saved.Acked();
    }

    method CountUp(status: MatchStatus)
      modifies `scannedCount, `matchedCount, `mismatchCount, `newCount
      ensures Counters() == CountedUp(old(Counters()), status)
    {
      scannedCount := scannedCount + 1;
      match status
      case Matched => matchedCount := matchedCount + 1;
      case Mismatched => mismatchCount := mismatchCount + 1;
      case NotInInventory => newCount := newCount + 1;
      case _ =>
    }

    method Record(r: Report)
      modifies `results, `scannedCount, `matchedCount, `mismatchCount, `newCount
      ensures results == RowsAfter(old(results), r) && Counters() == CountsAfter(old(Counters()), r)
    {
      var ok := AddResult(r);
      if ok {
        CountUp(r.status);
      }
    }

    /** The callback: a result that is not known to be stored is not counted. */
    method OnResult(r: Report)
      requires Valid()
      modifies this
      ensures Valid() && seen == old(seen) + [r] && status == old(status) && rowStatus == old(rowStatus)
    {
      ghost var before := Counters();
      Record(r);
      DescribeAfter(old(results), before, seen, r);
      seen := seen + [r];
    }

    // All callbacks of the pool, in the order of the mutex.
    method OnResults(reports: seq<Report>)
      requires Valid()
      modifies this
      ensures Valid() && seen == old(seen) + reports && status == old(status) && rowStatus == old(rowStatus)
    {
      for n := 0 to |reports|
        invariant Valid() && seen == old(seen) + reports[..n]
        invariant status == old(status) && rowStatus == old(rowStatus)
      {
        PrefixGrows(old(seen), reports, n);
        OnResult(reports[n]);
      }
      assert reports[..|reports|] == reports;
    }

    /** The row is left as it was if the last update does not land. */
    method Conclude(canceled: bool, fault: Fault)
      requires Valid()
      modifies `status, `rowStatus
      ensures status == FinalStatus(seen, canceled, totalTargets)
      ensures rowStatus == if fault.Landed() then status else old(rowStatus)
    {
      if canceled {
        status := Canceled;
      } else if scannedCount >= totalTargets {
        status := Completed;
      } else {
        status := PartiallyCompleted;
      }
      if fault.Landed() {
        rowStatus := status;
      }
    }
  }

  // ------------------------------------------------------------- end of the scan

  function IndexSet(reports: seq<Report>): set<nat> {
    set k | 0 <= k < |reports| :: reports[k].index
  }

  lemma IndexSetAppend(reports: seq<Report>, r: Report)
    ensures IndexSet(reports + [r]) == IndexSet(reports) + {r.index}
  {
    var all := reports + [r];
    assert all[|reports|] == r;
    forall i | i in IndexSet(reports) ensures i in IndexSet(all) {
      var k :| 0 <= k < |reports| && reports[k].index == i;
      assert all[k].index == i;
    }
  }

  // Reports of different occurrences.
  ghost predicate Apart(reports: seq<Report>) {
    DifferentIndices(reports) && |IndexSet(reports)| == |reports|
  }

  lemma AppendApart(reports: seq<Report>, r: Report)
    requires Apart(reports) && r.index !in IndexSet(reports)
    ensures Apart(reports + [r])
  {
    IndexSetAppend(reports, r);
    forall k | 0 <= k < |reports| ensures reports[k].index != r.index {
      assert reports[k].index in IndexSet(reports);
    }
  }

  // Part of the reports, with one more of them taken in or left out.
  lemma PartGrows(part: seq<Report>, whole: set<nat>, r: Report, taken: bool)
    requires Apart(part) && IndexSet(part) <= whole && r.index !in whole
    ensures var part' := if taken then part + [r] else part;
            Apart(part') && IndexSet(part') == IndexSet(part) + (if taken then {r.index} else {})
  {
    if taken {
      AppendApart(part, r);
      IndexSetAppend(part, r);
    }
  }

  lemma {:induction false} PartsAreApart(reports: seq<Report>)
    requires DifferentIndices(reports)
    ensures Apart(Stored(reports)) && Apart(Acknowledged(reports))
    ensures IndexSet(Acknowledged(reports)) <= IndexSet(Stored(reports)) <= IndexSet(reports)
  {
    if reports == [] {
    } else {
      var n := |reports| - 1;
      var front, last := reports[..n], reports[n];
      assert reports == front + [last];
      PartsAreApart(front);
      IndexSetAppend(front, last);
      assert last.index !in IndexSet(front);
      OneMoreReport(front, last);
      PartGrows(Stored(front), IndexSet(front), last, last.saved.Landed());
      PartGrows(Acknowledged(front), IndexSet(front), last, last.saved.Acked());
    }
  }

  function Below(n: nat): (s: set<nat>)
    ensures |s| == n && forall i: nat :: i in s <==> i < n
  {
    if n == 0 then {} else Below(n - 1) + {n - 1}
  }

  lemma SubsetOfEqualSize(a: set<nat>, b: set<nat>)
    requires a <= b
    ensures |a| <= |b|
    ensures |a| == |b| ==> a == b
  {
    assert b == a + (b - a);
    assert |b| == |a| + |b - a|;
  }

  // What is known of the reports of any schedule of the worker pool.
  lemma ReportsOfRun(total: nat, concurrency: nat, actions: seq<Action>)
    requires IsRun(Start(total, concurrency), actions)
    ensures var reports := Run(Start(total, concurrency), actions).reported;
            && Apart(Stored(reports)) && Apart(Acknowledged(reports))
            && IndexSet(Acknowledged(reports)) <= IndexSet(Stored(reports)) <= Below(total)
  {
    ReportedAtMostOnce(total, concurrency, actions);
    var reports := Run(Start(total, concurrency), actions).reported;
    PartsAreApart(reports);
    forall i | i in IndexSet(reports) ensures i in Below(total) {
      var k :| 0 <= k < |reports| && reports[k].index == i;
    }
  }

  /** At the end of every scan, cancelled or not, whatever failed: the counters
      fit into the acknowledged results, these into the stored rows, with
      equality if and only if no reply was lost, and those into the targets. */
  lemma CountersAreConsistent(total: nat, concurrency: nat, actions: seq<Action>)
    requires IsRun(Start(total, concurrency), actions)
    ensures var reports := Run(Start(total, concurrency), actions).reported;
            var counted, stored := Acknowledged(reports), Stored(reports);
            && Count(counted, Matched) + Count(counted, Mismatched) + Count(counted, NotInInventory) <= |counted|
            && |counted| <= |stored| <= total
            && (|counted| == |stored| <==> NoReplyLost(reports))
  {
    var reports := Run(Start(total, concurrency), actions).reported;
    ReportsOfRun(total, concurrency, actions);
    CountsFit(Acknowledged(reports));
    AcknowledgedIsStored(reports);
    SubsetOfEqualSize(IndexSet(Stored(reports)), Below(total));
  }

  // Occurrence i is among the results, exactly once.
  ghost predicate Once(results: seq<Report>, i: nat) {
    exists k :: && 0 <= k < |results| && results[k].index == i
                && forall j :: 0 <= j < |results| && results[j].index == i ==> j == k
  }

  lemma OnceIff(results: seq<Report>, i: nat)
    requires Apart(results)
    ensures Once(results, i) <==> i in IndexSet(results)
  {
    if i in IndexSet(results) {
      var k :| 0 <= k < |results| && results[k].index == i;
      forall j | 0 <= j < |results| && results[j].index == i ensures j == k {
      }
    }
  }

  lemma FullIff(results: seq<Report>, total: nat)
    requires Apart(results) && IndexSet(results) <= Below(total)
    ensures |results| >= total <==> forall i: nat :: i < total ==> Once(results, i)
  {
    SubsetOfEqualSize(IndexSet(results), Below(total));
    if |results| >= total {
      forall i: nat | i < total ensures Once(results, i) {
        OnceIff(results, i);
      }
    }
    if forall i: nat :: i < total ==> Once(results, i) {
      forall i | i in Below(total) ensures i in IndexSet(results) {
        OnceIff(results, i);
      }
      SubsetOfEqualSize(Below(total), IndexSet(results));
    }
  }

  /** "completed" means exactly that nobody cancelled and that every occurrence
      has one acknowledged result; then it also has exactly one stored row. */
  lemma CompletedIff(total: nat, concurrency: nat, actions: seq<Action>, canceled: bool)
    requires IsRun(Start(total, concurrency), actions)
    ensures var reports := Run(Start(total, concurrency), actions).reported;
            && (FinalStatus(reports, canceled, total) == Completed <==>
                  !canceled && forall i: nat :: i < total ==> Once(Acknowledged(reports), i))
            && (FinalStatus(reports, canceled, total) == Completed ==>
                  forall i: nat :: i < total ==> Once(Stored(reports), i))
  {
    var reports := Run(Start(total, concurrency), actions).reported;
    ReportsOfRun(total, concurrency, actions);
    AcknowledgedIsStored(reports);
    FullIff(Acknowledged(reports), total);
    FullIff(Stored(reports), total);
  }

  /** All rows can be there and the scan still be reported as partial: exactly
      when the reply to some insert was lost. */
  lemma PartialWithAllRowsIff(total: nat, concurrency: nat, actions: seq<Action>)
    requires IsRun(Start(total, concurrency), actions)
    requires forall i: nat :: i < total ==> Once(Stored(Run(Start(total, concurrency), actions).reported), i)
    ensures var reports := Run(Start(total, concurrency), actions).reported;
            FinalStatus(reports, false, total) == PartiallyCompleted <==> !NoReplyLost(reports)
  {
    ReportsOfRun(total, concurrency, actions);
    CountersAreConsistent(total, concurrency, actions);
    FullIff(Stored(Run(Start(total, concurrency), actions).reported), total);
  }

  lemma EndOfRun(total: nat, concurrency: nat, actions: seq<Action>, reports: seq<Report>, rows: seq<Report>, c: Counts)
    requires IsRun(Start(total, concurrency), actions) && reports == Run(Start(total, concurrency), actions).reported
    requires Describe(rows, c, reports)
    ensures c.matched + c.mismatched + c.added <= c.scanned <= |rows| <= total
    ensures c.scanned == |rows| <==> NoReplyLost(reports)
  {
    CountersAreConsistent(total, concurrency, actions);
  }

  /** A scan as it runs: the pool's reports reach the callback one by one, in
      the order of the mutex, and the job ends with these counters and status. */
  method RunScan(total: nat, ghost concurrency: nat, ghost actions: seq<Action>, reports: seq<Report>, canceled: bool,
                 last: Fault)
    returns (job: ScanJob)
    requires IsRun(Start(total, concurrency), actions) && reports == Run(Start(total, concurrency), actions).reported
    ensures fresh(job) && job.Valid() && job.seen == reports
    ensures job.matchedCount + job.mismatchCount + job.newCount <= job.scannedCount <= |job.results| <= total
    ensures job.scannedCount == |job.results| <==> NoReplyLost(reports)
    ensures job.status == Completed <==> !canceled && forall i: nat :: i < total ==> Once(Acknowledged(reports), i)
    ensures job.status == Canceled <==> canceled
    ensures job.rowStatus == if last.Landed() then job.status else Running
  {
    job := new ScanJob(total);
    job.OnResults(reports);
    assert job.seen == reports;
    job.Conclude(canceled, last);
    EndOfRun(total, concurrency, actions, reports, job.results, job.Counters());
    CompletedIff(total, concurrency, actions, canceled);
  }
}
