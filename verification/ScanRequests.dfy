// The bounds every scan request and every schedule is held to.
module ScanRequests {
  import opened Prelude
  import opened TargetExpansion

  const MAX_PORTS: nat := 32
  const MAX_CONCURRENCY := 64
  const DEFAULT_CONCURRENCY := 16
  const MIN_TIMEOUT_MS := 200
  const MAX_TIMEOUT_MS := 30000
  const DEFAULT_TIMEOUT_MS := 3000
  const DEFAULT_PORT := 443

  datatype Request = Request(name: string, targets: seq<Target>, ports: seq<int>, timeoutMs: int, concurrency: int)

  datatype Params = Params(ports: seq<int>, expanded: seq<Host>, timeoutMs: int, concurrency: int)

  datatype RequestError =
    | NameMissing
    | TargetsMissing
    | TooManyPorts
    | BadTargets(reason: ExpandError)
    | NothingToScan
    | BadTimeout

  // Which requests are accepted.
  ghost predicate Accepted(q: Request) {
    && q.name != "" && q.targets != [] && |q.ports| <= MAX_PORTS
    && Acceptable(AllHosts(q.targets)) && AllHosts(q.targets) != []
    && (q.timeoutMs == 0 || MIN_TIMEOUT_MS <= q.timeoutMs <= MAX_TIMEOUT_MS)
  }

  function Ports(q: Request): seq<int> { if q.ports == [] then [DEFAULT_PORT] else q.ports }

  function Timeout(q: Request): int { if q.timeoutMs == 0 then DEFAULT_TIMEOUT_MS else q.timeoutMs }

  // Out-of-range concurrency is clamped, not refused.
  function Concurrency(q: Request): int {
    if q.concurrency <= 0 then DEFAULT_CONCURRENCY
    else if q.concurrency > MAX_CONCURRENCY then MAX_CONCURRENCY
    else q.concurrency
  }

  ghost function Resolved(q: Request): Params {
    Params(Ports(q), AllHosts(q.targets), Timeout(q), Concurrency(q))
  }

  // Which complaint a refused request gets: the first in this order.
  ghost predicate Complaint(q: Request, e: RequestError) {
    var nameless, aimless := q.name == "", q.targets == [];
    var wide, bad := |q.ports| > MAX_PORTS, !Acceptable(AllHosts(q.targets));
    match e
    case NameMissing => nameless
    case TargetsMissing => !nameless && aimless
    case TooManyPorts => !nameless && !aimless && wide
    case BadTargets(reason) =>
      !nameless && !aimless && !wide && bad && (reason == LinkLocalTarget <==> ForbiddenFirst(AllHosts(q.targets)))
    case NothingToScan => !nameless && !aimless && !wide && AllHosts(q.targets) == []
    case BadTimeout => !nameless && !aimless && !wide && !bad && AllHosts(q.targets) != []
  }

  method ValidateScanParams(q: Request) returns (r: Result<Params, RequestError>)
    ensures r.Ok? <==> Accepted(q)
    ensures r.Ok? ==> r.value == Resolved(q)
    ensures r.Ok? ==>
              var v := r.value;
              && v.ports == (if q.ports == [] then [443] else q.ports)
              && v.timeoutMs == (if q.timeoutMs == 0 then 3000 else q.timeoutMs)
              && (1 <= q.concurrency <= 64 ==> v.concurrency == q.concurrency)
              && (q.concurrency <= 0 ==> v.concurrency == 16) && (q.concurrency > 64 ==> v.concurrency == 64)
    ensures r.Ok? ==> forall h :: h in r.value.expanded <==> AskedFor(q.targets, h)
    ensures r.Err? ==> Complaint(q, r.error)
  {
    forall h ensures h in AllHosts(q.targets) <==> AskedFor(q.targets, h) { InAllHosts(q.targets, h); }
    if q.name == "" { return Err(NameMissing); }
    if |q.targets| == 0 { return Err(TargetsMissing); }
    var ports := q.ports;
    if |ports| == 0 { ports := [DEFAULT_PORT]; }
    if |ports| > MAX_PORTS { return Err(TooManyPorts); }
    var expanded := ExpandTargets(q.targets);
    if expanded.Err? { return Err(BadTargets(expanded.error)); }
    if |expanded.value| == 0 { return Err(NothingToScan); }
    var timeoutMs := q.timeoutMs;
    if timeoutMs == 0 { timeoutMs := DEFAULT_TIMEOUT_MS; }
    if timeoutMs < MIN_TIMEOUT_MS || timeoutMs > MAX_TIMEOUT_MS { return Err(BadTimeout); }
    var concurrency := q.concurrency;
    if concurrency <= 0 { concurrency := DEFAULT_CONCURRENCY; }
    if concurrency > MAX_CONCURRENCY { concurrency := MAX_CONCURRENCY; }
    r := Ok(Params(ports, expanded.value, timeoutMs, concurrency));
  }

  // What a schedule stores of an accepted request, and fires again later.
  ghost function AsStored(q: Request): Request {
    q.(ports := Ports(q), timeoutMs := Timeout(q), concurrency := Concurrency(q))
  }

  /** A stored schedule fires the scan that was accepted: validating it again
      accepts it and resolves to the same ports, hosts and limits. */
  lemma StoredRequestIsStable(q: Request)
    requires Accepted(q)
    ensures Accepted(AsStored(q)) && Resolved(AsStored(q)) == Resolved(q) && AsStored(AsStored(q)) == AsStored(q)
  {
  }

  /** Every accepted scan is bounded and has work and workers. */
  lemma AcceptedIsBounded(q: Request)
    requires Accepted(q)
    ensures var p := Resolved(q);
            && 1 <= |p.ports| <= MAX_PORTS && 1 <= |p.expanded| <= MAX_TARGETS_EXPANDED
            && 1 <= p.concurrency <= MAX_CONCURRENCY
            && MIN_TIMEOUT_MS <= p.timeoutMs <= MAX_TIMEOUT_MS
            && 1 <= |p.expanded| * |p.ports| <= 640000
  {
    var p := Resolved(q);
    Product(|p.expanded|, |p.ports|);
  }

  lemma Product(a: nat, b: nat)
    requires 1 <= a <= 20000 && 1 <= b <= 32
    ensures 1 <= a * b <= 640000
  {
    assert a * b <= a * 32;
  }
}
