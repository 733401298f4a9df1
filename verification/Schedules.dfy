// One discovery schedule: a scheduler that sweeps, fires and records, racing
// any number of admins who edit the row.
module Schedules {
  import opened Prelude

  type Time = int                       // nanoseconds

  const MINUTE: int := 60 * 1_000_000_000
  const MIN_INTERVAL_MINUTES: int := 5
  const MAX_INTERVAL_MINUTES: int := 30 * 24 * 60

  // The columns an admin owns; `scan` stands for name, targets, ports, limits.
  datatype Config = Config(scan: string, intervalMinutes: int, enabled: bool)

  // The row: configuration and the scheduler's bookkeeping.
  datatype Row = Row(config: Config, lastRunAt: Option<Time>, lastScanId: string, nextRunAt: Time)

  predicate ValidInterval(c: Config) {
    MIN_INTERVAL_MINUTES <= c.intervalMinutes <= MAX_INTERVAL_MINUTES
  }

  datatype Scheduler =
    | Idle
    | Due(snapshot: Row)                       // the sweep found the row due
    | Fired(snapshot: Row, at: Time, scan: string)   // the scan is started, the run not yet recorded

  // An edit in progress: the row it has read, then the full row it will write
  // and when it took the time.
  datatype Edit = Read(row: Row) | Ready(row: Row, at: Time)

  datatype World = World(
    row: Row,
    clock: Time,
    scheduler: Scheduler,
    edits: map<nat, Edit>,
    fires: seq<Time>,             // when scans were started
    lastWrite: Config)            // the configuration of the last landed edit

  datatype Action =
    | Sweep(asOf: Time, t: Time)   // asks at t for what was due at asOf
    | Fire(t: Time, scan: string)
    | Record(fault: Fault)
    | Restart                      // the scheduler dies and comes back
    | ReadRow(admin: nat)
    | Prepare(admin: nat, config: Config, t: Time)
    | WriteEdit(admin: nat, fault: Fault)

  function Start(config: Config, t: Time): World {
    World(Row(config, None, "", t + config.intervalMinutes * MINUTE), t, Idle, map[], [], config)
  }

  // Time never runs backwards; an action that is not possible changes nothing.
  function Apply(w: World, a: Action): World {
    match a
    case Sweep(asOf, t) =>
      if t < w.clock || t < asOf || !w.scheduler.Idle? then w
      else w.(clock := t, scheduler := if w.row.config.enabled && w.row.nextRunAt <= asOf then Due(w.row) else Idle)
    case Fire(t, scan) =>
      if t < w.clock || !w.scheduler.Due? then w
      else w.(clock := t, scheduler := Fired(w.scheduler.snapshot, t, scan), fires := w.fires + [t])
    case Record(fault) =>
      if !w.scheduler.Fired? then w
      else
        var s := w.scheduler;
        var row := w.row.(lastRunAt := Some(s.at), lastScanId := s.scan,
                          nextRunAt := s.at + s.snapshot.config.intervalMinutes * MINUTE);
        if fault.Landed() then w.(scheduler := Idle, row := row) else w.(scheduler := Idle)
    case Restart => w.(scheduler := Idle)
    case ReadRow(admin) =>
      if admin in w.edits then w else w.(edits := w.edits[admin := Read(w.row)])
    case Prepare(admin, config, t) =>
      if t < w.clock || admin !in w.edits || !w.edits[admin].Read? then w
      else if !ValidInterval(config) then w.(edits := w.edits - {admin})
      else
        var row := w.edits[admin].row.(config := config, nextRunAt := t + config.intervalMinutes * MINUTE);
        w.(clock := t, edits := w.edits[admin := Ready(row, t)])
    case WriteEdit(admin, fault) =>
      if admin !in w.edits || !w.edits[admin].Ready? then w
      else
        var e := w.edits[admin];
        var w1 := w.(edits := w.edits - {admin});
        if !fault.Landed() then w1 else w1.(row := e.row, lastWrite := e.row.config)
  }

  function Run(w: World, actions: seq<Action>): World
    decreases |actions|
  {
    if actions == [] then w else Run(Apply(w, actions[0]), actions[1..])
  }

  // -------------------------------------------------------------- configuration

  /** The scheduler never touches the configuration: in every interleaving the
      row's is the one of the last edit that landed. */
  lemma {:induction false} ConfigIsLastWrite(w: World, actions: seq<Action>)
    requires w.row.config == w.lastWrite
    ensures Run(w, actions).row.config == Run(w, actions).lastWrite
    decreases |actions|
  {
    if actions == [] {
    } else {
      ConfigIsLastWrite(Apply(w, actions[0]), actions[1..]);
    }
  }

  // -------------------------------------------------------------------- spacing

  const GAP: int := MIN_INTERVAL_MINUTES * MINUTE

  function Last(w: World): Time
    requires w.fires != []
  {
    w.fires[|w.fires| - 1]
  }

  // A row that a sweep could find due within five minutes of the last fire.
  predicate Soon(w: World, row: Row) {
    w.fires != [] && w.clock < Last(w) + GAP && row.config.enabled && row.nextRunAt < Last(w) + GAP
  }

  // A step that leaves such a row behind: a run that is not recorded, or an
  // edit that lands after a fire it did not reckon with.
  predicate Slip(w: World, a: Action) {
    match a
    case Record(fault) => w.scheduler.Fired? && !fault.Landed() && Soon(w, w.row)
    case Restart => w.scheduler.Fired? && Soon(w, w.row)
    case WriteEdit(admin, fault) =>
      fault.Landed() && !w.scheduler.Fired? && admin in w.edits && w.edits[admin].Ready? && Soon(w, w.edits[admin].row)
    case _ => false
  }

  function Slips(w: World, actions: seq<Action>): nat
    decreases |actions|
  {
    if actions == [] then 0
    else (if Slip(w, actions[0]) then 1 else 0) + Slips(Apply(w, actions[0]), actions[1..])
  }

  // How many neighbouring fires are closer than five minutes.
  function ShortGaps(fires: seq<Time>): nat {
    if |fires| < 2 then 0
    else ShortGaps(fires[..|fires| - 1]) + (if fires[|fires| - 1] - fires[|fires| - 2] < GAP then 1 else 0)
  }

  // What holds of the parts of a reachable world.
  ghost predicate Shape(w: World) {
    && ValidInterval(w.row.config)
    && (w.scheduler.Due? || w.scheduler.Fired? ==> ValidInterval(w.scheduler.snapshot.config))
    && (forall a :: a in w.edits && w.edits[a].Ready? ==>
          && ValidInterval(w.edits[a].row.config) && w.edits[a].at <= w.clock
          && w.edits[a].row.nextRunAt == w.edits[a].at + w.edits[a].row.config.intervalMinutes * MINUTE)
    && (forall i :: 0 <= i < |w.fires| ==> w.fires[i] <= w.clock)
    && (w.scheduler.Fired? ==> w.fires != [] && w.scheduler.at == Last(w))
  }

  // Short gaps are paid for by slips, and a coming one is paid for already.
  ghost predicate Spaced(w: World, slips: nat) {
    && ShortGaps(w.fires) <= slips
    && (w.fires != [] ==>
          && (!w.scheduler.Fired? && Soon(w, w.row) ==> ShortGaps(w.fires) < slips)
          && (w.scheduler.Due? && w.clock < Last(w) + GAP ==> ShortGaps(w.fires) < slips))
  }

  lemma IntervalIsAGap(c: Config)
    requires ValidInterval(c)
    ensures c.intervalMinutes * MINUTE >= GAP
  {
  }

  lemma ShapeStep(w: World, a: Action)
    requires Shape(w)
    ensures Shape(Apply(w, a))
  {
  }

  lemma OneMoreFire(fires: seq<Time>, t: Time)
    ensures ShortGaps(fires + [t]) ==
            ShortGaps(fires) + (if fires != [] && t - fires[|fires| - 1] < GAP then 1 else 0)
  {
    assert (fires + [t])[..|fires|] == fires;
  }

  lemma SweepSpaced(w: World, asOf: Time, t: Time, slips: nat)
    requires Shape(w) && Spaced(w, slips)
    ensures Spaced(Apply(w, Sweep(asOf, t)), slips)
  {
  }

  lemma FireSpaced(w: World, t: Time, scan: string, slips: nat)
    requires Shape(w) && Spaced(w, slips)
    ensures Spaced(Apply(w, Fire(t, scan)), slips)
  {
    OneMoreFire(w.fires, t);
  }

  lemma RecordSpaced(w: World, fault: Fault, slips: nat)
    requires Shape(w) && Spaced(w, slips)
    ensures Spaced(Apply(w, Record(fault)), slips + if Slip(w, Record(fault)) then 1 else 0)
  {
    if w.scheduler.Fired? { IntervalIsAGap(w.scheduler.snapshot.config); }
  }

  lemma RestartSpaced(w: World, slips: nat)
    requires Shape(w) && Spaced(w, slips)
    ensures Spaced(Apply(w, Restart), slips + if Slip(w, Restart) then 1 else 0)
  {
  }

  lemma PrepareSpaced(w: World, admin: nat, config: Config, t: Time, slips: nat)
    requires Shape(w) && Spaced(w, slips)
    ensures Spaced(Apply(w, Prepare(admin, config, t)), slips)
  {
  }

  lemma WriteSpaced(w: World, admin: nat, fault: Fault, slips: nat)
    requires Shape(w) && Spaced(w, slips)
    ensures Spaced(Apply(w, WriteEdit(admin, fault)), slips + if Slip(w, WriteEdit(admin, fault)) then 1 else 0)
  {
  }

  lemma SpacedStep(w: World, a: Action, slips: nat)
    requires Shape(w) && Spaced(w, slips)
    ensures Spaced(Apply(w, a), slips + if Slip(w, a) then 1 else 0)
  {
    match a
    case Sweep(asOf, t) => SweepSpaced(w, asOf, t, slips);
    case Fire(t, scan) => FireSpaced(w, t, scan, slips);
    case Record(fault) => RecordSpaced(w, fault, slips);
    case Restart => RestartSpaced(w, slips);
    case ReadRow(_) =>
    case Prepare(admin, config, t) => PrepareSpaced(w, admin, config, t, slips);
    case WriteEdit(admin, fault) => WriteSpaced(w, admin, fault, slips);
  }

  lemma {:induction false} InvRun(w: World, actions: seq<Action>, slips: nat)
    requires Shape(w) && Spaced(w, slips)
    ensures Shape(Run(w, actions)) && Spaced(Run(w, actions), slips + Slips(w, actions))
    decreases |actions|
  {
    if actions == [] {
    } else {
      ShapeStep(w, actions[0]);
      SpacedStep(w, actions[0], slips);
      InvRun(Apply(w, actions[0]), actions[1..], slips + if Slip(w, actions[0]) then 1 else 0);
    }
  }

  lemma {:induction false} GapsAddUp(fires: seq<Time>, i: nat, j: nat)
    requires i <= j < |fires| && forall k :: 0 < k < |fires| ==> fires[k - 1] <= fires[k]
    ensures (j - i - ShortGaps(fires)) * GAP <= fires[j] - fires[i]
    decreases |fires|
  {
    var n := |fires| - 1;
    if i == j {
      FewerGaps(j - i - ShortGaps(fires), 0);
    } else {
      var front := fires[..n];
      if j < n {
        GapsAddUp(front, i, j);
        FewerGaps(j - i - ShortGaps(fires), j - i - ShortGaps(front));
      } else {
        GapsAddUp(front, i, j - 1);
      }
    }
  }

  lemma FewerGaps(a: int, b: int)
    requires a <= b
    ensures a * GAP <= b * GAP
  {
  }

  ghost predicate Ordered(fires: seq<Time>) {
    forall k :: 0 < k < |fires| ==> fires[k - 1] <= fires[k]
  }

  lemma FiresInOrderStep(w: World, a: Action)
    requires Ordered(w.fires) && (w.fires != [] ==> Last(w) <= w.clock)
    ensures var w' := Apply(w, a);
            w.fires <= w'.fires && Ordered(w'.fires) && (w'.fires != [] ==> Last(w') <= w'.clock)
  {
  }

  lemma {:induction false} FiresInOrder(w: World, actions: seq<Action>)
    requires Ordered(w.fires) && (w.fires != [] ==> Last(w) <= w.clock)
    ensures w.fires <= Run(w, actions).fires && Ordered(Run(w, actions).fires)
    decreases |actions|
  {
    if actions == [] {
    } else {
      FiresInOrderStep(w, actions[0]);
      FiresInOrder(Apply(w, actions[0]), actions[1..]);
    }
  }

  /** In any window from fire i to fire j of any run, with any interleaving of
      edits: fires come at least five minutes apart, save for one extra fire per
      slip. */
  lemma FiresAreSpaced(config: Config, t: Time, actions: seq<Action>, i: nat, j: nat)
    requires ValidInterval(config) && i <= j < |Run(Start(config, t), actions).fires|
    ensures var fires := Run(Start(config, t), actions).fires;
            (j - i - Slips(Start(config, t), actions)) * GAP <= fires[j] - fires[i]
  {
    InvRun(Start(config, t), actions, 0);
    FiresInOrder(Start(config, t), actions);
    var fires := Run(Start(config, t), actions).fires;
    GapsAddUp(fires, i, j);
    FewerGaps(j - i - Slips(Start(config, t), actions), j - i - ShortGaps(fires));
  }

  // No step of the run slips; each can be looked at before it is taken.
  predicate Punctual(w: World, actions: seq<Action>)
    decreases |actions|
  {
    actions == [] || (!Slip(w, actions[0]) && Punctual(Apply(w, actions[0]), actions[1..]))
  }

  lemma {:induction false} PunctualHasNoSlips(w: World, actions: seq<Action>)
    ensures Punctual(w, actions) <==> Slips(w, actions) == 0
    decreases |actions|
  {
    if actions == [] {
    } else {
      PunctualHasNoSlips(Apply(w, actions[0]), actions[1..]);
    }
  }

  /** Without slips there are no more fires in a window than one plus the
      window's length in units of five minutes. */
  lemma RateBound(config: Config, t: Time, actions: seq<Action>, i: nat, j: nat)
    requires ValidInterval(config) && i <= j < |Run(Start(config, t), actions).fires|
    requires Punctual(Start(config, t), actions)
    ensures var fires := Run(Start(config, t), actions).fires;
            j - i + 1 <= 1 + (fires[j] - fires[i]) / GAP
  {
    FiresAreSpaced(config, t, actions, i, j);
    PunctualHasNoSlips(Start(config, t), actions);
    var fires := Run(Start(config, t), actions).fires;
    Quotient(j - i, fires[j] - fires[i]);
  }

  lemma Quotient(n: nat, d: int)
    requires n * GAP <= d
    ensures n <= d / GAP
  {
  }

  // ------------------------------------------------- exactly when a fire is early

  // Only steps that go as intended: no run unrecorded, no restart.
  predicate Allowed(actions: seq<Action>, faults: bool) {
    faults || forall a :: a in actions ==> !a.Restart? && (a.Record? ==> a.fault.Landed())
  }

  ghost predicate FiresEarly(w: World, w': World)
    requires w.fires != []
  {
    |w'.fires| > |w.fires| && w'.fires[|w.fires|] < Last(w) + GAP
  }

  ghost predicate EarlyEdit(w: World, admin: nat)
    requires w.fires != []
  {
    && admin in w.edits && w.edits[admin].Ready?
    && w.edits[admin].row.config.enabled && w.edits[admin].row.nextRunAt < Last(w) + GAP
  }

  // The row, an edit that is ready to be written, or a sweep that has begun
  // leaves room for a fire within five minutes of the last one.
  ghost predicate CanFireEarly(w: World, faults: bool)
    requires w.fires != []
  {
    && w.clock < Last(w) + GAP
    && (|| w.scheduler.Due?
        || (Soon(w, w.row) && (faults || !w.scheduler.Fired?))
        || exists admin :: EarlyEdit(w, admin))
  }

  lemma {:induction false} RunAppend(w: World, a: seq<Action>, b: seq<Action>)
    ensures Run(w, a + b) == Run(Run(w, a), b)
    decreases |a|
  {
    if a == [] {
      assert a + b == b;
    } else {
      assert (a + b)[0] == a[0] && (a + b)[1..] == a[1..] + b;
      RunAppend(Apply(w, a[0]), a[1..], b);
    }
  }

  lemma RunOne(w: World, a: Action)
    ensures Run(w, [a]) == Apply(w, a)
  {
    assert [a][1..] == [];
  }

  lemma RunTwo(w: World, a: Action, b: Action)
    ensures Run(w, [a] + [b]) == Apply(Apply(w, a), b)
  {
    RunAppend(w, [a], [b]);
    RunOne(w, a);
    RunOne(Apply(w, a), b);
  }

  lemma DueRowFires(w: World, t: Time)
    requires w.scheduler.Idle? && w.row.config.enabled && w.row.nextRunAt <= t && w.clock <= t
    ensures Run(w, [Sweep(t, t)] + [Fire(t, "")]) ==
            w.(clock := t, scheduler := Fired(w.row, t, ""), fires := w.fires + [t])
  {
    RunTwo(w, Sweep(t, t), Fire(t, ""));
  }

  // A first step that keeps the fires, and then a continuation that fires early.
  lemma StepThenEarly(w: World, a: Action, rest: seq<Action>, faults: bool)
    requires w.fires != [] && Apply(w, a).fires == w.fires && FiresEarly(Apply(w, a), Run(Apply(w, a), rest))
    requires Allowed([a], faults) && Allowed(rest, faults)
    ensures FiresEarly(w, Run(w, [a] + rest)) && Allowed([a] + rest, faults)
  {
    RunAppend(w, [a], rest);
    RunOne(w, a);
    assert a in [a];
  }

  lemma EarlyContinuation(w: World, faults: bool) returns (next: seq<Action>)
    requires Shape(w) && w.fires != [] && CanFireEarly(w, faults)
    ensures Allowed(next, faults) && FiresEarly(w, Run(w, next))
    decreases if w.scheduler.Fired? then 2 else if w.scheduler.Idle? && !Soon(w, w.row) then 1 else 0
  {
    if w.scheduler.Due? {
      next := [Fire(w.clock, "")];
      RunOne(w, next[0]);
    } else if w.scheduler.Fired? {
      var a := if exists admin :: EarlyEdit(w, admin) then Record(Done) else Restart;
      if exists admin :: EarlyEdit(w, admin) {
        var admin :| EarlyEdit(w, admin);
        assert EarlyEdit(Apply(w, a), admin);
      }
      ShapeStep(w, a);
      var rest := EarlyContinuation(Apply(w, a), faults);
      StepThenEarly(w, a, rest, faults);
      next := [a] + rest;
    } else if Soon(w, w.row) {
      var t := if w.row.nextRunAt <= w.clock then w.clock else w.row.nextRunAt;
      next := [Sweep(t, t)] + [Fire(t, "")];
      DueRowFires(w, t);
    } else {
      var admin :| EarlyEdit(w, admin);
      var a := WriteEdit(admin, Done);
      ShapeStep(w, a);
      var rest := EarlyContinuation(Apply(w, a), faults);
      StepThenEarly(w, a, rest, faults);
      next := [a] + rest;
    }
  }

  // A step that goes as intended does not open the way to an early fire.
  lemma StaysSafe(w: World, a: Action, faults: bool)
    requires Shape(w) && w.fires != [] && !CanFireEarly(w, faults) && Allowed([a], faults)
    ensures var w' := Apply(w, a);
            if w'.fires == w.fires then !CanFireEarly(w', faults)
            else w'.fires == w.fires + [w'.clock] && w'.clock >= Last(w) + GAP
  {
    var w' := Apply(w, a);
    assert a in [a];
    if a.Record? && w.scheduler.Fired? { IntervalIsAGap(w.scheduler.snapshot.config); }
    if a.Prepare? && ValidInterval(a.config) { IntervalIsAGap(a.config); }
    if w'.fires == w.fires {
      if a.WriteEdit? { assert !EarlyEdit(w, a.admin) || w.clock >= Last(w) + GAP; }
      forall admin ensures EarlyEdit(w', admin) ==> EarlyEdit(w, admin) || w.clock >= Last(w) + GAP {
      }
    }
  }

  lemma {:induction false} NeverEarly(w: World, next: seq<Action>, faults: bool)
    requires Shape(w) && Ordered(w.fires) && w.fires != [] && !CanFireEarly(w, faults) && Allowed(next, faults)
    ensures !FiresEarly(w, Run(w, next))
    decreases |next|
  {
    if next == [] {
    } else {
      var w1 := Apply(w, next[0]);
      StaysSafe(w, next[0], faults);
      ShapeStep(w, next[0]);
      if w1.fires == w.fires {
        NeverEarly(w1, next[1..], faults);
      } else {
        FiresInOrder(w1, next[1..]);
        assert Run(w, next).fires[|w.fires|] == w1.fires[|w.fires|];
      }
    }
  }

  /** In every reachable world, whatever the scheduler and the admins are doing:
      the next fire can come within five minutes of the last one if and only if
      that time has not passed and the row, a prepared edit or a begun sweep
      allows it. With `faults` every continuation counts, without it only those
      that record their runs and do not restart. */
  lemma EarlyFireIff(config: Config, t: Time, past: seq<Action>, faults: bool)
    requires ValidInterval(config) && Run(Start(config, t), past).fires != []
    ensures var w := Run(Start(config, t), past);
            CanFireEarly(w, faults) <==> exists next :: Allowed(next, faults) && FiresEarly(w, Run(w, next))
  {
    InvRun(Start(config, t), past, 0);
    FiresInOrder(Start(config, t), past);
    var w := Run(Start(config, t), past);
    if CanFireEarly(w, faults) {
      var next := EarlyContinuation(w, faults);
    } else {
      forall next | Allowed(next, faults) ensures !FiresEarly(w, Run(w, next)) {
        NeverEarly(w, next, faults);
      }
    }
  }

  // -------------------------------------------------------- the guard is exact

  // From w on, without a slip, two fires can come less than five minutes apart.
  ghost predicate CanBreakSpacing(w: World) {
    exists rest :: Punctual(w, rest) && ShortGaps(Run(w, rest).fires) > 0
  }

  // The next sweep that finds the row due, and its fire.
  lemma SweptRowFires(w: World, t: Time) returns (rest: seq<Action>)
    requires w.scheduler.Idle? && w.row.config.enabled && w.row.nextRunAt <= t && w.clock <= t
    ensures Punctual(w, rest) && Run(w, rest).fires == w.fires + [t]
  {
    rest := [Sweep(t, t)] + [Fire(t, "")];
    DueRowFires(w, t);
    assert rest[1..] == [Fire(t, "")] && rest[1..][1..] == [];
  }

  lemma SlipIsFollowedByAFire(w: World, a: Action) returns (rest: seq<Action>)
    requires Shape(w) && Slip(w, a)
    ensures Punctual(Apply(w, a), rest) && ShortGaps(Run(Apply(w, a), rest).fires) > 0
  {
    var w1 := Apply(w, a);
    if w1.scheduler.Due? {
      rest := [Fire(w1.clock, "")];
      RunOne(w1, rest[0]);
      OneMoreFire(w1.fires, w1.clock);
    } else {
      var t := if w1.row.nextRunAt <= w1.clock then w1.clock else w1.row.nextRunAt;
      rest := SweptRowFires(w1, t);
      OneMoreFire(w1.fires, t);
    }
  }

  /** The guard on steps is exact. After a run without slips, taking step a can
      be followed by fires too close to each other, although nothing slips any
      more, if and only if a slips. */
  lemma SlipIff(config: Config, t: Time, past: seq<Action>, a: Action)
    requires ValidInterval(config) && Punctual(Start(config, t), past)
    ensures var w := Run(Start(config, t), past); Slip(w, a) <==> CanBreakSpacing(Apply(w, a))
  {
    InvRun(Start(config, t), past, 0);
    PunctualHasNoSlips(Start(config, t), past);
    var w := Run(Start(config, t), past);
    if Slip(w, a) {
      var rest := SlipIsFollowedByAFire(w, a);
      assert Punctual(Apply(w, a), rest);
    } else {
      ShapeStep(w, a);
      SpacedStep(w, a, 0);
      forall rest | Punctual(Apply(w, a), rest) ensures ShortGaps(Run(Apply(w, a), rest).fires) == 0 {
        InvRun(Apply(w, a), rest, 0);
        PunctualHasNoSlips(Apply(w, a), rest);
      }
    }
  }

  // -------------------------------------------------------------- the interval

  // No edit lands, no run stays unrecorded and the scheduler does not restart.
  predicate Undisturbed(actions: seq<Action>) {
    forall a :: a in actions ==>
      !a.Restart? && (a.Record? ==> a.fault.Landed()) && (a.WriteEdit? ==> !a.fault.Landed())
  }

  // The last fire, or the moment the schedule was set up.
  function Base(w: World, start: Time): Time {
    if w.fires == [] then start else Last(w)
  }

  ghost predicate OnInterval(w: World, config: Config, start: Time) {
    && w.row.config == config
    && (w.scheduler.Due? || w.scheduler.Fired? ==> w.scheduler.snapshot.config == config)
    && (if w.scheduler.Fired? then w.fires != [] && w.scheduler.at == Last(w)
        else w.row.nextRunAt == Base(w, start) + config.intervalMinutes * MINUTE)
  }

  lemma OnIntervalStep(w: World, a: Action, config: Config, start: Time)
    requires OnInterval(w, config, start) && Undisturbed([a])
    ensures OnInterval(Apply(w, a), config, start)
  {
    assert a in [a];
  }

  lemma {:induction false} OnIntervalRun(w: World, actions: seq<Action>, config: Config, start: Time)
    requires OnInterval(w, config, start) && Undisturbed(actions)
    ensures OnInterval(Run(w, actions), config, start)
    decreases |actions|
  {
    if actions != [] {
      OnIntervalStep(w, actions[0], config, start);
      OnIntervalRun(Apply(w, actions[0]), actions[1..], config, start);
    }
  }

  /** Undisturbed, a sweep finds the schedule due exactly when it is enabled and
      its interval has passed since the last fire. */
  lemma DueIff(config: Config, start: Time, past: seq<Action>, asOf: Time, t: Time)
    requires Undisturbed(past) && asOf <= t
    requires var w := Run(Start(config, start), past); w.scheduler.Idle? && w.clock <= t
    ensures var w := Run(Start(config, start), past);
            Apply(w, Sweep(asOf, t)).scheduler.Due? <==>
            config.enabled && asOf >= Base(w, start) + config.intervalMinutes * MINUTE
  {
    OnIntervalRun(Start(config, start), past, config, start);
  }

  // ------------------------------------------------------------------ witnesses

  lemma EditIsPrepared(w: World, c: Config, t: Time)
    requires w.edits == map[] && ValidInterval(c) && w.clock <= t
    ensures Run(w, [ReadRow(0)] + [Prepare(0, c, t)]) ==
            var row := w.row.(config := c, nextRunAt := t + c.intervalMinutes * MINUTE);
            w.(clock := t, edits := map[0 := Ready(row, t)])
  {
    RunTwo(w, ReadRow(0), Prepare(0, c, t));
  }

  lemma OldEditLands(w: World, e: Edit)
    requires w.scheduler.Fired? && w.edits == map[0 := e] && e.Ready?
    ensures var w' := Run(w, [Record(Done)] + [WriteEdit(0, Done)]);
            w'.row == e.row && w'.scheduler.Idle? && w'.fires == w.fires && w'.clock == w.clock
  {
    RunTwo(w, Record(Done), WriteEdit(0, Done));
  }

  /** An edit that took its time before a fire and lands after it makes the
      schedule fire again one minute later, though every run is recorded. */
  lemma OvertakenEditShortensGap()
    ensures var c := Config("", 5, true);
            var edit, fire := [ReadRow(0)] + [Prepare(0, c, 0)],
              [Sweep(4 * MINUTE, 4 * MINUTE)] + [Fire(4 * MINUTE, "")];
            var land, again := [Record(Done)] + [WriteEdit(0, Done)],
              [Sweep(5 * MINUTE, 5 * MINUTE)] + [Fire(5 * MINUTE, "")];
            Run(Start(c, -MINUTE), edit + (fire + (land + again))).fires == [4 * MINUTE, 5 * MINUTE]
  {
    var c := Config("", 5, true);
    var edit, fire := [ReadRow(0)] + [Prepare(0, c, 0)], [Sweep(4 * MINUTE, 4 * MINUTE)] + [Fire(4 * MINUTE, "")];
    var land, again := [Record(Done)] + [WriteEdit(0, Done)], [Sweep(5 * MINUTE, 5 * MINUTE)] + [Fire(5 * MINUTE, "")];
    var w0 := Start(c, -MINUTE);
    RunAppend(w0, edit, fire + (land + again));
    EditIsPrepared(w0, c, 0);
    var w1 := Run(w0, edit);
    RunAppend(w1, fire, land + again);
    DueRowFires(w1, 4 * MINUTE);
    var w2 := Run(w1, fire);
    RunAppend(w2, land, again);
    OldEditLands(w2, w1.edits[0]);
    DueRowFires(Run(w2, land), 5 * MINUTE);
  }

  /** And a run that is not recorded is fired again by the next sweep. */
  lemma UnrecordedRunFiresAgain()
    ensures var c := Config("", 5, true);
            var fire, again := [Sweep(5 * MINUTE, 5 * MINUTE)] + [Fire(5 * MINUTE, "")],
              [Sweep(6 * MINUTE, 6 * MINUTE)] + [Fire(6 * MINUTE, "")];
            Run(Start(c, 0), fire + ([Record(Rejected)] + again)).fires == [5 * MINUTE, 6 * MINUTE]
  {
    var c := Config("", 5, true);
    var fire, again := [Sweep(5 * MINUTE, 5 * MINUTE)] + [Fire(5 * MINUTE, "")],
      [Sweep(6 * MINUTE, 6 * MINUTE)] + [Fire(6 * MINUTE, "")];
    var w0 := Start(c, 0);
    RunAppend(w0, fire, [Record(Rejected)] + again);
    DueRowFires(w0, 5 * MINUTE);
    var w1 := Run(w0, fire);
    RunAppend(w1, [Record(Rejected)], again);
    RunOne(w1, Record(Rejected));
    DueRowFires(Apply(w1, Record(Rejected)), 6 * MINUTE);
  }

  // ------------------------------------------------------------------ the service

  class Service {
    var row: Row
    ghost var world: World

    ghost predicate Valid()
      reads this
    {
      world.row == row
    }

    constructor (config: Config, t: Time)
      ensures Valid() && world == Start(config, t)
      ensures row.config == config && row.nextRunAt == t + config.intervalMinutes * MINUTE && row.lastRunAt == None
    {
      row := Row(config, None, "", t + config.intervalMinutes * MINUTE);
      world := Start(config, t);
    }

    /** Writes the scheduler's columns and no other. */
    method RecordScheduleRun(at: Time, nextRunAt: Time, scan: string, fault: Fault)
      modifies `row
      ensures row == if fault.Landed()
              then old(row).(lastRunAt := Some(at), lastScanId := scan, nextRunAt := nextRunAt) else old(row)
    {
      if fault.Landed() {
        row := Row(row.config, Some(at), scan, nextRunAt);
      }
    }

    /** Reschedules whether or not the scan could be started. */
    method FireSchedule(snapshot: Row, t: Time, started: Option<string>, fault: Fault)
      requires Valid() && world.scheduler == Due(snapshot) && t >= world.clock
      modifies this
      ensures Valid()
      ensures var scan := if started.Some? then started.value else "";
              world == Apply(Apply(old(world), Fire(t, scan)), Record(fault))
      ensures world.fires == old(world.fires) + [t] && row.config == old(row.config)
      ensures fault.Landed() ==>
                && row.nextRunAt == t + snapshot.config.intervalMinutes * MINUTE && row.lastRunAt == Some(t)
                && row.lastScanId == if started.Some? then started.value else ""
      ensures !fault.Landed() ==> row == old(row)
    {
      var nextRunAt := t + snapshot.config.intervalMinutes * MINUTE;
      var lastScanId := "";
      if started.Some? {
        lastScanId := started.value;
      }
      RecordScheduleRun(t, nextRunAt, lastScanId, fault);
      world := Apply(Apply(world, Fire(t, lastScanId)), Record(fault));
    }

    /** A sweep; if the due schedules cannot be listed, nothing happens. */
    method RunDueSchedules(asOf: Time, ghost askedAt: Time, listed: bool, t: Time, started: Option<string>,
                           fault: Fault)
      requires Valid() && world.scheduler.Idle? && asOf <= askedAt && world.clock <= askedAt <= t
      modifies this
      ensures Valid()
      ensures var scan := if started.Some? then started.value else "";
              world == if listed then Apply(Apply(Apply(old(world), Sweep(asOf, askedAt)), Fire(t, scan)),
                Record(fault))
                       else old(world)
      ensures row.config == old(row.config)
      ensures var due := listed && old(row).config.enabled && old(row).nextRunAt <= asOf;
              && world.fires == (if due then old(world.fires) + [t] else old(world.fires))
              && (if due && fault.Landed()
                  then && row.nextRunAt == t + old(row).config.intervalMinutes * MINUTE && row.lastRunAt == Some(t)
                       && row.lastScanId == (if started.Some? then started.value else "")
                  else row == old(row))
    {
      if !listed { return; }
      var due := row.config.enabled && row.nextRunAt <= asOf;
      world := Apply(world, Sweep(asOf, askedAt));
      if due {
        FireSchedule(row, t, started, fault);
      }
    }

    /** An edit that nothing overtakes. It is refused, and changes nothing, if
        the row cannot be read, the scan request is not acceptable (`valid`) or
        the interval is out of bounds. */
    method UpdateSchedule(ghost admin: nat, found: bool, valid: bool, config: Config, t: Time,
                          fault: Fault) returns (ok: bool)
      requires Valid() && t >= world.clock && admin !in world.edits
      modifies this
      ensures Valid() && ok == (found && valid && ValidInterval(config) && fault.Acked())
      ensures world == if found && valid && ValidInterval(config)
                       then Apply(Apply(Apply(old(world), ReadRow(admin)), Prepare(admin, config, t)),
                         WriteEdit(admin, fault))
                       else old(world)
      ensures row == if found && valid && ValidInterval(config) && fault.Landed()
                     then old(row).(config := config, nextRunAt := t + config.intervalMinutes * MINUTE) else old(row)
    {
      if !found || !valid { return false; }
      if config.intervalMinutes < MIN_INTERVAL_MINUTES || config.intervalMinutes > MAX_INTERVAL_MINUTES {
        return false;
      }
      var existing := row;
      existing := existing.(config := config, nextRunAt := t + config.intervalMinutes * MINUTE);
      if fault.Landed() {
        row := existing;
      }
      world := Apply(Apply(Apply(world, ReadRow(admin)), Prepare(admin, config, t)), WriteEdit(admin, fault));
      ok := fault.Acked();
    }
  }
}
