// Logins of one account that overlap: each reads the row, looks at the lock it
// has read, compares the password, and overwrites counter and lock with what it
// makes of its reading.
module LoginOverlap {
  import opened Prelude
  import L = LoginLockout

  type Time = L.Time

  // The last kind stands for every counter at which a failure locks.
  const KINDS: nat := 6

  function Kind(attempts: nat): (b: nat)
    ensures b < KINDS
  {
    if attempts < 5 then attempts else 5
  }

  // A login under way, before and after it has looked at the lock.
  datatype Seat =
    | Reading(seen: L.Stored)
    | Comparing(attempts: nat, since: Time)
  {
    function Counter(): nat {
      if Reading? then seen.failedLoginAttempts else attempts
    }
  }

  // A stretch is the time between two updates of the row. Per kind of counter:
  // the logins that have read it, the passwords compared by them, the stretches
  // begun with it and the updates lost in them. Time from the start on is cut
  // into windows as long as a lockout; veterans are the logins that were under way
  // when the present window began.
  datatype World = World(
    row: L.Stored,
    seats: map<nat, Seat>,
    recent: set<nat>,             // those that have read the row as it is
    clock: Time,
    entered: seq<nat>,
    compared: seq<nat>,
    stretches: seq<nat>,
    lost: seq<nat>,
    windows: nat,
    windowStart: Time,                 // the beginning of the present window
    veterans: set<nat>)

  // lockedAt is the moment the new lock counts from, now that of the update.
  datatype Action =
    | Enter(i: nat)
    | Look(i: nat, now: Time)
    | Update(i: nat, lockedAt: Time, now: Time, fault: Fault)

  const NONE: seq<nat> := [0, 0, 0, 0, 0, 0]

  function Start(t: Time): World {
    World(L.Stored(0, None), map[], {}, t, NONE, NONE, [1, 0, 0, 0, 0, 0], NONE, 0, t, {})
  }

  predicate Shape(w: World) {
    |w.entered| == |w.compared| == |w.stretches| == |w.lost| == KINDS
  }

  function Plus(s: seq<nat>, b: nat): (t: seq<nat>)
    requires b < |s|
  {
    s[b := s[b] + 1]
  }

  function Tick(w: World, now: Time): World
    requires w.windowStart <= now
  {
    if now < w.windowStart + L.LOCKOUT then w.(clock := now)
    else
      var n := (now - w.windowStart) / L.LOCKOUT;
      w.(clock := now, windows := w.windows + n, windowStart := w.windowStart + n * L.LOCKOUT, veterans := w.seats.Keys)
  }

  function Entered(w: World, i: nat): World
    requires Shape(w)
  {
    w.(seats := w.seats[i := Reading(w.row)], recent := w.recent + {i},
       entered := Plus(w.entered, Kind(w.row.failedLoginAttempts)))
  }

  function Left(w: World, i: nat): World {
    w.(seats := w.seats - {i}, recent := w.recent - {i}, veterans := w.veterans - {i})
  }

  function Compared(w: World, i: nat, attempts: nat): World
    requires Shape(w)
  {
    w.(seats := w.seats[i := Comparing(attempts, w.clock)], compared := Plus(w.compared, Kind(attempts)))
  }

  function Written(w: World, i: nat, attempts: nat, lockedAt: Time): World
    requires Shape(w)
  {
    var until := if attempts >= L.MAX_FAILED_LOGINS then Some(lockedAt + L.LOCKOUT) else None;
    Left(w, i).(recent := {}, row := L.Stored(attempts, until), stretches := Plus(w.stretches, Kind(attempts)))
  }

  function Unwritten(w: World, i: nat): World
    requires Shape(w)
  {
    Left(w, i).(lost := Plus(w.lost, Kind(w.row.failedLoginAttempts)))
  }

  predicate CanEnter(limit: nat, w: World, i: nat) {
    i !in w.seats && |w.seats| < limit
  }

  predicate CanLook(w: World, i: nat, now: Time) {
    w.clock <= now && w.windowStart <= now && i in w.seats && w.seats[i].Reading?
  }

  predicate CanUpdate(w: World, i: nat, lockedAt: Time, now: Time) {
    && w.clock <= now && w.windowStart <= now
    && i in w.seats && w.seats[i].Comparing? && w.seats[i].since <= lockedAt <= now
  }

  function Looked(w: World, i: nat): World
    requires Shape(w) && i in w.seats && w.seats[i].Reading?
  {
    if L.IsLocked(w.seats[i].seen, w.clock) then Left(w, i)
    else Compared(w, i, w.seats[i].seen.failedLoginAttempts)
  }

  function Updated(w: World, i: nat, lockedAt: Time, fault: Fault): World
    requires Shape(w) && i in w.seats && w.seats[i].Comparing?
  {
    if fault.Landed() then Written(w, i, w.seats[i].attempts + 1, lockedAt) else Unwritten(w, i)
  }

  // At most `limit` logins are under way; an impossible action changes nothing.
  function Apply(limit: nat, w: World, a: Action): (w': World)
    requires Shape(w)
    ensures Shape(w')
  {
    match a
    case Enter(i) => if CanEnter(limit, w, i) then Entered(w, i) else w
    case Look(i, now) => if CanLook(w, i, now) then Looked(Tick(w, now), i) else w
    case Update(i, lockedAt, now, fault) =>
      if CanUpdate(w, i, lockedAt, now) then Updated(Tick(w, now), i, lockedAt, fault) else w
  }

  function Run(limit: nat, w: World, actions: seq<Action>): (w': World)
    requires Shape(w)
    ensures Shape(w')
    decreases |actions|
  {
    if actions == [] then w else Run(limit, Apply(limit, w, actions[0]), actions[1..])
  }

  // ------------------------------------------------------------------ seats

  predicate LocksFromFive(a: L.Stored) {
    a.lockedUntil.Some? <==> a.failedLoginAttempts >= 5
  }

  ghost predicate Seats(limit: nat, w: World) {
    && w.recent <= w.seats.Keys && w.veterans <= w.seats.Keys && |w.seats| <= limit
    && LocksFromFive(w.row)
    && (forall i :: i in w.seats && w.seats[i].Reading? ==> LocksFromFive(w.seats[i].seen))
    && (forall i :: i in w.recent ==> i in w.seats && w.seats[i].Counter() == w.row.failedLoginAttempts)
    && (forall i :: i in w.recent && w.seats[i].Reading? ==> w.seats[i].seen == w.row)
  }

  lemma Subset(a: set<nat>, b: set<nat>)
    requires a <= b
    ensures |a| <= |b|
  {
    assert b == a + (b - a);
  }

  lemma SetsFit(limit: nat, w: World)
    requires Seats(limit, w)
    ensures |w.recent| <= limit && |w.veterans| <= limit && |w.recent - w.veterans| <= limit
  {
    Subset(w.recent, w.seats.Keys);
    Subset(w.veterans, w.seats.Keys);
    Subset(w.recent - w.veterans, w.recent);
    assert |w.seats.Keys| == |w.seats|;
  }

  lemma LeftSeats(limit: nat, w: World, i: nat)
    requires Seats(limit, w)
    ensures Seats(limit, Left(w, i))
  {
    assert (w.seats - {i}).Keys == w.seats.Keys - {i};
    Subset(w.seats.Keys - {i}, w.seats.Keys);
    assert |(w.seats - {i}).Keys| == |w.seats - {i}| && |w.seats.Keys| == |w.seats|;
  }

  lemma ComparedSeats(limit: nat, w: World, i: nat)
    requires Shape(w) && Seats(limit, w) && i in w.seats && w.seats[i].Reading?
    ensures Seats(limit, Compared(w, i, w.seats[i].Counter()))
  {
    var w' := Compared(w, i, w.seats[i].Counter());
    assert w'.seats.Keys == w.seats.Keys;
    assert |w'.seats.Keys| == |w'.seats| && |w.seats.Keys| == |w.seats|;
  }

  // ----------------------------------------------------- counters below five

  // The logins under way that have read counter v, and those of them that have
  // not compared yet.
  ghost function Readers(seats: map<nat, Seat>, v: nat): set<nat> {
    set i | i in seats && seats[i].Counter() == v
  }

  ghost function Waiting(seats: map<nat, Seat>, v: nat): set<nat> {
    set i | i in seats && seats[i].Reading? && seats[i].Counter() == v
  }

  // A stretch is entered by at most as many logins as there are seats, and one
  // more for each that leaves without starting a new stretch.
  ghost predicate PerStretch(limit: nat, w: World, b: nat)
    requires Shape(w) && b < 5
  {
    if b == w.row.failedLoginAttempts
    then w.stretches[b] >= 1 && w.entered[b] <= limit * (w.stretches[b] - 1) + w.lost[b] + |w.recent|
    else w.entered[b] <= limit * w.stretches[b] + w.lost[b]
  }

  // A stretch with counter b is begun by a login that has read b - 1.
  ghost predicate Begun(w: World, b: nat)
    requires Shape(w) && b < 5
  {
    if b == 0 then w.stretches[0] <= 1 else w.stretches[b] + |Readers(w.seats, b - 1)| <= w.entered[b - 1]
  }

  // Those that have read counter b have compared or will.
  ghost predicate Settled(w: World, b: nat)
    requires Shape(w) && b < 5
  {
    w.compared[b] + |Waiting(w.seats, b)| <= w.entered[b]
  }

  ghost predicate Early(limit: nat, w: World, b: nat)
    requires Shape(w) && b < 5
  {
    PerStretch(limit, w, b) && Begun(w, b) && Settled(w, b)
  }

  lemma OneMoreReader(seats: map<nat, Seat>, i: nat, a: L.Stored, v: nat)
    requires i !in seats
    ensures var more := if a.failedLoginAttempts == v then 1 else 0;
            && |Readers(seats[i := Reading(a)], v)| == |Readers(seats, v)| + more
            && |Waiting(seats[i := Reading(a)], v)| == |Waiting(seats, v)| + more
  {
    var seats' := seats[i := Reading(a)];
    if a.failedLoginAttempts == v {
      assert Readers(seats', v) == Readers(seats, v) + {i};
      assert Waiting(seats', v) == Waiting(seats, v) + {i};
    } else {
      assert Readers(seats', v) == Readers(seats, v);
      assert Waiting(seats', v) == Waiting(seats, v);
    }
  }

  lemma EnteredPerStretch(limit: nat, w: World, i: nat, b: nat)
    requires Shape(w) && Seats(limit, w) && i !in w.seats && b < 5 && PerStretch(limit, w, b)
    ensures PerStretch(limit, Entered(w, i), b)
  {
    assert Entered(w, i).stretches == w.stretches && Entered(w, i).lost == w.lost;
    if b == w.row.failedLoginAttempts {
      assert |w.recent + {i}| == |w.recent| + 1;
    } else {
      assert Entered(w, i).entered[b] == w.entered[b];
    }
  }

  lemma EnteredBegun(w: World, i: nat, b: nat)
    requires Shape(w) && i !in w.seats && b < 5 && Begun(w, b)
    ensures Begun(Entered(w, i), b)
  {
    if b > 0 { OneMoreReader(w.seats, i, w.row, b - 1); }
  }

  lemma EnteredSettled(w: World, i: nat, b: nat)
    requires Shape(w) && i !in w.seats && b < 5 && Settled(w, b)
    ensures Settled(Entered(w, i), b)
  {
    OneMoreReader(w.seats, i, w.row, b);
  }

  lemma ComparedEarly(limit: nat, w: World, i: nat, b: nat)
    requires Shape(w) && i in w.seats && w.seats[i].Reading? && b < 5 && Early(limit, w, b)
    ensures Early(limit, Compared(w, i, w.seats[i].Counter()), b)
  {
    var w' := Compared(w, i, w.seats[i].Counter());
    assert Waiting(w'.seats, b) == Waiting(w.seats, b) - {i};
    if b > 0 { assert Readers(w'.seats, b - 1) == Readers(w.seats, b - 1); }
  }

  lemma WithoutFits(s: set<nat>, i: nat)
    ensures |s - {i}| == |s| - (if i in s then 1 else 0)
  {
    if i !in s { assert s - {i} == s; }
  }

  // What a login that leaves takes along.
  lemma OneLessReader(seats: map<nat, Seat>, i: nat, v: nat)
    requires i in seats
    ensures |Readers(seats - {i}, v)| == |Readers(seats, v)| - (if seats[i].Counter() == v then 1 else 0)
  {
    var readers := Readers(seats, v);
    assert Readers(seats - {i}, v) == readers - {i};
    WithoutFits(readers, i);
  }

  lemma NoMoreWaiting(seats: map<nat, Seat>, i: nat, v: nat)
    ensures |Waiting(seats - {i}, v)| <= |Waiting(seats, v)|
  {
    Subset(Waiting(seats - {i}, v), Waiting(seats, v));
  }

  lemma RefusedPerStretch(limit: nat, w: World, i: nat, b: nat)
    requires Shape(w) && Seats(limit, w) && b < 5 && PerStretch(limit, w, b)
    requires i in w.seats && w.seats[i].Counter() >= 5
    ensures PerStretch(limit, Left(w, i), b)
  {
    if b == w.row.failedLoginAttempts { assert w.recent - {i} == w.recent; }
  }

  lemma RefusedEarly(limit: nat, w: World, i: nat, b: nat)
    requires Shape(w) && Seats(limit, w) && b < 5 && Early(limit, w, b)
    requires i in w.seats && w.seats[i].Reading? && w.seats[i].Counter() >= 5
    ensures Early(limit, Left(w, i), b)
  {
    RefusedPerStretch(limit, w, i, b);
    NoMoreWaiting(w.seats, i, b);
    if b > 0 { OneLessReader(w.seats, i, b - 1); }
  }

  lemma WrittenEarly(limit: nat, w: World, i: nat, at: Time, b: nat)
    requires Shape(w) && Seats(limit, w) && b < 5 && Early(limit, w, b) && i in w.seats
    ensures Early(limit, Written(w, i, w.seats[i].Counter() + 1, at), b)
  {
    var w' := Written(w, i, w.seats[i].Counter() + 1, at);
    NoMoreWaiting(w.seats, i, b);
    if b > 0 { OneLessReader(w.seats, i, b - 1); }
    SetsFit(limit, w);
    if b == w.row.failedLoginAttempts { Product(limit, w.stretches[b]); }
  }

  lemma UnwrittenEarly(limit: nat, w: World, i: nat, b: nat)
    requires Shape(w) && b < 5 && Early(limit, w, b) && i in w.seats
    ensures Early(limit, Unwritten(w, i), b)
  {
    NoMoreWaiting(w.seats, i, b);
    if b > 0 { OneLessReader(w.seats, i, b - 1); }
    assert |w.recent - {i}| >= |w.recent| - 1;
  }

  lemma Product(limit: nat, n: nat)
    requires n >= 1
    ensures limit * (n - 1) + limit == limit * n
  {
  }

  // ------------------------------------------------------- counters from five on

  // A lock that can run out in the window that begins then.
  predicate RunsOut(windowStart: Time, a: L.Stored) {
    a.failedLoginAttempts >= 5 && a.lockedUntil.Some? && a.lockedUntil.value < windowStart + L.LOCKOUT
  }

  // The logins that can still find their lock run out in that window.
  ghost function Pending(seats: map<nat, Seat>, windowStart: Time): set<nat> {
    set i | i in seats && seats[i].Reading? && RunsOut(windowStart, seats[i].seen)
  }

  // How many more can read such a lock in the present stretch.
  ghost function Room(limit: nat, w: World): int {
    if RunsOut(w.windowStart, w.row) then limit - |w.recent - w.veterans| else 0
  }

  function PerWindow(limit: nat): nat {
    limit * (limit + 2)
  }

  // Locks written by logins that entered in the present window outlast it, so a
  // comparison in it is pending, or comes in the stretch it began with or in one
  // that a veteran begins.
  ghost predicate Late(limit: nat, w: World)
    requires Shape(w)
  {
    w.compared[5] + limit * |w.veterans| + |Pending(w.seats, w.windowStart)| + Room(limit, w)
      <= PerWindow(limit) * w.windows + w.lost[5]
  }

  ghost predicate Clock(w: World, start: Time) {
    && w.windowStart == start + w.windows * L.LOCKOUT && w.windowStart <= w.clock < w.windowStart + L.LOCKOUT
    && (w.row.lockedUntil.Some? ==> w.row.lockedUntil.value <= w.clock + L.LOCKOUT)
    && (forall i :: i in w.seats && w.seats[i].Comparing? ==>
          w.seats[i].since <= w.clock && (i !in w.veterans ==> w.seats[i].since >= w.windowStart))
  }

  lemma OneMorePending(seats: map<nat, Seat>, i: nat, a: L.Stored, windowStart: Time)
    requires i !in seats
    ensures |Pending(seats[i := Reading(a)], windowStart)|
            == |Pending(seats, windowStart)| + (if RunsOut(windowStart, a) then 1 else 0)
  {
    var seats' := seats[i := Reading(a)];
    if RunsOut(windowStart, a) {
      assert Pending(seats', windowStart) == Pending(seats, windowStart) + {i};
    } else {
      assert Pending(seats', windowStart) == Pending(seats, windowStart);
    }
  }

  lemma EnteredLate(limit: nat, w: World, i: nat)
    requires Shape(w) && Seats(limit, w) && i !in w.seats && Late(limit, w)
    ensures Late(limit, Entered(w, i))
  {
    OneMorePending(w.seats, i, w.row, w.windowStart);
    assert (w.recent + {i}) - w.veterans == (w.recent - w.veterans) + {i};
  }

  lemma ComparedLate(limit: nat, w: World, i: nat)
    requires Shape(w) && Seats(limit, w) && Late(limit, w) && w.clock < w.windowStart + L.LOCKOUT
    requires i in w.seats && w.seats[i].Reading? && !L.IsLocked(w.seats[i].seen, w.clock)
    ensures Late(limit, Compared(w, i, w.seats[i].Counter()))
  {
    var w' := Compared(w, i, w.seats[i].Counter());
    assert Pending(w'.seats, w'.windowStart) == Pending(w.seats, w.windowStart) - {i};
    if w.seats[i].Counter() >= 5 { assert i in Pending(w.seats, w.windowStart); }
  }

  lemma VeteranLeaves(limit: nat, w: World, i: nat)
    requires i in w.veterans
    ensures limit * |w.veterans - {i}| == limit * |w.veterans| - limit
  {
    assert |w.veterans - {i}| == |w.veterans| - 1;
    Product(limit, |w.veterans|);
  }

  lemma VeteransFit(limit: nat, w: World, i: nat)
    ensures limit * |w.veterans - {i}| <= limit * |w.veterans|
  {
    if i in w.veterans { VeteranLeaves(limit, w, i); } else { assert w.veterans - {i} == w.veterans; }
  }

  lemma OneLessPending(seats: map<nat, Seat>, i: nat, windowStart: Time)
    ensures Pending(seats - {i}, windowStart) == Pending(seats, windowStart) - {i}
  {
  }

  lemma LeftRoom(limit: nat, w: World, i: nat)
    ensures Room(limit, Left(w, i)) <= Room(limit, w) + 1
    ensures i !in w.recent || i in w.veterans || !RunsOut(w.windowStart, w.row)
            ==> Room(limit, Left(w, i)) == Room(limit, w)
  {
    var w' := Left(w, i);
    assert w'.recent - w'.veterans == (w.recent - w.veterans) - {i};
  }

  lemma RefusedLate(limit: nat, w: World, i: nat)
    requires Shape(w) && Seats(limit, w) && Late(limit, w) && i in w.seats && w.seats[i].Reading?
    ensures Late(limit, Left(w, i))
  {
    OneLessPending(w.seats, i, w.windowStart);
    LeftRoom(limit, w, i);
    VeteransFit(limit, w, i);
    if i in w.recent && RunsOut(w.windowStart, w.row) { assert i in Pending(w.seats, w.windowStart); }
  }

  lemma UnwrittenLate(limit: nat, w: World, i: nat)
    requires Shape(w) && Late(limit, w)
    ensures Late(limit, Unwritten(w, i))
  {
    OneLessPending(w.seats, i, w.windowStart);
    LeftRoom(limit, w, i);
    VeteransFit(limit, w, i);
    assert Room(limit, Unwritten(w, i)) == Room(limit, Left(w, i));
  }

  lemma WrittenLate(limit: nat, w: World, i: nat, at: Time)
    requires Shape(w) && Seats(limit, w) && Late(limit, w) && i in w.seats
    requires i in w.veterans || at >= w.windowStart
    ensures Late(limit, Written(w, i, w.seats[i].Counter() + 1, at))
  {
    var w' := Written(w, i, w.seats[i].Counter() + 1, at);
    OneLessPending(w.seats, i, w.windowStart);
    SetsFit(limit, w);
    assert w'.recent - w'.veterans == {};
    if i in w.veterans {
      VeteranLeaves(limit, w, i);
    } else {
      VeteransFit(limit, w, i);
    }
  }

  lemma WindowAddsUp(limit: nat, under: nat, before: nat, after: nat)
    requires under <= limit && before < after
    ensures limit * under + under + limit + PerWindow(limit) * before <= PerWindow(limit) * after
  {
    Monotone(limit, under, limit);
    Monotone(PerWindow(limit), before + 1, after);
    assert limit * limit + limit + limit == PerWindow(limit);
  }

  lemma Monotone(limit: nat, a: nat, b: nat)
    requires a <= b
    ensures limit * a <= limit * b
  {
  }

  lemma TickKeepsTime(w: World, now: Time, start: Time)
    requires Clock(w, start) && w.clock <= now
    ensures Clock(Tick(w, now), start)
  {
  }

  lemma PendingFits(seats: map<nat, Seat>, windowStart: Time)
    ensures |Pending(seats, windowStart)| <= |seats|
  {
    Subset(Pending(seats, windowStart), seats.Keys);
    assert |seats.Keys| == |seats|;
  }

  lemma RoomFits(limit: nat, w: World)
    ensures Room(limit, w) <= limit
  {
  }

  lemma LateFits(limit: nat, w: World)
    requires Shape(w) && Seats(limit, w) && Late(limit, w)
    ensures w.compared[5] <= PerWindow(limit) * w.windows + w.lost[5]
  {
    SetsFit(limit, w);
    Monotone(limit, 0, |w.veterans|);
  }

  lemma TickLate(limit: nat, w: World, now: Time)
    requires Shape(w) && Seats(limit, w) && Late(limit, w) && w.windowStart <= now
    ensures Late(limit, Tick(w, now))
  {
    if now >= w.windowStart + L.LOCKOUT {
      var w' := Tick(w, now);
      LateFits(limit, w);
      PendingFits(w.seats, w'.windowStart);
      RoomFits(limit, w');
      WindowAddsUp(limit, |w.seats|, w.windows, w'.windows);
      assert |w'.veterans| == |w.seats|;
    }
  }

  // ---------------------------------------------------------------- every run

  ghost predicate AllEarly(limit: nat, w: World)
    requires Shape(w)
  {
    forall b: nat :: b < 5 ==> Early(limit, w, b)
  }

  ghost predicate Inv(limit: nat, w: World, start: Time) {
    Shape(w) && Seats(limit, w) && Clock(w, start) && AllEarly(limit, w) && Late(limit, w)
  }

  lemma TickEarly(limit: nat, w: World, now: Time, b: nat)
    requires Shape(w) && w.windowStart <= now && b < 5 && Early(limit, w, b)
    ensures Early(limit, Tick(w, now), b)
  {
  }

  lemma TickStep(limit: nat, w: World, now: Time, start: Time)
    requires Inv(limit, w, start) && w.clock <= now
    ensures Inv(limit, Tick(w, now), start)
  {
    var w' := Tick(w, now);
    TickKeepsTime(w, now, start);
    TickLate(limit, w, now);
    forall b: nat | b < 5 ensures Early(limit, w', b) { TickEarly(limit, w, now, b); }
  }

  lemma EnterStep(limit: nat, w: World, i: nat, start: Time)
    requires Inv(limit, w, start) && CanEnter(limit, w, i)
    ensures Inv(limit, Entered(w, i), start)
  {
    EnteredLate(limit, w, i);
    forall b: nat | b < 5 ensures Early(limit, Entered(w, i), b) {
      assert Early(limit, w, b);
      EnteredPerStretch(limit, w, i, b);
      EnteredBegun(w, i, b);
      EnteredSettled(w, i, b);
    }
  }

  lemma LookStep(limit: nat, w: World, i: nat, start: Time)
    requires Inv(limit, w, start) && i in w.seats && w.seats[i].Reading?
    ensures Inv(limit, Looked(w, i), start)
  {
    var w' := Looked(w, i);
    if L.IsLocked(w.seats[i].seen, w.clock) {
      LeftSeats(limit, w, i);
      RefusedLate(limit, w, i);
      forall b: nat | b < 5 ensures Early(limit, w', b) { RefusedEarly(limit, w, i, b); }
    } else {
      ComparedSeats(limit, w, i);
      ComparedLate(limit, w, i);
      forall b: nat | b < 5 ensures Early(limit, w', b) { ComparedEarly(limit, w, i, b); }
    }
  }

  lemma UpdateStep(limit: nat, w: World, i: nat, at: Time, fault: Fault, start: Time)
    requires Inv(limit, w, start) && i in w.seats && w.seats[i].Comparing? && w.seats[i].since <= at <= w.clock
    ensures Inv(limit, Updated(w, i, at, fault), start)
  {
    var w' := Updated(w, i, at, fault);
    LeftSeats(limit, w, i);
    if fault.Landed() {
      WrittenLate(limit, w, i, at);
      forall b: nat | b < 5 ensures Early(limit, w', b) { WrittenEarly(limit, w, i, at, b); }
    } else {
      UnwrittenLate(limit, w, i);
      forall b: nat | b < 5 ensures Early(limit, w', b) { UnwrittenEarly(limit, w, i, b); }
    }
  }

  lemma TickAndLook(limit: nat, w: World, i: nat, now: Time, start: Time)
    requires Inv(limit, w, start) && CanLook(w, i, now)
    ensures Inv(limit, Looked(Tick(w, now), i), start)
  {
    TickStep(limit, w, now, start);
    LookStep(limit, Tick(w, now), i, start);
  }

  lemma TickAndUpdate(limit: nat, w: World, i: nat, at: Time, now: Time, fault: Fault, start: Time)
    requires Inv(limit, w, start) && CanUpdate(w, i, at, now)
    ensures Inv(limit, Updated(Tick(w, now), i, at, fault), start)
  {
    TickStep(limit, w, now, start);
    UpdateStep(limit, Tick(w, now), i, at, fault, start);
  }

  lemma InvStep(limit: nat, w: World, a: Action, start: Time)
    requires Inv(limit, w, start)
    ensures Inv(limit, Apply(limit, w, a), start)
  {
    match a
    case Enter(i) => if CanEnter(limit, w, i) { EnterStep(limit, w, i, start); }
    case Look(i, now) => if CanLook(w, i, now) { TickAndLook(limit, w, i, now, start); }
    case Update(i, at, now, fault) =>
      if CanUpdate(w, i, at, now) { TickAndUpdate(limit, w, i, at, now, fault, start); }
  }

  lemma {:induction false} InvRun(limit: nat, w: World, actions: seq<Action>, start: Time)
    requires Inv(limit, w, start)
    ensures Inv(limit, Run(limit, w, actions), start)
    decreases |actions|
  {
    if actions != [] {
      InvStep(limit, w, actions[0], start);
      InvRun(limit, Apply(limit, w, actions[0]), actions[1..], start);
    }
  }

  lemma InvStart(limit: nat, t: Time)
    ensures Inv(limit, Start(t), t)
  {
    var w := Start(t);
    assert Pending(w.seats, w.windowStart) == {};
    forall b: nat | b < 5 ensures Early(limit, w, b) {
      assert Waiting(w.seats, b) == {};
      if b > 0 { assert Readers(w.seats, b - 1) == {}; }
    }
  }

  // ------------------------------------------------------------------- the bound

  // How many logins can read counter b, if that many updates are lost.
  function Allowance(limit: nat, lost: seq<nat>, b: nat): nat
    requires |lost| == KINDS && b < 5
  {
    if b == 0 then limit + lost[0] else limit * Allowance(limit, lost, b - 1) + lost[b]
  }

  lemma {:induction false} EnteredFits(limit: nat, w: World, b: nat)
    requires Shape(w) && Seats(limit, w) && AllEarly(limit, w) && b < 5
    ensures w.entered[b] <= Allowance(limit, w.lost, b)
  {
    SetsFit(limit, w);
    assert Early(limit, w, b);
    if b == w.row.failedLoginAttempts { Product(limit, w.stretches[b]); }
    if b == 0 {
      Monotone(limit, w.stretches[0], 1);
    } else {
      EnteredFits(limit, w, b - 1);
      Monotone(limit, w.stretches[b], Allowance(limit, w.lost, b - 1));
    }
  }

  lemma WindowsFit(w: World, start: Time)
    requires Clock(w, start)
    ensures w.clock >= start && w.windows == (w.clock - start) / L.LOCKOUT
  {
  }

  lemma InvBounds(limit: nat, w: World, start: Time)
    requires Inv(limit, w, start)
    ensures w.clock >= start
    ensures forall b: nat :: b < 5 ==> w.compared[b] <= Allowance(limit, w.lost, b)
    ensures w.compared[5] <= PerWindow(limit) * ((w.clock - start) / L.LOCKOUT) + w.lost[5]
  {
    forall b: nat | b < 5 ensures w.compared[b] <= Allowance(limit, w.lost, b) {
      assert Early(limit, w, b);
      EnteredFits(limit, w, b);
    }
    LateFits(limit, w);
    WindowsFit(w, start);
  }

  /** However many logins overlap, at most `limit` at a time and none of them with
      the right password: those that read a counter below five compare no more
      passwords than a number that depends on the limit and the lost updates; all
      others no more than limit * (limit + 2) for every 15 minutes and one for
      every lost update. */
  lemma OverlappingComparisonsAreBounded(limit: nat, t: Time, actions: seq<Action>, w: World)
    requires w == Run(limit, Start(t), actions)
    ensures w.clock >= t
    ensures forall b: nat :: b < 5 ==> w.compared[b] <= Allowance(limit, w.lost, b)
    ensures w.compared[5] <= PerWindow(limit) * ((w.clock - t) / L.LOCKOUT) + w.lost[5]
  {
    InvStart(limit, t);
    InvRun(limit, Start(t), actions, t);
    InvBounds(limit, w, t);
  }

  // --------------------------------------------------------------- broken locks

  function Until(w: World): Time
    requires w.row.lockedUntil.Some?
  {
    w.row.lockedUntil.value
  }

  // Some login under way will not lock the row, or can set an earlier lock.
  predicate Breakable(w: World)
    requires w.row.lockedUntil.Some?
  {
    exists i :: i in w.seats && Breaks(w.seats[i], Until(w))
  }

  predicate Breaks(s: Seat, until: Time) {
    s.Counter() < 4 || (s.Comparing? && s.since + L.LOCKOUT < until)
  }

  // A lock that stays until then.
  ghost predicate Firm(w: World, until: Time) {
    && until <= w.clock + L.LOCKOUT
    && w.row.failedLoginAttempts >= 5 && w.row.lockedUntil.Some? && Until(w) >= until
    && (forall i :: i in w.seats ==> !Breaks(w.seats[i], until))
  }

  lemma FirmStep(limit: nat, w: World, a: Action, until: Time)
    requires Shape(w) && Firm(w, until)
    ensures Firm(Apply(limit, w, a), until)
  {
  }

  lemma {:induction false} FirmForever(limit: nat, w: World, actions: seq<Action>, until: Time)
    requires Shape(w) && Firm(w, until)
    ensures Firm(Run(limit, w, actions), until)
    decreases |actions|
  {
    if actions != [] {
      FirmStep(limit, w, actions[0], until);
      FirmForever(limit, Apply(limit, w, actions[0]), actions[1..], until);
    }
  }

  ghost predicate Unlocks(limit: nat, w: World, actions: seq<Action>)
    requires Shape(w) && w.row.lockedUntil.Some?
  {
    var w' := Run(limit, w, actions);
    w'.clock < Until(w) && !L.IsLocked(w'.row, w'.clock)
  }

  // The rest of a login that breaks the lock, at its latest moment.
  function Finish(w: World, i: nat): seq<Action>
    requires i in w.seats
  {
    var s := w.seats[i];
    if s.Reading? then [Look(i, w.clock), Update(i, w.clock, w.clock, Done)]
    else
      var at := if s.attempts < 4 || s.since + L.LOCKOUT < w.clock then w.clock else s.since + L.LOCKOUT;
      [Update(i, s.since, at, Done)]
  }

  lemma RunOne(limit: nat, w: World, a: Action)
    requires Shape(w)
    ensures Run(limit, w, [a]) == Apply(limit, w, a)
  {
    assert [a][1..] == [];
  }

  lemma RunTwo(limit: nat, w: World, a: Action, b: Action)
    requires Shape(w)
    ensures Run(limit, w, [a, b]) == Apply(limit, Apply(limit, w, a), b)
  {
    assert [a, b][1..] == [b];
    RunOne(limit, Apply(limit, w, a), b);
  }

  lemma FinishUnlocks(limit: nat, w: World, i: nat, start: Time)
    requires Inv(limit, w, start) && L.IsLocked(w.row, w.clock)
    requires i in w.seats && Breaks(w.seats[i], Until(w))
    ensures Unlocks(limit, w, Finish(w, i))
  {
    if w.seats[i].Reading? {
      RunTwo(limit, w, Look(i, w.clock), Update(i, w.clock, w.clock, Done));
    } else {
      RunOne(limit, w, Finish(w, i)[0]);
    }
  }

  /** A lock can be lifted before it has run out if and only if a login under way
      has read a counter below four, or compared its password so early that the
      lock it sets may end sooner. */
  lemma LockIsBrokenIff(limit: nat, t: Time, past: seq<Action>, w: World)
    requires w == Run(limit, Start(t), past) && L.IsLocked(w.row, w.clock)
    ensures (exists actions :: Unlocks(limit, w, actions)) <==> Breakable(w)
  {
    InvStart(limit, t);
    InvRun(limit, Start(t), past, t);
    if Breakable(w) {
      var i :| i in w.seats && Breaks(w.seats[i], Until(w));
      FinishUnlocks(limit, w, i, t);
    } else {
      forall actions ensures !Unlocks(limit, w, actions) {
        FirmForever(limit, w, actions, Until(w));
      }
    }
  }

  lemma {:induction false} RunAppend(limit: nat, w: World, front: seq<Action>, back: seq<Action>)
    requires Shape(w)
    ensures Run(limit, w, front + back) == Run(limit, Run(limit, w, front), back)
    decreases |front|
  {
    if front == [] {
      assert front + back == back;
    } else {
      assert (front + back)[1..] == front[1..] + back;
      RunAppend(limit, Apply(limit, w, front[0]), front[1..], back);
    }
  }

  function Wrong(t: Time): seq<Action> {
    [Enter(0), Look(0, t), Update(0, t, t, Done)]
  }

  // Login 1 has compared, and n others come and go, all at time t.
  ghost predicate WhileComparing(w: World, n: nat, t: Time) {
    && Shape(w) && w.seats == map[1 := Comparing(0, t)] && w.clock == w.windowStart == t && w.lost == NONE
    && w.row == L.Stored(n, if n >= 5 then Some(t + L.LOCKOUT) else None)
  }

  lemma OneMoreWrong(w: World, n: nat, t: Time)
    requires WhileComparing(w, n, t) && n < 5
    ensures WhileComparing(Run(2, w, Wrong(t)), n + 1, t)
  {
    var enter, look, update := Enter(0), Look(0, t), Update(0, t, t, Done);
    assert [enter, look, update][1..] == [look, update];
    RunTwo(2, Apply(2, w, enter), look, update);
    assert Apply(2, Apply(2, Apply(2, w, enter), look), update).seats == w.seats;
  }

  lemma WrongAfter(w: World, front: seq<Action>, n: nat, t: Time)
    requires Shape(w) && WhileComparing(Run(2, w, front), n, t) && n < 5
    ensures WhileComparing(Run(2, w, front + Wrong(t)), n + 1, t)
  {
    RunAppend(2, w, front, Wrong(t));
    OneMoreWrong(Run(2, w, front), n, t);
  }

  lemma {:induction false} WrongsRun(w: World, n: nat, t: Time) returns (actions: seq<Action>)
    requires WhileComparing(w, 0, t) && n <= 5
    ensures WhileComparing(Run(2, w, actions), n, t)
  {
    actions := [];
    if n > 0 {
      var front := WrongsRun(w, n - 1, t);
      WrongAfter(w, front, n - 1, t);
      actions := front + Wrong(t);
    }
  }

  ghost predicate CanBeLifted(t: Time, past: seq<Action>) {
    var w := Run(2, Start(t), past);
    w.lost == NONE && L.IsLocked(w.row, w.clock) && Breakable(w)
  }

  /** A login that takes longer than five others meets the condition with two at
      a time, although every update is recorded. */
  lemma SlowLoginCanLift(t: Time)
    ensures exists past :: CanBeLifted(t, past)
  {
    var slow := [Enter(1), Look(1, t)];
    RunTwo(2, Start(t), Enter(1), Look(1, t));
    var others := WrongsRun(Run(2, Start(t), slow), 5, t);
    RunAppend(2, Start(t), slow, others);
    var w := Run(2, Start(t), slow + others);
    assert Breaks(w.seats[1], Until(w));
    assert CanBeLifted(t, slow + others);
  }

  // ----------------------------------------------- the bound without lost updates

  function Power(n: nat, e: nat): nat {
    if e == 0 then 1 else n * Power(n, e - 1)
  }

  lemma {:induction false} AllowanceIsPower(limit: nat, b: nat)
    requires b < 5
    ensures Allowance(limit, NONE, b) == Power(limit, b + 1)
  {
    if b == 0 {
      assert Power(limit, 1) == limit * Power(limit, 0);
    } else {
      AllowanceIsPower(limit, b - 1);
    }
  }

  function Total(s: seq<nat>): nat {
    if s == [] then 0 else Total(s[..|s| - 1]) + s[|s| - 1]
  }

  function Powers(n: nat, e: nat): nat {
    if e == 0 then 0 else Powers(n, e - 1) + Power(n, e)
  }

  lemma {:induction false} TotalFits(k: nat, c: seq<nat>)
    requires forall b: nat :: b < |c| ==> c[b] <= Power(k, b + 1)
    ensures Total(c) <= Powers(k, |c|)
  {
    if c != [] { TotalFits(k, c[..|c| - 1]); }
  }

  /** If every failure is recorded: with k logins at a time at most
      k + k^2 + ... + k^5 passwords are compared, and k * (k + 2) for every 15
      minutes. */
  lemma RecordedComparisonsAreBounded(k: nat, t: Time, actions: seq<Action>, w: World)
    requires w == Run(k, Start(t), actions) && w.lost == NONE
    ensures w.clock >= t && Total(w.compared) <= Powers(k, 5) + PerWindow(k) * ((w.clock - t) / L.LOCKOUT)
  {
    OverlappingComparisonsAreBounded(k, t, actions, w);
    var c := w.compared;
    forall b: nat | b < 5 ensures c[..5][b] <= Power(k, b + 1) { AllowanceIsPower(k, b); }
    TotalFits(k, c[..5]);
  }
}
