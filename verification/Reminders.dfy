// Expiry reminders: which (certificate, threshold) pairs a tick tries, and how
// often a pair can be mailed and logged over any sequence of ticks.
module Reminders {
  import opened Prelude

  type Time = int                        // nanoseconds
  type CertId = nat

  const DAY: int := 24 * 60 * 60 * 1_000_000_000

  datatype Certificate = Certificate(id: CertId, notAfter: Time, notifyEmails: seq<string>)

  datatype Settings = Settings(thresholdDays: seq<int>, defaultRecipients: seq<string>,
                               escalationRecipients: seq<string>)

  datatype LogEntry = LogEntry(certificateId: CertId, thresholdDays: int, sent: bool, recipients: seq<string>)

  // Whole days, rounded towards zero: the day after expiry still counts as 0.
  function DaysRemaining(notAfter: Time, now: Time): int {
    var left := notAfter - now;
    if left >= 0 then left / DAY else -(-left / DAY)
  }

  function Max(s: seq<int>): int
    requires s != []
  {
    if |s| == 1 then s[0]
    else
      var rest := Max(s[..|s| - 1]);
      if s[|s| - 1] > rest then s[|s| - 1] else rest
  }

  function Min(s: seq<int>): int
    requires s != []
  {
    if |s| == 1 then s[0]
    else
      var rest := Min(s[..|s| - 1]);
      if s[|s| - 1] < rest then s[|s| - 1] else rest
  }

  lemma {:induction false} MaxAndMin(s: seq<int>, x: int)
    requires s != []
    ensures Max(s) in s && Min(s) in s
    ensures x in s ==> Min(s) <= x <= Max(s)
  {
    if |s| == 1 {
    } else {
      MaxAndMin(s[..|s| - 1], x);
      assert s == s[..|s| - 1] + [s[|s| - 1]];
    }
  }

  // ------------------------------------------------------- what a tick attempts

  // The inventory query: a window of zero or fewer days means no window.
  predicate Listed(c: Certificate, now: Time, window: int) {
    window > 0 ==> c.notAfter <= now + window * DAY
  }

  function List(certs: seq<Certificate>, now: Time, window: int): seq<Certificate> {
    if certs == [] then []
    else
      var last := certs[|certs| - 1];
      List(certs[..|certs| - 1], now, window) + (if Listed(last, now, window) then [last] else [])
  }

  // How the calls made for one attempt end.
  datatype Outcome = Outcome(lookup: bool, render: bool, send: Fault, record: Fault)

  // A tick: the query looks at the time once, the loop again for each listed
  // certificate, after the mails about the ones before it. The settings or the
  // inventory may fail to load.
  datatype Tick = Tick(now: Time, clock: nat -> Time, settings: Option<Settings>, inventory: Option<seq<Certificate>>,
                       outcomes: nat -> Outcome)

  datatype Attempt = Attempt(cert: Certificate, threshold: int, escalate: bool)

  function AttemptsFor(c: Certificate, at: Time, thresholds: seq<int>, min: int): seq<Attempt> {
    if thresholds == [] then []
    else
      var t := thresholds[|thresholds| - 1];
      AttemptsFor(c, at, thresholds[..|thresholds| - 1], min) +
      (if DaysRemaining(c.notAfter, at) == t then [Attempt(c, t, t == min)] else [])
  }

  function AttemptsOver(certs: seq<Certificate>, clock: nat -> Time, thresholds: seq<int>, min: int): seq<Attempt> {
    if certs == [] then []
    else
      var n := |certs| - 1;
      AttemptsOver(certs[..n], clock, thresholds, min) + AttemptsFor(certs[n], clock(n), thresholds, min)
  }

  // The certificates a tick loops over.
  function ListedBy(t: Tick): seq<Certificate> {
    if t.settings.None? || t.inventory.None? || t.settings.value.thresholdDays == [] then []
    else List(t.inventory.value, t.now, Max(t.settings.value.thresholdDays))
  }

  function Attempts(t: Tick): seq<Attempt> {
    if ListedBy(t) == [] then []
    else
      var thresholds := t.settings.value.thresholdDays;
      AttemptsOver(ListedBy(t), t.clock, thresholds, Min(thresholds))
  }

  lemma {:induction false} InList(certs: seq<Certificate>, now: Time, window: int, c: Certificate)
    ensures c in List(certs, now, window) <==> c in certs && Listed(c, now, window)
  {
    if certs == [] {
    } else {
      InList(certs[..|certs| - 1], now, window, c);
      assert certs == certs[..|certs| - 1] + [certs[|certs| - 1]];
    }
  }

  lemma {:induction false} InAttemptsFor(c: Certificate, at: Time, thresholds: seq<int>, min: int, a: Attempt)
    ensures a in AttemptsFor(c, at, thresholds, min) <==>
            && a.cert == c && a.threshold in thresholds && a.threshold == DaysRemaining(c.notAfter, at)
            && a.escalate == (a.threshold == min)
  {
    if thresholds == [] {
    } else {
      InAttemptsFor(c, at, thresholds[..|thresholds| - 1], min, a);
      assert thresholds == thresholds[..|thresholds| - 1] + [thresholds[|thresholds| - 1]];
    }
  }

  // Attempt a is about certificate number n of those looped over.
  predicate AttemptAt(certs: seq<Certificate>, clock: nat -> Time, thresholds: seq<int>, min: int, a: Attempt, n: nat) {
    && n < |certs| && a.cert == certs[n] && a.threshold in thresholds
    && a.threshold == DaysRemaining(a.cert.notAfter, clock(n)) && a.escalate == (a.threshold == min)
  }

  // An attempt about one of the certificates is about the last or an earlier one.
  lemma LastOrEarlier(certs: seq<Certificate>, clock: nat -> Time, thresholds: seq<int>, min: int, a: Attempt, n: nat)
    requires certs != []
    ensures AttemptAt(certs, clock, thresholds, min, a, n) <==>
            || AttemptAt(certs[..|certs| - 1], clock, thresholds, min, a, n)
            || (n == |certs| - 1 && AttemptAt(certs, clock, thresholds, min, a, |certs| - 1))
  {
  }

  lemma InLastAttempts(certs: seq<Certificate>, clock: nat -> Time, thresholds: seq<int>, min: int, a: Attempt)
    requires certs != []
    ensures var last := |certs| - 1;
            a in AttemptsFor(certs[last], clock(last), thresholds, min) <==>
            AttemptAt(certs, clock, thresholds, min, a, last)
  {
    InAttemptsFor(certs[|certs| - 1], clock(|certs| - 1), thresholds, min, a);
  }

  ghost predicate SomeAttempt(certs: seq<Certificate>, clock: nat -> Time, thresholds: seq<int>, min: int, a: Attempt) {
    exists n: nat :: AttemptAt(certs, clock, thresholds, min, a, n)
  }

  lemma OneMoreCertificate(certs: seq<Certificate>, clock: nat -> Time, thresholds: seq<int>, min: int, a: Attempt)
    requires certs != []
    ensures SomeAttempt(certs, clock, thresholds, min, a) <==>
            || SomeAttempt(certs[..|certs| - 1], clock, thresholds, min, a)
            || AttemptAt(certs, clock, thresholds, min, a, |certs| - 1)
  {
    var front := certs[..|certs| - 1];
    if SomeAttempt(certs, clock, thresholds, min, a) {
      var n: nat :| AttemptAt(certs, clock, thresholds, min, a, n);
      LastOrEarlier(certs, clock, thresholds, min, a, n);
    }
    if SomeAttempt(front, clock, thresholds, min, a) {
      var n: nat :| AttemptAt(front, clock, thresholds, min, a, n);
      LastOrEarlier(certs, clock, thresholds, min, a, n);
    }
  }

  lemma {:induction false} InAttemptsOver(certs: seq<Certificate>, clock: nat -> Time, thresholds: seq<int>, min: int,
                                          a: Attempt)
    ensures a in AttemptsOver(certs, clock, thresholds, min) <==> SomeAttempt(certs, clock, thresholds, min, a)
  {
    if certs == [] {
    } else {
      InAttemptsOver(certs[..|certs| - 1], clock, thresholds, min, a);
      InLastAttempts(certs, clock, thresholds, min, a);
      OneMoreCertificate(certs, clock, thresholds, min, a);
    }
  }

  // A reminder the tick has to try: certificate number n of those in the
  // query's window has a threshold's number of days left when its turn comes.
  predicate Planned(t: Tick, a: Attempt, n: nat) {
    && t.settings.Some? && t.settings.value.thresholdDays != []
    && AttemptAt(ListedBy(t), t.clock, t.settings.value.thresholdDays, Min(t.settings.value.thresholdDays), a, n)
  }

  /** A tick tries exactly the planned reminders; the smallest threshold
      escalates. */
  lemma InAttempts(t: Tick, a: Attempt)
    ensures a in Attempts(t) <==> exists n: nat :: Planned(t, a, n)
  {
    if t.settings.Some? && t.settings.value.thresholdDays != [] {
      var thresholds := t.settings.value.thresholdDays;
      InAttemptsOver(ListedBy(t), t.clock, thresholds, Min(thresholds), a);
      assert forall n: nat :: Planned(t, a, n) <==> AttemptAt(ListedBy(t), t.clock, thresholds, Min(thresholds), a, n);
    }
  }

  // The certificate with this id and expiry, whatever else its row says.
  predicate IsCert(c: Certificate, id: CertId, notAfter: Time) {
    c.id == id && c.notAfter == notAfter
  }

  ghost predicate Tries(t: Tick, id: CertId, notAfter: Time, threshold: int) {
    exists a :: a in Attempts(t) && IsCert(a.cert, id, notAfter) && a.threshold == threshold
  }

  // The tick loads everything it needs, the certificate is there, and the
  // threshold is below the largest one or the query has no window.
  ghost predicate Covers(t: Tick, id: CertId, notAfter: Time, threshold: int) {
    && t.settings.Some? && t.inventory.Some?
    && threshold in t.settings.value.thresholdDays
    && (threshold < Max(t.settings.value.thresholdDays) || Max(t.settings.value.thresholdDays) <= 0)
    && exists c :: c in t.inventory.value && IsCert(c, id, notAfter)
  }

  // ------------------------------------------------------------------ whole days

  // So much time is left that the day of threshold t has not begun.
  predicate NotYet(left: int, t: int) {
    if t >= 0 then left >= (t + 1) * DAY else left > t * DAY
  }

  // So little time is left that the day of threshold t is over.
  predicate Over(left: int, t: int) {
    if t > 0 then left < t * DAY else left <= (t - 1) * DAY
  }

  lemma FloorIs(left: nat, t: nat)
    ensures left / DAY == t <==> t * DAY <= left < (t + 1) * DAY
  {
    if left / DAY == t {
      assert left == t * DAY + left % DAY;
    }
  }

  lemma DayIs(notAfter: Time, at: Time, t: int)
    ensures DaysRemaining(notAfter, at) == t <==> !NotYet(notAfter - at, t) && !Over(notAfter - at, t)
  {
    var left := notAfter - at;
    if left >= 0 {
      if t >= 0 { FloorIs(left, t); } else { FloorIs(left, 0); }
    } else {
      if t <= 0 { FloorIs(-left, -t); } else { FloorIs(-left, 0); }
    }
  }

  // ---------------------------------------------------------------------- looks

  // Certificate number n of the loop is the one.
  predicate LoopsOver(k: Tick, id: CertId, notAfter: Time, n: nat) {
    n < |ListedBy(k)| && IsCert(ListedBy(k)[n], id, notAfter)
  }

  // The tick looks at the certificate at time r; if the query does not list it,
  // the query itself is the look. Ids are keys, so the loop meets it once.
  ghost predicate LooksAt(k: Tick, id: CertId, notAfter: Time, r: Time) {
    && (forall m: nat, n: nat :: LoopsOver(k, id, notAfter, m) && LoopsOver(k, id, notAfter, n) ==> m == n)
    && (forall n: nat :: LoopsOver(k, id, notAfter, n) ==> k.clock(n) == r)
    && ((forall n: nat :: !LoopsOver(k, id, notAfter, n)) ==> r == k.now)
  }

  // A certificate the query leaves out has more than the threshold's days left.
  lemma UnlistedIsEarly(k: Tick, id: CertId, notAfter: Time, t: int)
    requires Covers(k, id, notAfter, t) && forall n: nat :: !LoopsOver(k, id, notAfter, n)
    ensures NotYet(notAfter - k.now, t)
  {
    var thresholds := k.settings.value.thresholdDays;
    var c :| c in k.inventory.value && IsCert(c, id, notAfter);
    InList(k.inventory.value, k.now, Max(thresholds), c);
    if c in ListedBy(k) {
      var n: nat :| n < |ListedBy(k)| && ListedBy(k)[n] == c;
      assert LoopsOver(k, id, notAfter, n);
    }
    assert Max(thresholds) > 0 && notAfter > k.now + Max(thresholds) * DAY;
    assert (t + 1) * DAY <= Max(thresholds) * DAY;
  }

  /** A tick tries a threshold of a certificate iff, when it looks, that many
      whole days are left. */
  lemma TriesIff(k: Tick, id: CertId, notAfter: Time, t: int, r: Time)
    requires Covers(k, id, notAfter, t) && LooksAt(k, id, notAfter, r)
    ensures Tries(k, id, notAfter, t) <==> DaysRemaining(notAfter, r) == t
  {
    var thresholds := k.settings.value.thresholdDays;
    if Tries(k, id, notAfter, t) {
      var a :| a in Attempts(k) && IsCert(a.cert, id, notAfter) && a.threshold == t;
      InAttempts(k, a);
      var n: nat :| Planned(k, a, n);
      assert LoopsOver(k, id, notAfter, n);
    }
    if n: nat :| LoopsOver(k, id, notAfter, n) {
      if DaysRemaining(notAfter, r) == t {
        var a := Attempt(ListedBy(k)[n], t, t == Min(thresholds));
        assert Planned(k, a, n);
        InAttempts(k, a);
        assert IsCert(a.cert, id, notAfter);
      }
    } else {
      UnlistedIsEarly(k, id, notAfter, t);
      DayIs(notAfter, r, t);
    }
  }

  // ------------------------------------------------------------------- coverage

  // Ticks, when each looked at the certificate, and that time does not run back.
  ghost predicate Watched(ticks: seq<Tick>, looks: seq<Time>, id: CertId, notAfter: Time, t: int) {
    && |looks| == |ticks|
    && (forall m :: 0 <= m < |ticks| ==> Covers(ticks[m], id, notAfter, t) && LooksAt(ticks[m], id, notAfter, looks[m]))
    && (forall m, n :: 0 <= m < n < |looks| ==> looks[m] <= looks[n])
  }

  // One look comes before the threshold's day, the next one after it.
  predicate StepsOver(notAfter: Time, r: Time, next: Time, t: int) {
    NotYet(notAfter - r, t) && Over(notAfter - next, t)
  }

  ghost predicate SomeStepOver(looks: seq<Time>, notAfter: Time, t: int) {
    exists m :: 0 <= m < |looks| - 1 && StepsOver(notAfter, looks[m], looks[m + 1], t)
  }

  lemma TimeOnlyPasses(notAfter: Time, r: Time, next: Time, t: int)
    requires r <= next
    ensures NotYet(notAfter - next, t) ==> NotYet(notAfter - r, t)
    ensures Over(notAfter - r, t) ==> Over(notAfter - next, t)
    ensures !(NotYet(notAfter - r, t) && Over(notAfter - r, t))
  {
  }

  // The first look that does not come before the day.
  lemma FirstNotEarly(looks: seq<Time>, notAfter: Time, t: int) returns (k: nat)
    requires |looks| > 0 && NotYet(notAfter - looks[0], t) && !NotYet(notAfter - looks[|looks| - 1], t)
    ensures 0 < k < |looks| && !NotYet(notAfter - looks[k], t) && NotYet(notAfter - looks[k - 1], t)
  {
    k := 1;
    while NotYet(notAfter - looks[k], t)
      invariant 0 < k < |looks| && NotYet(notAfter - looks[k - 1], t)
      decreases |looks| - k
    {
      k := k + 1;
    }
  }

  predicate OnDay(left: int, t: int) {
    !NotYet(left, t) && !Over(left, t)
  }

  // Between look k-1 and look k the day has begun and is over.
  lemma StepOverAt(looks: seq<Time>, notAfter: Time, t: int, k: nat)
    requires 0 < k < |looks| && forall m, n :: 0 <= m < n < |looks| ==> looks[m] <= looks[n]
    requires NotYet(notAfter - looks[k - 1], t) && Over(notAfter - looks[k], t)
    ensures SomeStepOver(looks, notAfter, t)
    ensures forall m :: 0 <= m < |looks| ==> !OnDay(notAfter - looks[m], t)
  {
    var p := k - 1;
    assert StepsOver(notAfter, looks[p], looks[p + 1], t);
    forall m | 0 <= m < |looks| ensures !OnDay(notAfter - looks[m], t) {
      if m < k {
        TimeOnlyPasses(notAfter, looks[m], looks[k - 1], t);
      } else {
        TimeOnlyPasses(notAfter, looks[k], looks[m], t);
      }
    }
  }

  // Look k is on the day.
  lemma NoStepOverAround(looks: seq<Time>, notAfter: Time, t: int, k: nat)
    requires k < |looks| && forall m, n :: 0 <= m < n < |looks| ==> looks[m] <= looks[n]
    requires OnDay(notAfter - looks[k], t)
    ensures !SomeStepOver(looks, notAfter, t)
  {
    forall m | 0 <= m < |looks| - 1 ensures !StepsOver(notAfter, looks[m], looks[m + 1], t) {
      if m < k {
        TimeOnlyPasses(notAfter, looks[m + 1], looks[k], t);
      } else {
        TimeOnlyPasses(notAfter, looks[k], looks[m], t);
      }
    }
  }

  lemma LooksPassOverIff(looks: seq<Time>, notAfter: Time, t: int)
    requires |looks| > 0 && forall m, n :: 0 <= m < n < |looks| ==> looks[m] <= looks[n]
    requires NotYet(notAfter - looks[0], t) && Over(notAfter - looks[|looks| - 1], t)
    ensures (forall m :: 0 <= m < |looks| ==> !OnDay(notAfter - looks[m], t)) <==> SomeStepOver(looks, notAfter, t)
  {
    var last := |looks| - 1;
    TimeOnlyPasses(notAfter, looks[last], looks[last], t);
    var k := FirstNotEarly(looks, notAfter, t);
    if Over(notAfter - looks[k], t) {
      StepOverAt(looks, notAfter, t, k);
    } else {
      NoStepOverAround(looks, notAfter, t, k);
    }
  }

  /** Exactly when a threshold is passed over. If a certificate is watched from
      before the threshold's day until after it, no tick tries the threshold if
      and only if two successive looks lie on either side of that day. */
  lemma PassedOverIff(ticks: seq<Tick>, looks: seq<Time>, id: CertId, notAfter: Time, t: int)
    requires Watched(ticks, looks, id, notAfter, t) && |looks| > 0
    requires NotYet(notAfter - looks[0], t) && Over(notAfter - looks[|looks| - 1], t)
    ensures (forall m :: 0 <= m < |ticks| ==> !Tries(ticks[m], id, notAfter, t)) <==> SomeStepOver(looks, notAfter, t)
  {
    forall m | 0 <= m < |ticks| ensures Tries(ticks[m], id, notAfter, t) <==> OnDay(notAfter - looks[m], t) {
      TriesIff(ticks[m], id, notAfter, t, looks[m]);
      DayIs(notAfter, looks[m], t);
    }
    LooksPassOverIff(looks, notAfter, t);
  }

  /** Looks at most a day apart never step over a threshold: between a look
      before its day and one that is not, some tick tries it. Settings and the
      rest of the certificate's row may change meanwhile. */
  lemma ThresholdIsCovered(ticks: seq<Tick>, looks: seq<Time>, id: CertId, notAfter: Time, t: int) returns (k: nat)
    requires Watched(ticks, looks, id, notAfter, t) && |looks| > 0
    requires forall m :: 0 <= m < |looks| - 1 ==> looks[m + 1] <= looks[m] + DAY
    requires NotYet(notAfter - looks[0], t) && !NotYet(notAfter - looks[|looks| - 1], t)
    ensures 0 < k < |ticks| && Tries(ticks[k], id, notAfter, t)
  {
    k := FirstNotEarly(looks, notAfter, t);
    assert looks[k - 1 + 1] <= looks[k - 1] + DAY;
    ADayIsNotStepsOver(notAfter, looks[k - 1], looks[k], t);
    DayIs(notAfter, looks[k], t);
    TriesIff(ticks[k], id, notAfter, t, looks[k]);
  }

  lemma ADayIsNotStepsOver(notAfter: Time, r: Time, next: Time, t: int)
    requires next <= r + DAY && NotYet(notAfter - r, t)
    ensures !Over(notAfter - next, t)
  {
    assert (t + 1) * DAY == t * DAY + DAY && (t - 1) * DAY == t * DAY - DAY;
  }

  /** The shipped daily tick does not keep looks within a day of each other: the
      loop reaches a certificate a moment after the query, not always the same
      moment. Here the first look comes one and every later one two nanoseconds
      after ticks that are exactly a day apart, and threshold 7 is passed over. */
  lemma DailyTickPassesOver(ticks: seq<Tick>, id: CertId, settings: Settings)
    requires settings.thresholdDays == [30, 15, 7, 1]
    requires forall m :: 0 <= m < |ticks| ==> ticks[m].settings == Some(settings) && ticks[m].now == m * DAY
    requires forall m, n: nat :: 0 <= m < |ticks| ==> ticks[m].clock(n) == m * DAY + (if m == 0 then 1 else 2)
    ensures forall m :: 0 <= m < |ticks| ==> !Tries(ticks[m], id, 8 * DAY + 1, 7)
  {
    forall m | 0 <= m < |ticks| ensures !Tries(ticks[m], id, 8 * DAY + 1, 7) {
      if a :| a in Attempts(ticks[m]) && IsCert(a.cert, id, 8 * DAY + 1) && a.threshold == 7 {
        InAttempts(ticks[m], a);
        var n: nat :| Planned(ticks[m], a, n);
        NoDayIsTheSeventh(m);
        assert false;
      }
    }
  }

  lemma NoDayIsTheSeventh(m: nat)
    ensures DaysRemaining(8 * DAY + 1, m * DAY + (if m == 0 then 1 else 2)) != 7
  {
    DayIs(8 * DAY + 1, m * DAY + (if m == 0 then 1 else 2), 7);
  }

  /** The largest threshold, if it is positive, is different: the query's window
      ends where its day begins, so it is tried only by a tick at exactly that
      many days whose loop reaches the certificate in the same instant. */
  lemma LargestThresholdIff(k: Tick, id: CertId, notAfter: Time, t: nat)
    requires k.settings.Some? && k.settings.value.thresholdDays != [] && 0 < t == Max(k.settings.value.thresholdDays)
    requires forall n: nat :: k.now <= k.clock(n)
    ensures Tries(k, id, notAfter, t) <==>
            && notAfter - k.now == t * DAY
            && exists n: nat :: LoopsOver(k, id, notAfter, n) && k.clock(n) == k.now
  {
    var thresholds := k.settings.value.thresholdDays;
    MaxAndMin(thresholds, t);
    if Tries(k, id, notAfter, t) {
      var a :| a in Attempts(k) && IsCert(a.cert, id, notAfter) && a.threshold == t;
      InAttempts(k, a);
      var n: nat :| Planned(k, a, n);
      InList(k.inventory.value, k.now, t, a.cert);
      DayIs(notAfter, k.clock(n), t);
      assert LoopsOver(k, id, notAfter, n);
    }
    if n: nat :| notAfter - k.now == t * DAY && LoopsOver(k, id, notAfter, n) && k.clock(n) == k.now {
      DayIs(notAfter, k.now, t);
      var a := Attempt(ListedBy(k)[n], t, t == Min(thresholds));
      assert Planned(k, a, n);
      InAttempts(k, a);
    }
  }

  /** So coverage fails for it: with the shipped thresholds, a certificate that
      is checked at noon every day and expires at one gets no 30 day reminder. */
  lemma LargestThresholdIsMissed(ticks: seq<Tick>, id: CertId, settings: Settings)
    requires settings.thresholdDays == [30, 15, 7, 1]
    requires forall m :: 0 <= m < |ticks| ==> ticks[m].settings == Some(settings) && ticks[m].now == m * DAY
    requires forall m, n: nat :: 0 <= m < |ticks| ==> ticks[m].now <= ticks[m].clock(n)
    ensures forall m :: 0 <= m < |ticks| ==> !Tries(ticks[m], id, 40 * DAY + DAY / 24, 30)
  {
    MaxAndMin(settings.thresholdDays, 30);
    forall m | 0 <= m < |ticks| ensures !Tries(ticks[m], id, 40 * DAY + DAY / 24, 30) {
      LargestThresholdIff(ticks[m], id, 40 * DAY + DAY / 24, 30);
    }
  }

  // ------------------------------------------------------- sending and recording

  type Pair = (CertId, int)

  // The engine's outside: the log table, and per pair the mails that went out,
  // those that went out without an acknowledgement, and the acknowledged ones
  // whose log entry was reported as not written.
  datatype Mail = Mail(log: seq<LogEntry>, delivered: multiset<Pair>, unheard: multiset<Pair>,
                       unrecorded: multiset<Pair>)

  const NO_MAIL := Mail([], multiset{}, multiset{}, multiset{})

  predicate HasSent(log: seq<LogEntry>, p: Pair) {
    exists e :: e in log && e.certificateId == p.0 && e.thresholdDays == p.1 && e.sent
  }

  function SentCount(log: seq<LogEntry>, p: Pair): nat {
    if log == [] then 0
    else
      var e := log[|log| - 1];
      SentCount(log[..|log| - 1], p) + (if e.sent && (e.certificateId, e.thresholdDays) == p then 1 else 0)
  }

  lemma {:induction false} SentCountPositive(log: seq<LogEntry>, p: Pair)
    ensures HasSent(log, p) <==> SentCount(log, p) > 0
  {
    if log == [] {
    } else {
      SentCountPositive(log[..|log| - 1], p);
      var e := log[|log| - 1];
      assert log == log[..|log| - 1] + [e];
      if e.sent && (e.certificateId, e.thresholdDays) == p { assert e in log; }
    }
  }

  function Recipients(a: Attempt, settings: Settings): seq<string> {
    (if a.cert.notifyEmails != [] then a.cert.notifyEmails else settings.defaultRecipients) +
    (if a.escalate then settings.escalationRecipients else [])
  }

  function AfterOne(m: Mail, a: Attempt, settings: Settings, x: Outcome): Mail {
    var p := (a.cert.id, a.threshold);
    if !x.lookup || HasSent(m.log, p) || !x.render then m
    else
      var entry := LogEntry(a.cert.id, a.threshold, x.send.Acked(), Recipients(a, settings));
      Mail(if x.record.Landed() then m.log + [entry] else m.log,
           if x.send.Landed() then m.delivered + multiset{p} else m.delivered,
           if x.send.LostReply? then m.unheard + multiset{p} else m.unheard,
           if x.send.Acked() && !x.record.Acked() then m.unrecorded + multiset{p} else m.unrecorded)
  }

  function AfterAll(m: Mail, attempts: seq<Attempt>, settings: Settings, x: nat -> Outcome): Mail {
    if attempts == [] then m
    else
      var n := |attempts| - 1;
      AfterOne(AfterAll(m, attempts[..n], settings, x), attempts[n], settings, x(n))
  }

  lemma OneMoreThreshold(c: Certificate, at: Time, thresholds: seq<int>, min: int, j: nat)
    requires j < |thresholds|
    ensures AttemptsFor(c, at, thresholds[..j + 1], min) ==
            AttemptsFor(c, at, thresholds[..j], min) +
            (if DaysRemaining(c.notAfter, at) == thresholds[j]
             then [Attempt(c, thresholds[j], thresholds[j] == min)]
             else [])
  {
    assert thresholds[..j + 1][..j] == thresholds[..j];
  }

  lemma AfterOneMore(m: Mail, attempts: seq<Attempt>, a: Attempt, settings: Settings, x: nat -> Outcome)
    ensures AfterAll(m, attempts + [a], settings, x) ==
            AfterOne(AfterAll(m, attempts, settings, x), a, settings, x(|attempts|))
  {
    assert (attempts + [a])[..|attempts|] == attempts;
  }

  function AfterTick(m: Mail, t: Tick): Mail {
    if t.settings.None? then m else AfterAll(m, Attempts(t), t.settings.value, t.outcomes)
  }

  function AfterTicks(m: Mail, ticks: seq<Tick>): Mail {
    if ticks == [] then m else AfterTick(AfterTicks(m, ticks[..|ticks| - 1]), ticks[|ticks| - 1])
  }

  ghost predicate Tidy(m: Mail, p: Pair) {
    SentCount(m.log, p) <= 1 && m.delivered[p] <= SentCount(m.log, p) + m.unheard[p] + m.unrecorded[p]
  }

  lemma OneMoreEntry(log: seq<LogEntry>, e: LogEntry, p: Pair)
    ensures SentCount(log + [e], p) ==
            SentCount(log, p) + (if e.sent && (e.certificateId, e.thresholdDays) == p then 1 else 0)
  {
    assert (log + [e])[..|log|] == log;
  }

  lemma TidyOne(m: Mail, a: Attempt, settings: Settings, x: Outcome, p: Pair)
    requires Tidy(m, p)
    ensures Tidy(AfterOne(m, a, settings, x), p)
  {
    SentCountPositive(m.log, p);
    OneMoreEntry(m.log, LogEntry(a.cert.id, a.threshold, x.send.Acked(), Recipients(a, settings)), p);
  }

  lemma {:induction false} TidyAll(m: Mail, attempts: seq<Attempt>, settings: Settings, x: nat -> Outcome, p: Pair)
    requires Tidy(m, p)
    ensures Tidy(AfterAll(m, attempts, settings, x), p)
  {
    if attempts == [] {
    } else {
      var n := |attempts| - 1;
      TidyAll(m, attempts[..n], settings, x, p);
      TidyOne(AfterAll(m, attempts[..n], settings, x), attempts[n], settings, x(n), p);
    }
  }

  lemma {:induction false} TidyTicks(m: Mail, ticks: seq<Tick>, p: Pair)
    requires Tidy(m, p)
    ensures Tidy(AfterTicks(m, ticks), p)
  {
    if ticks == [] {
    } else {
      var n := |ticks| - 1;
      TidyTicks(m, ticks[..n], p);
      var t := ticks[n];
      if t.settings.Some? {
        TidyAll(AfterTicks(m, ticks[..n]), Attempts(t), t.settings.value, t.outcomes, p);
      }
    }
  }

  /** Over any ticks, setting edits (with duplicate thresholds, too) and
      failures: one `sent` entry per pair at most, and no more mails than one
      plus those that nobody acknowledged and those that could not be logged. */
  lemma OncePerThreshold(ticks: seq<Tick>, p: Pair)
    ensures var m := AfterTicks(NO_MAIL, ticks);
            SentCount(m.log, p) <= 1 && m.delivered[p] <= 1 + m.unheard[p] + m.unrecorded[p]
  {
    TidyTicks(NO_MAIL, ticks, p);
  }

  /** Nobody is logged as reminded whom no mail has reached: every `sent` entry
      stands for a delivery of its own. */
  lemma {:induction false} SentWasDelivered(ticks: seq<Tick>, p: Pair)
    ensures var m := AfterTicks(NO_MAIL, ticks);
            SentCount(m.log, p) <= m.delivered[p] && (HasSent(m.log, p) ==> m.delivered[p] >= 1)
  {
    DeliveredTicks(ticks, p);
    SentCountPositive(AfterTicks(NO_MAIL, ticks).log, p);
  }

  lemma {:induction false} DeliveredTicks(ticks: seq<Tick>, p: Pair)
    ensures var m := AfterTicks(NO_MAIL, ticks); SentCount(m.log, p) <= m.delivered[p]
  {
    if ticks != [] {
      var n := |ticks| - 1;
      DeliveredTicks(ticks[..n], p);
      var t := ticks[n];
      if t.settings.Some? {
        DeliveredAll(AfterTicks(NO_MAIL, ticks[..n]), Attempts(t), t.settings.value, t.outcomes, p);
      }
    }
  }

  lemma {:induction false} DeliveredAll(m: Mail, attempts: seq<Attempt>, settings: Settings, x: nat -> Outcome, p: Pair)
    requires SentCount(m.log, p) <= m.delivered[p]
    ensures var m' := AfterAll(m, attempts, settings, x); SentCount(m'.log, p) <= m'.delivered[p]
  {
    if attempts != [] {
      var n := |attempts| - 1;
      DeliveredAll(m, attempts[..n], settings, x, p);
      var before, a := AfterAll(m, attempts[..n], settings, x), attempts[n];
      OneMoreEntry(before.log, LogEntry(a.cert.id, a.threshold, x(n).send.Acked(), Recipients(a, settings)), p);
    }
  }

  // An entry that tick t can have made: about a listed certificate, for the
  // threshold that many days were left of, and sent to the certificate's own
  // recipients or else the default ones, and at the smallest threshold to the
  // escalation list as well.
  ghost predicate MadeBy(t: Tick, e: LogEntry) {
    && t.settings.Some? && t.inventory.Some?
    && exists n: nat :: n < |ListedBy(t)| && Describes(t, ListedBy(t)[n], t.clock(n), e)
  }

  predicate Describes(t: Tick, c: Certificate, at: Time, e: LogEntry)
    requires t.settings.Some?
  {
    var s := t.settings.value;
    var own := if c.notifyEmails == [] then s.defaultRecipients else c.notifyEmails;
    var smallest := forall d :: d in s.thresholdDays ==> e.thresholdDays <= d;
    && e.certificateId == c.id && e.thresholdDays in s.thresholdDays && e.thresholdDays == DaysRemaining(c.notAfter, at)
    && e.recipients == own + (if smallest then s.escalationRecipients else [])
  }

  lemma EntryOfAttempt(t: Tick, a: Attempt, sent: bool)
    requires a in Attempts(t)
    ensures t.settings.Some? && MadeBy(t, LogEntry(a.cert.id, a.threshold, sent, Recipients(a, t.settings.value)))
  {
    InAttempts(t, a);
    var n: nat :| Planned(t, a, n);
    var s := t.settings.value;
    forall d | d in s.thresholdDays ensures Min(s.thresholdDays) <= d { MaxAndMin(s.thresholdDays, d); }
    MaxAndMin(s.thresholdDays, a.threshold);
    assert ListedBy(t)[n] == a.cert;
    assert Describes(t, a.cert, t.clock(n), LogEntry(a.cert.id, a.threshold, sent, Recipients(a, s)));
  }

  lemma {:induction false} EntriesOfAttempts(m: Mail, t: Tick, attempts: seq<Attempt>, e: LogEntry)
    requires t.settings.Some? && forall a :: a in attempts ==> a in Attempts(t)
    requires e in AfterAll(m, attempts, t.settings.value, t.outcomes).log
    ensures e in m.log || MadeBy(t, e)
  {
    if attempts != [] {
      var n := |attempts| - 1;
      var before := AfterAll(m, attempts[..n], t.settings.value, t.outcomes);
      assert attempts[n] in attempts;
      EntryOfAttempt(t, attempts[n], t.outcomes(n).send.Acked());
      if e in before.log { EntriesOfAttempts(m, t, attempts[..n], e); }
    }
  }

  /** Every log entry, over any ticks, was made by one of them for a certificate
      and a threshold of that tick, and names the right recipients. */
  lemma {:induction false} EntryComesFromATick(ticks: seq<Tick>, e: LogEntry)
    requires e in AfterTicks(NO_MAIL, ticks).log
    ensures exists t :: t in ticks && MadeBy(t, e)
  {
    if ticks != [] {
      var n := |ticks| - 1;
      var before := AfterTicks(NO_MAIL, ticks[..n]);
      if e in before.log {
        EntryComesFromATick(ticks[..n], e);
      } else {
        EntriesOfAttempts(before, ticks[n], Attempts(ticks[n]), e);
        assert ticks[n] in ticks;
      }
    }
  }

  lemma {:induction false} LogOnlyGrows(m: Mail, attempts: seq<Attempt>, settings: Settings, x: nat -> Outcome, p: Pair)
    requires HasSent(m.log, p)
    ensures HasSent(AfterAll(m, attempts, settings, x).log, p)
  {
    if attempts == [] {
    } else {
      LogOnlyGrows(m, attempts[..|attempts| - 1], settings, x, p);
    }
  }

  /** An attempt whose calls succeed leaves the pair logged as sent. */
  lemma {:induction false} AttemptSucceeds(m: Mail, attempts: seq<Attempt>, settings: Settings, x: nat -> Outcome,
                                           k: nat)
    requires k < |attempts|
    requires x(k).lookup && x(k).render && x(k).send.Acked() && x(k).record.Landed()
    ensures HasSent(AfterAll(m, attempts, settings, x).log, (attempts[k].cert.id, attempts[k].threshold))
    decreases |attempts|
  {
    var n := |attempts| - 1;
    var p := (attempts[k].cert.id, attempts[k].threshold);
    var before := AfterAll(m, attempts[..n], settings, x);
    var after := AfterOne(before, attempts[n], settings, x(n));
    if k < n {
      AttemptSucceeds(m, attempts[..n], settings, x, k);
    } else if !HasSent(before.log, p) {
      assert after.log[|before.log|] == LogEntry(p.0, p.1, true, Recipients(attempts[n], settings));
    }
  }

  // ------------------------------------------------------------------ the engine

  class Engine {
    var log: seq<LogEntry>
    ghost var delivered: multiset<Pair>
    ghost var unheard: multiset<Pair>
    ghost var unrecorded: multiset<Pair>

    ghost function Outside(): Mail
      reads this
    {
      Mail(log, delivered, unheard, unrecorded)
    }

    constructor ()
      ensures Outside() == NO_MAIL
    {
      log, delivered, unheard, unrecorded := [], multiset{}, multiset{}, multiset{};
    }

    method Record(e: LogEntry, fault: Fault) returns (ok: bool)
      modifies `log
      ensures log == if fault.Landed() then old(log) + [e] else old(log)
      ensures ok == fault.Acked()
    {
      if fault.Landed() { log := log + [e]; }
      ok := fault.Acked();
    }

    method SendOneReminder(a: Attempt, settings: Settings, x: Outcome)
      modifies this
      ensures Outside() == AfterOne(old(Outside()), a, settings, x)
      ensures var p := (a.cert.id, a.threshold);
              var goes := x.lookup && !HasSent(old(log), p) && x.render;
              && delivered == (if goes && x.send.Landed() then old(delivered) + multiset{p} else old(delivered))
              && unheard == (if goes && x.send.LostReply? then old(unheard) + multiset{p} else old(unheard))
              && unrecorded == (if goes && x.send.Acked() && !x.record.Acked() then old(unrecorded) + multiset{p}
                                else old(unrecorded))
              && (!goes || !x.record.Landed() ==> log == old(log))
              && (goes && x.record.Landed() ==>
                    && |log| == |old(log)| + 1 && log[..|old(log)|] == old(log)
                    && var e := log[|old(log)|];
                       && (e.certificateId, e.thresholdDays) == p && (e.sent <==> x.send.Acked())
                       && e.recipients == (if a.cert.notifyEmails == [] then settings.defaultRecipients
                                           else a.cert.notifyEmails) +
                                          (if a.escalate then settings.escalationRecipients else []))
    {
      if !x.lookup || HasSent(log, (a.cert.id, a.threshold)) {
        return;
      }
      var recipients := settings.defaultRecipients;
      if |a.cert.notifyEmails| > 0 {
        recipients := a.cert.notifyEmails;
      }
      assert recipients + [] == recipients;
      if a.escalate {
        recipients := recipients + settings.escalationRecipients;
      }
      if !x.render {
        return;
      }
      if x.send.Landed() {
        delivered := delivered + multiset{(a.cert.id, a.threshold)};
      }
      if x.send.LostReply? {
        unheard := unheard + multiset{(a.cert.id, a.threshold)};
      }
      var ok := Record(LogEntry(a.cert.id, a.threshold, x.send.Acked(), recipients), x.record);
      if x.send.Acked() && !ok {
        unrecorded := unrecorded + multiset{(a.cert.id, a.threshold)};
      }
    }

    method Bounds(thresholds: seq<int>) returns (max: int, min: int)
      requires thresholds != []
      ensures max == Max(thresholds) && min == Min(thresholds)
    {
      max, min := thresholds[0], thresholds[0];
      assert thresholds[..1] == [thresholds[0]];
      for i := 1 to |thresholds|
        invariant max == Max(thresholds[..i]) && min == Min(thresholds[..i])
      {
        assert thresholds[..i + 1][..i] == thresholds[..i];
        if thresholds[i] > max { max := thresholds[i]; }
        if thresholds[i] < min { min := thresholds[i]; }
      }
      assert thresholds[..|thresholds|] == thresholds;
    }

    // The inner loop: every threshold against one certificate.
    method RemindAbout(c: Certificate, at: Time, settings: Settings, min: int, outcomes: nat -> Outcome,
                       ghost start: Mail, ghost done: seq<Attempt>, sent: nat)
      returns (count: nat)
      requires sent == |done| && Outside() == AfterAll(start, done, settings, outcomes)
      modifies this
      ensures var all := done + AttemptsFor(c, at, settings.thresholdDays, min);
              Outside() == AfterAll(start, all, settings, outcomes) && count == |all|
    {
      var thresholds := settings.thresholdDays;
      var daysRemaining := DaysRemaining(c.notAfter, at);
      count := sent;
      ghost var all := done;
      assert done + [] == done;
      for j := 0 to |thresholds|
        invariant all == done + AttemptsFor(c, at, thresholds[..j], min) && count == |all|
        invariant Outside() == AfterAll(start, all, settings, outcomes)
      {
        OneMoreThreshold(c, at, thresholds, min, j);
        if daysRemaining == thresholds[j] {
          var a := Attempt(c, thresholds[j], thresholds[j] == min);
          SendOneReminder(a, settings, outcomes(count));
          AfterOneMore(start, all, a, settings, outcomes);
          all := all + [a];
          count := count + 1;
        }
      }
      assert thresholds[..|thresholds|] == thresholds;
    }

    /** One tick: the certificates in the window of the largest threshold, each
        against every threshold. */
    method SendExpiryReminders(t: Tick)
      modifies this
      ensures Outside() == AfterTick(old(Outside()), t)
    {
      if t.settings.None? { return; }
      var settings := t.settings.value;
      if |settings.thresholdDays| == 0 { return; }
      var max, min := Bounds(settings.thresholdDays);
      if t.inventory.None? { return; }
      var certs := List(t.inventory.value, t.now, max);
      ghost var start := Outside();
      var count := 0;
      for i := 0 to |certs|
        invariant count == |AttemptsOver(certs[..i], t.clock, settings.thresholdDays, min)|
        invariant var done := AttemptsOver(certs[..i], t.clock, settings.thresholdDays, min);
                  Outside() == AfterAll(start, done, settings, t.outcomes)
      {
        ghost var done := AttemptsOver(certs[..i], t.clock, settings.thresholdDays, min);
        count := RemindAbout(certs[i], t.clock(i), settings, min, t.outcomes, start, done, count);
        assert certs[..i + 1][..i] == certs[..i];
      }
      assert certs[..|certs|] == certs;
    }
  }

  // -------------------------------------------------------------------- renewals

  datatype OrderStatus = AwaitingValidation | Issuing | Issued | Failed

  /** renewOne: one validation when the renewal starts and further ones while
      the order keeps waiting, up to the configured number; the report says
      whether the last answer was an issued order. */
  method RenewOne(started: bool, answers: nat -> Option<OrderStatus>, validateAttempts: nat)
    returns (success: bool, calls: nat)
    ensures !started ==> calls == 0 && !success
    ensures started ==> 1 <= calls && (calls <= validateAttempts || calls == 1)
    ensures started ==> forall i: nat :: i < calls - 1 ==> answers(i) == Some(AwaitingValidation)
    ensures started && calls < validateAttempts ==> answers(calls - 1) != Some(AwaitingValidation)
    ensures success <==> started && answers(calls - 1) == Some(Issued)
  {
    success, calls := false, 0;
    if !started { return; }
    var o := answers(0);
    calls := 1;
    if o.None? { return; }
    var attempt := 1;
    while attempt < validateAttempts
      invariant attempt == calls >= 1 && (calls <= validateAttempts || calls == 1)
      invariant o.Some? && o == answers(calls - 1)
      invariant forall i: nat :: i < calls - 1 ==> answers(i) == Some(AwaitingValidation)
    {
      if o.value != AwaitingValidation { break; }
      o := answers(calls);
      calls := calls + 1;
      if o.None? { return; }
      attempt := attempt + 1;
    }
    success := o.value == Issued;
  }
}
