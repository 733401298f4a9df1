// The lockout of local accounts: how often a password can be compared.
module LoginLockout {
  import opened Prelude

  type Time = int                      // nanoseconds

  const MINUTE: int := 60 * 1_000_000_000
  const MAX_FAILED_LOGINS: nat := 5
  const LOCKOUT: int := 15 * MINUTE

  datatype Stored = Stored(failedLoginAttempts: nat, lockedUntil: Option<Time>)

  // A login: when the lock is looked at, the later moment the new lock counts
  // from, whether the password is right, and what becomes of the row update.
  datatype Login = Login(now: Time, lockedAt: Time, correct: bool, fault: Fault)

  datatype Reply = TooManyAttempts | InvalidCredentials | LoggedIn

  predicate IsLocked(a: Stored, now: Time) {
    a.lockedUntil.Some? && now < a.lockedUntil.value
  }

  function ReplyTo(a: Stored, x: Login): Reply {
    if IsLocked(a, x.now) then TooManyAttempts else if x.correct then LoggedIn else InvalidCredentials
  }

  function After(a: Stored, x: Login): Stored {
    if IsLocked(a, x.now) || !x.fault.Landed() then a
    else if x.correct then Stored(0, None)
    else
      var attempts := a.failedLoginAttempts + 1;
      Stored(attempts, if attempts >= MAX_FAILED_LOGINS then Some(x.lockedAt + LOCKOUT) else None)
  }

  class Account {
    var failedLoginAttempts: nat
    var lockedUntil: Option<Time>

    ghost function State(): Stored
      reads this
    {
      Stored(failedLoginAttempts, lockedUntil)
    }

    constructor ()
      ensures State() == Stored(0, None)
    {
      failedLoginAttempts, lockedUntil := 0, None;
    }

    /** An unsuccessful row update is not noticed by the login. */
    method LocalLogin(x: Login) returns (r: Reply)
      modifies this
      ensures r == ReplyTo(old(State()), x) && State() == After(old(State()), x)
      ensures var locked := old(lockedUntil).Some? && x.now < old(lockedUntil).value;
              && (r == TooManyAttempts <==> locked)
              && (r == LoggedIn <==> !locked && x.correct)
              && (locked || !x.fault.Landed() ==> State() == old(State()))
              && (!locked && x.fault.Landed() && x.correct ==> failedLoginAttempts == 0 && lockedUntil == None)
              && (!locked && x.fault.Landed() && !x.correct ==>
                    && failedLoginAttempts == old(failedLoginAttempts) + 1
                    && lockedUntil == if failedLoginAttempts >= 5 then Some(x.lockedAt + 15 * MINUTE) else None)
    {
      if lockedUntil.Some? && x.now < lockedUntil.value {
        return TooManyAttempts;
      }
      if !x.correct {
        var attempts := failedLoginAttempts + 1;
        var until: Option<Time> := None;
        if attempts >= MAX_FAILED_LOGINS {
          until := Some(x.lockedAt + LOCKOUT);
        }
        if x.fault.Landed() {
          failedLoginAttempts, lockedUntil := attempts, until;
        }
        return InvalidCredentials;
      }
      if x.fault.Landed() {
        failedLoginAttempts, lockedUntil := 0, None;
      }
      r := LoggedIn;
    }
  }

  // ------------------------------------------------------------------- histories

  // Logins one after the other, none of them with the right password.
  ghost predicate Sequential(xs: seq<Login>) {
    && (forall i :: 0 <= i < |xs| ==> xs[i].now <= xs[i].lockedAt && !xs[i].correct)
    && (forall i :: 0 < i < |xs| ==> xs[i - 1].lockedAt <= xs[i].now)
  }

  function StateAfter(xs: seq<Login>): Stored {
    if xs == [] then Stored(0, None) else After(StateAfter(xs[..|xs| - 1]), xs[|xs| - 1])
  }

  // The moments a password was compared.
  function Comparisons(xs: seq<Login>): seq<Time> {
    if xs == [] then []
    else
      var n := |xs| - 1;
      Comparisons(xs[..n]) + (if IsLocked(StateAfter(xs[..n]), xs[n].now) then [] else [xs[n].now])
  }

  // The comparisons whose failure did not reach the row.
  function Unrecorded(xs: seq<Login>): nat {
    if xs == [] then 0
    else
      var n := |xs| - 1;
      Unrecorded(xs[..n]) + (if IsLocked(StateAfter(xs[..n]), xs[n].now) || xs[n].fault.Landed() then 0 else 1)
  }

  // The answers to a history, which may contain right passwords.
  function Replies(xs: seq<Login>): (r: seq<Reply>)
    ensures |r| == |xs|
  {
    if xs == [] then []
    else Replies(xs[..|xs| - 1]) + [ReplyTo(StateAfter(xs[..|xs| - 1]), xs[|xs| - 1])]
  }

  lemma {:induction false} ReplyAt(xs: seq<Login>, i: nat)
    requires i < |xs|
    ensures Replies(xs)[i] == ReplyTo(StateAfter(xs[..i]), xs[i])
  {
    var front := xs[..|xs| - 1];
    if i < |front| {
      assert front[..i] == xs[..i];
      ReplyAt(front, i);
    }
  }

  /** Whatever the history: a login succeeds exactly if its password is right and
      it is compared, and it is not compared exactly if it is told that there
      were too many attempts. */
  lemma RepliesMean(xs: seq<Login>, i: nat)
    requires i < |xs|
    ensures Replies(xs)[i] == LoggedIn <==> xs[i].correct && |Comparisons(xs[..i + 1])| > |Comparisons(xs[..i])|
    ensures Replies(xs)[i] == TooManyAttempts <==> Comparisons(xs[..i + 1]) == Comparisons(xs[..i])
  {
    ReplyAt(xs, i);
    assert xs[..i + 1][..i] == xs[..i];
  }

  lemma OneMore(xs: seq<Login>, x: Login)
    ensures var a := StateAfter(xs);
            && StateAfter(xs + [x]) == After(a, x)
            && Comparisons(xs + [x]) == Comparisons(xs) + (if IsLocked(a, x.now) then [] else [x.now])
            && Replies(xs + [x]) == Replies(xs) + [ReplyTo(a, x)]
  {
    assert (xs + [x])[..|xs|] == xs;
  }

  // The history `all` consists of a past, and of what counts from there on.
  ghost predicate Continues(all: seq<Login>, past: seq<Login>, rest: seq<Login>) {
    && StateAfter(all) == StateAfter(rest) && Comparisons(all) == Comparisons(past) + Comparisons(rest)
    && Replies(all) == Replies(past) + Replies(rest)
  }

  lemma AppendLast<T>(all: seq<T>, past: seq<T>, rest: seq<T>, last: seq<T>)
    requires all == past + rest
    ensures all + last == past + (rest + last)
  {
  }

  lemma ContinuesOne(all: seq<Login>, past: seq<Login>, rest: seq<Login>, x: Login)
    requires Continues(all, past, rest)
    ensures Continues(all + [x], past, rest + [x])
  {
    OneMore(all, x);
    OneMore(rest, x);
    var a := StateAfter(rest);
    AppendLast(Comparisons(all), Comparisons(past), Comparisons(rest), if IsLocked(a, x.now) then [] else [x.now]);
    AppendLast(Replies(all), Replies(past), Replies(rest), [ReplyTo(a, x)]);
  }

  /** A success that is recorded starts the account afresh: what follows is
      judged, and compared, as if nothing had happened before. */
  lemma {:induction false} SuccessStartsAfresh(before: seq<Login>, x: Login, after: seq<Login>)
    requires !IsLocked(StateAfter(before), x.now) && x.correct && x.fault.Landed()
    ensures Continues(before + [x] + after, before + [x], after)
    decreases |after|
  {
    if after == [] {
      OneMore(before, x);
      assert before + [x] + [] == before + [x];
    } else {
      var front, last := after[..|after| - 1], after[|after| - 1];
      SuccessStartsAfresh(before, x, front);
      ContinuesOne(before + [x] + front, before + [x], front, last);
      assert front + [last] == after && (before + [x] + front) + [last] == before + [x] + after;
    }
  }

  // What an account's row says about the comparisons c, the last at or before now.
  ghost predicate Accounts(a: Stored, c: seq<Time>, unrecorded: nat, now: Time) {
    && |c| == a.failedLoginAttempts + unrecorded
    && (forall i :: 0 <= i < |c| ==> c[i] <= now)
    && (forall i, j :: 0 <= i < j < |c| ==> c[i] <= c[j])
    && (a.failedLoginAttempts < 5 ==> a.lockedUntil.None?)
    && (a.failedLoginAttempts >= 5 ==>
          && a.lockedUntil.Some?
          && a.lockedUntil.value >= c[4] + (a.failedLoginAttempts - 4) * LOCKOUT
          && c[|c| - 1] >= c[4] + (a.failedLoginAttempts - 5) * LOCKOUT)
  }

  ghost predicate Inv(xs: seq<Login>) {
    if xs == [] then Comparisons(xs) == [] && Unrecorded(xs) == 0 && StateAfter(xs) == Stored(0, None)
    else Accounts(StateAfter(xs), Comparisons(xs), Unrecorded(xs), xs[|xs| - 1].now)
  }

  lemma OneMoreLock(until: Time, at: Time, fifth: Time, attempts: nat)
    requires until >= fifth + (attempts - 4) * LOCKOUT && at >= until
    ensures at + LOCKOUT >= fifth + (attempts + 1 - 4) * LOCKOUT
    ensures at >= fifth + (attempts + 1 - 5) * LOCKOUT
  {
  }

  // One more wrong password that is compared.
  lemma OneMoreComparison(a: Stored, c: seq<Time>, unrecorded: nat, before: Time, x: Login)
    requires Accounts(a, c, unrecorded, before) && before <= x.now <= x.lockedAt && !x.correct && !IsLocked(a, x.now)
    ensures Accounts(After(a, x), c + [x.now], if x.fault.Landed() then unrecorded else unrecorded + 1, x.now)
  {
    if a.failedLoginAttempts >= 5 {
      OneMoreLock(a.lockedUntil.value, x.now, c[4], a.failedLoginAttempts);
    }
  }

  // One more login that meets the lock.
  lemma LockedChangesNothing(a: Stored, c: seq<Time>, unrecorded: nat, before: Time, x: Login)
    requires Accounts(a, c, unrecorded, before) && before <= x.now && IsLocked(a, x.now)
    ensures Accounts(After(a, x), c, unrecorded, x.now)
  {
  }

  lemma OneMoreLogin(a: Stored, c: seq<Time>, unrecorded: nat, before: Time, x: Login)
    requires Accounts(a, c, unrecorded, before) && before <= x.now <= x.lockedAt && !x.correct
    ensures var locked := IsLocked(a, x.now);
            Accounts(After(a, x), c + (if locked then [] else [x.now]),
                     unrecorded + (if locked || x.fault.Landed() then 0 else 1), x.now)
  {
    if IsLocked(a, x.now) {
      LockedChangesNothing(a, c, unrecorded, before, x);
      assert c + [] == c;
    } else {
      OneMoreComparison(a, c, unrecorded, before, x);
    }
  }

  lemma EmptyHistory(now: Time)
    ensures Accounts(StateAfter([]), Comparisons([]), Unrecorded([]), now)
  {
  }

  lemma {:induction false} InvHolds(xs: seq<Login>)
    requires Sequential(xs)
    ensures Inv(xs)
  {
    if xs == [] {
    } else {
      var n := |xs| - 1;
      var front, x := xs[..n], xs[n];
      var before := if n > 0 then xs[n - 1].now else x.now;
      if n > 0 {
        InvHolds(front);
        assert front[n - 1] == xs[n - 1];
      } else {
        EmptyHistory(before);
      }
      OneMoreLogin(StateAfter(front), Comparisons(front), Unrecorded(front), before, x);
    }
  }

  /** From a zero counter, without a success: the n-th comparison comes no
      earlier than the fifth plus a lockout for each one after it, save for
      failures that could not be recorded. */
  lemma ComparisonsAreSpaced(xs: seq<Login>, n: nat)
    requires Sequential(xs) && 5 <= n == |Comparisons(xs)|
    ensures Comparisons(xs)[n - 1] >= Comparisons(xs)[4] + (n - 5 - Unrecorded(xs)) * LOCKOUT
  {
    InvHolds(xs);
    var a, c := StateAfter(xs), Comparisons(xs);
    if a.failedLoginAttempts < 5 {
      NotPositive(n - 5 - Unrecorded(xs));
      assert c[4] <= c[n - 1];
    }
  }

  lemma NotPositive(k: int)
    requires k <= 0
    ensures k * LOCKOUT <= 0
  {
  }

  /** So the number of comparisons grows at most linearly with time, also over
      locks that expire. */
  lemma ComparisonsAreBounded(xs: seq<Login>)
    requires Sequential(xs) && |Comparisons(xs)| >= 5
    ensures var c := Comparisons(xs);
            |c| <= 5 + Unrecorded(xs) + (c[|c| - 1] - c[4]) / LOCKOUT
  {
    InvHolds(xs);
    var c := Comparisons(xs);
    ComparisonsAreSpaced(xs, |c|);
    Quotient(|c| - 5 - Unrecorded(xs), c[|c| - 1] - c[4]);
  }

  lemma Quotient(n: int, d: int)
    requires d >= 0 && n * LOCKOUT <= d
    ensures n <= d / LOCKOUT
  {
  }
}
