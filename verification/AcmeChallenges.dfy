// Stepping an ACME order through its authorizations. The challenge list is
// shared with the caller and changes in place; the provider's own state is a
// copy that only a call without errors hands back.
module AcmeChallenges {
  import opened Prelude

  datatype Challenge = Challenge(domain: string, verified: bool, error: string, automated: bool)

  datatype AuthzState = AuthzState(domain: string, triggered: bool, automated: bool, cleanedUp: bool)

  // The stored provider state: None if it cannot be decoded.
  type State = Option<seq<AuthzState>>

  // Status of an authorization, section 7.1.6 of RFC 8555.
  datatype Status = Pending | Processing | Valid | Invalid(detail: string) | Closed

  // What the CA and the DNS provider answer while one authorization is checked.
  datatype Reply = Reply(triggered: bool, polls: nat -> Option<Status>, keyAuth: bool)

  // --------------------------------------------------------------------- polling

  const MAX_POLLS: nat := 5

  predicate Settled(s: Option<Status>) {
    s.None? || !(s.value.Pending? || s.value.Processing?)
  }

  // The first settled answer among the remaining polls, or the last answer.
  function PollFrom(polls: nat -> Option<Status>, i: nat): Option<Status>
    requires i < MAX_POLLS
    decreases MAX_POLLS - i
  {
    if Settled(polls(i)) || i == MAX_POLLS - 1 then polls(i) else PollFrom(polls, i + 1)
  }

  method PollAuthorization(polls: nat -> Option<Status>) returns (s: Option<Status>, asked: nat)
    ensures s == PollFrom(polls, 0)
    ensures 1 <= asked <= MAX_POLLS && s == polls(asked - 1)
    ensures forall i: nat :: i < asked - 1 ==> !Settled(polls(i))
    ensures !Settled(s) ==> asked == MAX_POLLS
  {
    asked := 0;
    s := None;
    while asked < MAX_POLLS
      invariant 0 <= asked <= MAX_POLLS
      invariant asked > 0 ==> s == polls(asked - 1) && !Settled(s)
      invariant forall i: nat :: i < asked ==> !Settled(polls(i))
      invariant PollFrom(polls, 0) == if asked < MAX_POLLS then PollFrom(polls, asked) else polls(MAX_POLLS - 1)
    {
      s := polls(asked);
      asked := asked + 1;
      if Settled(s) { return; }
    }
  }

  // ------------------------------------------------------------- one check call

  // What checking one authorization leads to: its two entries, whether the CA
  // was triggered, whether the DNS record was removed, and whether the call
  // ends here with an error.
  datatype Step = Step(challenge: Challenge, authz: AuthzState, asked: bool, cleaned: bool, failed: bool)

  function CheckOne(c: Challenge, a: AuthzState, dns: bool, x: Reply): Step {
    if c.verified then Step(c, a, false, false, false)
    else if !a.triggered && !x.triggered then Step(c, a, true, false, true)
    else
      var a1 := a.(triggered := true);
      match PollFrom(x.polls, 0)
      case None => Step(c, a1, !a.triggered, false, true)
      case Some(Valid) =>
        var clean := a.automated && !a.cleanedUp && dns;
        Step(c.(verified := true), a1.(cleanedUp := a.cleanedUp || clean), !a.triggered, clean && x.keyAuth, false)
      case Some(Invalid(detail)) => Step(c.(error := detail), a1, !a.triggered, false, false)
      case Some(_) => Step(c, a1, !a.triggered, false, false)
  }

  // ------------------------------------------ what is found, told from the polls

  // The answer that settles the authorization within five polls.
  ghost predicate FirstAnswer(polls: nat -> Option<Status>, s: Option<Status>) {
    && s != Some(Pending) && s != Some(Processing)
    && exists k: nat :: && k < 5 && polls(k) == s
                        && forall j: nat :: j < k ==> polls(j) == Some(Pending) || polls(j) == Some(Processing)
  }

  // An open challenge whose authorization is polled: the CA knows or is told
  // that it may look.
  predicate IsPolled(c: Challenge, a: AuthzState, x: Reply) {
    !c.verified && (a.triggered || x.triggered)
  }

  ghost predicate FindsValid(c: Challenge, a: AuthzState, x: Reply) {
    IsPolled(c, a, x) && FirstAnswer(x.polls, Some(Valid))
  }

  ghost predicate FindsInvalid(c: Challenge, a: AuthzState, x: Reply, detail: string) {
    IsPolled(c, a, x) && FirstAnswer(x.polls, Some(Invalid(detail)))
  }

  // An open challenge that ends the call with an error.
  ghost predicate Fails(c: Challenge, a: AuthzState, x: Reply) {
    !c.verified && (IsPolled(c, a, x) ==> FirstAnswer(x.polls, None))
  }

  lemma {:induction false} FirstAnswerFrom(polls: nat -> Option<Status>, i: nat, s: Option<Status>)
    requires i < MAX_POLLS && forall j: nat :: j < i ==> !Settled(polls(j))
    ensures FirstAnswer(polls, s) <==> Settled(s) && PollFrom(polls, i) == s
    decreases MAX_POLLS - i
  {
    if !Settled(polls(i)) && i < MAX_POLLS - 1 { FirstAnswerFrom(polls, i + 1, s); }
  }

  /** What a check makes of a challenge: verified exactly if the authorization
      settles as valid within five polls, refused with the CA's reason exactly if
      it settles as invalid, and otherwise as it was. */
  ghost predicate Becomes(c: Challenge, a: AuthzState, x: Reply, after: Challenge) {
    && (after.verified <==> c.verified || FindsValid(c, a, x))
    && (forall detail :: FindsInvalid(c, a, x, detail) ==> after.error == detail)
    && ((forall detail :: !FindsInvalid(c, a, x, detail)) ==> after.error == c.error)
    && after.domain == c.domain && after.automated == c.automated
  }

  lemma StepFinds(c: Challenge, a: AuthzState, dns: bool, x: Reply)
    ensures var s := CheckOne(c, a, dns, x); (s.failed <==> Fails(c, a, x)) && Becomes(c, a, x, s.challenge)
  {
    forall s ensures FirstAnswer(x.polls, s) <==> Settled(s) && PollFrom(x.polls, 0) == s {
      FirstAnswerFrom(x.polls, 0, s);
    }
    match PollFrom(x.polls, 0)
    case Some(Invalid(detail)) => assert IsPolled(c, a, x) ==> FindsInvalid(c, a, x, detail);
    case _ =>
  }

  // What the call notes and does for one authorization it gets to.
  lemma StepActs(c: Challenge, a: AuthzState, dns: bool, x: Reply)
    ensures var s := CheckOne(c, a, dns, x);
            && (s.asked <==> !c.verified && !a.triggered)
            && (s.cleaned <==> FindsValid(c, a, x) && CanBeRemoved(a, dns) && x.keyAuth)
            && (!s.failed ==> s.authz == NotedFor(c, a, dns, x))
  {
    FirstAnswerFrom(x.polls, 0, Some(Valid));
  }

  ghost function NotedFor(c: Challenge, a: AuthzState, dns: bool, x: Reply): AuthzState {
    AuthzState(a.domain, a.triggered || !c.verified, a.automated,
               a.cleanedUp || (FindsValid(c, a, x) && CanBeRemoved(a, dns)))
  }

  predicate CanBeRemoved(a: AuthzState, dns: bool) {
    a.automated && !a.cleanedUp && dns
  }

  // The order as its row keeps it from call to call, how often each
  // authorization was triggered at the CA and cleaned up at the DNS provider,
  // and how many calls failed and how many write-backs of the row were lost.
  datatype World = World(challenges: seq<Challenge>, state: State, triggers: seq<nat>, cleanUps: seq<nat>,
                         failures: nat, lost: nat)

  // Challenge i and authorization i are about the same thing.
  predicate Aligned(challenges: seq<Challenge>, authz: seq<AuthzState>) {
    && |challenges| == |authz|
    && forall i :: 0 <= i < |authz| ==>
      challenges[i].domain == authz[i].domain && challenges[i].automated == authz[i].automated
  }

  predicate WellFormed(w: World) {
    && |w.triggers| == |w.cleanUps| == |w.challenges|
    && (w.state.Some? ==> Aligned(w.challenges, w.state.value))
  }

  // A call: whether DNS automation is configured, what the outside answers, and
  // what becomes of the statement that writes the order back.
  datatype Call = Call(dns: bool, replies: nat -> Reply, saved: Fault)

  function StepAt(challenges: seq<Challenge>, authz: seq<AuthzState>, c: Call, i: nat): Step
    requires i < |challenges| == |authz|
  {
    CheckOne(challenges[i], authz[i], c.dns, c.replies(i))
  }

  // How many authorizations a call gets to, looking from number i on: the one
  // that fails is the last.
  function Reached(challenges: seq<Challenge>, authz: seq<AuthzState>, c: Call, i: nat): (n: nat)
    requires i <= |challenges| == |authz|
    ensures i <= n <= |challenges|
    ensures forall j :: i <= j < n - 1 ==> !StepAt(challenges, authz, c, j).failed
    ensures n < |challenges| ==> n > i && StepAt(challenges, authz, c, n - 1).failed
    decreases |challenges| - i
  {
    if i == |challenges| then i
    else if StepAt(challenges, authz, c, i).failed then i + 1
    else Reached(challenges, authz, c, i + 1)
  }

  function CheckCall(w: World, c: Call): (w': World)
    requires WellFormed(w)
  {
    if w.state.None? then w.(failures := w.failures + 1)
    else
      var authz := w.state.value;
      var n := Reached(w.challenges, authz, c, 0);
      var size := |w.challenges|;
      var steps := seq(size, i requires 0 <= i < size => StepAt(w.challenges, authz, c, i));
      var failed := n > 0 && steps[n - 1].failed;
      World(seq(size, i requires 0 <= i < size => if i < n then steps[i].challenge else w.challenges[i]),
            if failed then w.state else Some(seq(size, i requires 0 <= i < size => steps[i].authz)),
            seq(size, i requires 0 <= i < size => w.triggers[i] + (if i < n && steps[i].asked then 1 else 0)),
            seq(size, i requires 0 <= i < size => w.cleanUps[i] + (if i < n && steps[i].cleaned then 1 else 0)),
            if failed then w.failures + 1 else w.failures,
            w.lost)
  }

  // No authorization before number i ends the call.
  ghost predicate GetsTo(challenges: seq<Challenge>, state: State, replies: nat -> Reply, i: nat) {
    && state.Some? && i < |challenges| == |state.value|
    && forall j: nat :: j < i ==> !Fails(challenges[j], state.value[j], replies(j))
  }

  // What a call makes of challenge i, if it gets there.
  ghost predicate Finds(challenges: seq<Challenge>, state: State, replies: nat -> Reply, i: nat, after: Challenge)
    requires i < |challenges|
  {
    if GetsTo(challenges, state, replies, i) then Becomes(challenges[i], state.value[i], replies(i), after)
    else after == challenges[i]
  }

  // The call fails if its state cannot be read or some authorization ends it;
  // otherwise the state notes what has been done.
  ghost predicate Notes(challenges: seq<Challenge>, state: State, dns: bool, replies: nat -> Reply,
                        newState: State, failed: bool)
  {
    && (failed <==> state.None? || exists i: nat :: i < |challenges| == |state.value| &&
                                                    Fails(challenges[i], state.value[i], replies(i)))
    && (failed ==> newState == state)
    && (!failed ==>
          && newState.Some? && |newState.value| == |challenges| == |state.value|
          && forall i: nat :: i < |challenges| ==>
               newState.value[i] == NotedFor(challenges[i], state.value[i], dns, replies(i)))
  }

  // The CA is asked, and the record is removed, for what the call gets to.
  ghost predicate Acts(challenges: seq<Challenge>, state: State, dns: bool, replies: nat -> Reply, i: nat,
                       asked: int, removed: int)
    requires i < |challenges|
  {
    if GetsTo(challenges, state, replies, i) then
      var c, a, x := challenges[i], state.value[i], replies(i);
      && asked == (if !c.verified && !a.triggered then 1 else 0)
      && removed == (if FindsValid(c, a, x) && CanBeRemoved(a, dns) && x.keyAuth then 1 else 0)
    else asked == removed == 0
  }

  lemma ReachedIff(challenges: seq<Challenge>, authz: seq<AuthzState>, c: Call, i: nat)
    requires i < |challenges| == |authz|
    ensures i < Reached(challenges, authz, c, 0) <==> GetsTo(challenges, Some(authz), c.replies, i)
  {
    var n := Reached(challenges, authz, c, 0);
    forall j: nat | j < |challenges|
      ensures StepAt(challenges, authz, c, j).failed <==> Fails(challenges[j], authz[j], c.replies(j))
    {
      StepFinds(challenges[j], authz[j], c.dns, c.replies(j));
    }
    if i >= n { assert Fails(challenges[n - 1], authz[n - 1], c.replies(n - 1)); }
  }

  /** A call, told from what the CA answers to its polls. */
  lemma CallFinds(w: World, c: Call, i: nat)
    requires WellFormed(w) && i < |w.challenges|
    ensures var w' := CheckCall(w, c);
            && |w'.challenges| == |w'.triggers| == |w'.cleanUps| == |w.challenges|
            && Finds(w.challenges, w.state, c.replies, i, w'.challenges[i])
            && Acts(w.challenges, w.state, c.dns, c.replies, i,
                    w'.triggers[i] - w.triggers[i], w'.cleanUps[i] - w.cleanUps[i])
  {
    if w.state.Some? {
      var authz := w.state.value;
      ReachedIff(w.challenges, authz, c, i);
      CallEntry(w, c, Reached(w.challenges, authz, c, 0), i);
      StepFinds(w.challenges[i], authz[i], c.dns, c.replies(i));
      StepActs(w.challenges[i], authz[i], c.dns, c.replies(i));
    }
  }

  lemma FailsIff(w: World, c: Call, i: nat)
    requires WellFormed(w) && w.state.Some? && i < |w.challenges|
    ensures StepAt(w.challenges, w.state.value, c, i).failed <==>
            Fails(w.challenges[i], w.state.value[i], c.replies(i))
  {
    StepFinds(w.challenges[i], w.state.value[i], c.dns, c.replies(i));
  }

  // The state that a call without an error hands back.
  lemma PassedCallNotes(w: World, c: Call, i: nat)
    requires WellFormed(w) && w.state.Some? && i < |w.challenges|
    requires Reached(w.challenges, w.state.value, c, 0) == |w.challenges|
    requires !StepAt(w.challenges, w.state.value, c, |w.challenges| - 1).failed
    ensures !Fails(w.challenges[i], w.state.value[i], c.replies(i))
    ensures var w' := CheckCall(w, c);
            && w'.state.Some? && |w'.state.value| == |w.challenges|
            && w'.state.value[i] == NotedFor(w.challenges[i], w.state.value[i], c.dns, c.replies(i))
  {
    assert i < |w.challenges| - 1 ==> !StepAt(w.challenges, w.state.value, c, i).failed;
    FailsIff(w, c, i);
    StepActs(w.challenges[i], w.state.value[i], c.dns, c.replies(i));
  }

  lemma FailedCallNotes(w: World, c: Call, n: nat)
    requires WellFormed(w) && w.state.Some? && 0 < n <= |w.challenges|
    requires Reached(w.challenges, w.state.value, c, 0) == n && StepAt(w.challenges, w.state.value, c, n - 1).failed
    ensures Notes(w.challenges, w.state, c.dns, c.replies, CheckCall(w, c).state, true)
    ensures CheckCall(w, c).failures == w.failures + 1
  {
    FailsIff(w, c, n - 1);
    FailureIsTheCalls(w, c, n);
  }

  lemma CallNotes(w: World, c: Call)
    requires WellFormed(w)
    ensures var w' := CheckCall(w, c);
            Notes(w.challenges, w.state, c.dns, c.replies, w'.state, w'.failures > w.failures)
  {
    if w.state.Some? {
      var size := |w.challenges|;
      var n := Reached(w.challenges, w.state.value, c, 0);
      if n > 0 && StepAt(w.challenges, w.state.value, c, n - 1).failed {
        FailedCallNotes(w, c, n);
      } else {
        forall i: nat | i < size
          ensures !Fails(w.challenges[i], w.state.value[i], c.replies(i))
          ensures CheckCall(w, c).state.value[i] ==
                  NotedFor(w.challenges[i], w.state.value[i], c.dns, c.replies(i))
        {
          PassedCallNotes(w, c, i);
        }
      }
    }
  }

  // The order service writes back what the call returned, also after an error;
  // the row stays as it was if that statement is rejected, while the CA and the
  // DNS provider have been asked all the same.
  function CheckAndSave(w: World, c: Call): (w': World)
    requires WellFormed(w)
  {
    var checked := CheckCall(w, c);
    if c.saved.Landed() then checked
    else checked.(challenges := w.challenges, state := w.state, lost := w.lost + 1)
  }

  // -------------------------------------------------------------- what calls keep

  predicate Triggered(w: World, i: nat) {
    w.state.Some? && i < |w.state.value| && w.state.value[i].triggered
  }

  // The counts of one authorization are paid for.
  ghost predicate Paid(w: World, i: nat)
    requires WellFormed(w) && i < |w.challenges|
  {
    && w.cleanUps[i] <= (if w.challenges[i].verified then 1 else 0) + w.lost
    && w.triggers[i] + (if Triggered(w, i) then 0 else 1) <= 1 + w.failures + w.lost
  }

  lemma StepKeepsIdentity(c: Challenge, a: AuthzState, dns: bool, x: Reply)
    ensures var s := CheckOne(c, a, dns, x);
            && s.challenge.domain == c.domain && s.challenge.automated == c.automated
            && s.authz.domain == a.domain && s.authz.automated == a.automated
  {
  }

  lemma CallKeepsAligned(w: World, c: Call)
    requires WellFormed(w)
    ensures WellFormed(CheckCall(w, c)) && |CheckCall(w, c).challenges| == |w.challenges|
    ensures WellFormed(CheckAndSave(w, c)) && |CheckAndSave(w, c).challenges| == |w.challenges|
  {
    if w.state.Some? {
      forall i | 0 <= i < |w.challenges|
        ensures var s := StepAt(w.challenges, w.state.value, c, i);
                && s.challenge.domain == w.challenges[i].domain && s.challenge.automated == w.challenges[i].automated
                && s.authz.domain == w.state.value[i].domain && s.authz.automated == w.state.value[i].automated
      {
        StepKeepsIdentity(w.challenges[i], w.state.value[i], c.dns, c.replies(i));
      }
    }
  }

  // What one step may do to the accounts.
  lemma StepPays(c: Challenge, a: AuthzState, dns: bool, x: Reply)
    ensures var s := CheckOne(c, a, dns, x);
            && (c.verified ==> s.challenge.verified && !s.asked)
            && (s.asked ==> !a.triggered && (s.failed || s.authz.triggered))
            && (s.cleaned ==> a.automated && !a.cleanedUp)
            && (a.cleanedUp ==> s.authz.cleanedUp) && s.authz.automated == a.automated
            && (a.triggered ==> s.authz.triggered)
            && (s.cleaned ==> !c.verified && s.challenge.verified)
  {
  }

  // What a call leaves for authorization i.
  lemma CallAt(w: World, c: Call, i: nat)
    requires WellFormed(w) && w.state.Some? && i < |w.challenges|
    ensures var w', s := CheckCall(w, c), StepAt(w.challenges, w.state.value, c, i);
            && |w'.challenges| == |w'.triggers| == |w'.cleanUps| == |w.challenges|
            && (|| (w'.challenges[i] == s.challenge && w'.triggers[i] == w.triggers[i] + (if s.asked then 1 else 0)
                    && w'.cleanUps[i] == w.cleanUps[i] + (if s.cleaned then 1 else 0))
                || (w'.challenges[i] == w.challenges[i] && w'.triggers[i] == w.triggers[i]
                    && w'.cleanUps[i] == w.cleanUps[i]
                    && w'.state == w.state))
            && (|| (w'.state == w.state && w'.failures == w.failures + 1)
                || (w'.state.Some? && |w'.state.value| == |w.challenges| && w'.state.value[i] == s.authz
                    && !s.failed && w'.failures == w.failures))
            && w'.lost == w.lost
  {
    var n := Reached(w.challenges, w.state.value, c, 0);
    CallEntry(w, c, n, i);
    if n == |w.challenges| && !(n > 0 && StepAt(w.challenges, w.state.value, c, n - 1).failed) {
      assert i < n - 1 ==> !StepAt(w.challenges, w.state.value, c, i).failed;
    }
  }

  lemma CallPays(w: World, c: Call, i: nat)
    requires WellFormed(w) && i < |w.challenges| && Paid(w, i)
    ensures var w' := CheckAndSave(w, c);
            && WellFormed(w') && i < |w'.challenges| && Paid(w', i)
            && (w.challenges[i].verified ==> w'.challenges[i].verified)
  {
    CallKeepsAligned(w, c);
    if w.state.Some? {
      CallAt(w, c, i);
      StepPays(w.challenges[i], w.state.value[i], c.dns, c.replies(i));
    }
  }

  function Thread(w: World, calls: seq<Call>): World
    requires WellFormed(w)
    decreases |calls|
  {
    if calls == [] then w
    else
      CallKeepsAligned(w, calls[0]);
      Thread(CheckAndSave(w, calls[0]), calls[1..])
  }

  lemma {:induction false} ThreadKeeps(w: World, calls: seq<Call>, i: nat)
    requires WellFormed(w) && i < |w.challenges| && Paid(w, i)
    ensures var w' := Thread(w, calls);
            && WellFormed(w') && i < |w'.challenges| && Paid(w', i)
            && (w.challenges[i].verified ==> w'.challenges[i].verified)
    decreases |calls|
  {
    if calls == [] {
    } else {
      CallPays(w, calls[0], i);
      ThreadKeeps(CheckAndSave(w, calls[0]), calls[1..], i);
    }
  }

  // ------------------------------------------------------------------ the request

  // An authorization as the CA lists it.
  datatype Offer = Offer(domain: string, known: bool, offersType: bool, keyAuth: bool, presented: bool)

  function Requested(o: Offer, automated: bool): (Challenge, AuthzState) {
    (Challenge(o.domain, false, "", automated), AuthzState(o.domain, false, automated, false))
  }

  predicate Usable(o: Offer, automate: bool) {
    o.known && o.offersType && o.keyAuth && (automate ==> o.presented)
  }

  // What an authorization that cannot be prepared is refused for.
  predicate RefusedFor(o: Offer, automate: bool, error: string) {
    && (error == "letsencrypt: get authorization" ==> !o.known)
    && (error == "letsencrypt: no challenge offered by the CA" ==> o.known && !o.offersType)
    && (error == "letsencrypt: key authorization" ==> o.known && o.offersType && !o.keyAuth)
    && (error == "letsencrypt: automate DNS-01" ==>
          o.known && o.offersType && o.keyAuth && automate && !o.presented)
    && error in {"letsencrypt: get authorization", "letsencrypt: no challenge offered by the CA",
                 "letsencrypt: key authorization", "letsencrypt: automate DNS-01"}
  }

  predicate FirstUnusable(offers: seq<Offer>, automate: bool, i: int) {
    0 <= i < |offers| && !Usable(offers[i], automate) && forall j :: 0 <= j < i ==> Usable(offers[j], automate)
  }

  /** Both lists are built together, one entry per authorization; the first
      authorization that cannot be prepared decides the error. The DNS records
      published before it stay behind, and no order knows of them. */
  method RequestValidation(offers: seq<Offer>, automate: bool)
    returns (r: Result<(seq<Challenge>, seq<AuthzState>), string>, published: nat)
    ensures r.Ok? <==> forall o :: o in offers ==> Usable(o, automate)
    ensures r.Ok? ==> Aligned(r.value.0, r.value.1) && |r.value.0| == |offers|
    ensures r.Ok? ==> forall i :: 0 <= i < |offers| ==>
              && r.value.0[i] == Challenge(offers[i].domain, false, "", automate)
              && r.value.1[i] == AuthzState(offers[i].domain, false, automate, false)
    ensures r.Err? ==> exists i: int :: FirstUnusable(offers, automate, i) && RefusedFor(offers[i], automate, r.error)
    ensures r.Ok? ==> published == if automate then |offers| else 0
    ensures r.Err? && automate ==> FirstUnusable(offers, automate, published)
    ensures !automate ==> published == 0
  {
    published := 0;
    var challenges: seq<Challenge>, authz: seq<AuthzState> := [], [];
    for i := 0 to |offers|
      invariant |challenges| == |authz| == i && published == if automate then i else 0
      invariant forall j :: 0 <= j < i ==> Usable(offers[j], automate)
      invariant forall j :: 0 <= j < i ==>
                  && challenges[j] == Challenge(offers[j].domain, false, "", automate)
                  && authz[j] == AuthzState(offers[j].domain, false, automate, false)
    {
      var o := offers[i];
      assert o in offers;
      assert !Usable(o, automate) ==> FirstUnusable(offers, automate, i);
      if !o.known { return Err("letsencrypt: get authorization"), published; }
      if !o.offersType { return Err("letsencrypt: no challenge offered by the CA"), published; }
      if !o.keyAuth { return Err("letsencrypt: key authorization"), published; }
      var automated := false;
      if automate {
        if !o.presented { return Err("letsencrypt: automate DNS-01"), published; }
        automated := true;
        published := published + 1;
      }
      challenges := challenges + [Challenge(o.domain, false, "", automated)];
      authz := authz + [AuthzState(o.domain, false, automated, false)];
    }
    r := Ok((challenges, authz));
  }

  function Fresh(offers: seq<Offer>, automate: bool): World {
    var n := |offers|;
    World(seq(n, i requires 0 <= i < n => Requested(offers[i], automate).0),
          Some(seq(n, i requires 0 <= i < n => Requested(offers[i], automate).1)),
          seq(n, i => 0), seq(n, i => 0), 0, 0)
  }

  /** From a fresh order on, over any calls that may fail anywhere: the lists
      stay aligned, each DNS record is removed at most once more than write-backs
      were lost, and the CA is asked to validate an authorization at most once
      more than calls failed and write-backs were lost. */
  lemma ThreadedOrderIsSafe(offers: seq<Offer>, automate: bool, calls: seq<Call>, i: nat)
    requires i < |offers|
    ensures var w := Thread(Fresh(offers, automate), calls);
            && WellFormed(w) && i < |w.challenges|
            && w.cleanUps[i] <= 1 + w.lost && w.triggers[i] <= 1 + w.failures + w.lost
  {
    ThreadKeeps(Fresh(offers, automate), calls, i);
  }

  /** A verified challenge stays verified, from any point of a thread on. */
  lemma VerifiedIsForever(offers: seq<Offer>, automate: bool, before: seq<Call>, after: seq<Call>, i: nat)
    requires i < |offers|
    requires var w := Thread(Fresh(offers, automate), before); i < |w.challenges| && w.challenges[i].verified
    ensures var w := Thread(Fresh(offers, automate), before);
            WellFormed(w) && i < |Thread(w, after).challenges| && Thread(w, after).challenges[i].verified
  {
    ThreadKeeps(Fresh(offers, automate), before, i);
    ThreadKeeps(Thread(Fresh(offers, automate), before), after, i);
  }

  // A call whose request to validate does not get through, and one that finds
  // the authorization valid and removes its DNS record.
  const UNHEARD: Call := Call(false, i => Reply(false, j => None, false), Done)
  const HEARD: Call := Call(true, i => Reply(true, j => Some(Valid), true), Done)
  const FORGOTTEN: Call := HEARD.(saved := Rejected)

  function Repeat(c: Call, n: nat): seq<Call> { seq(n, i => c) }

  // An order with one automated authorization that nothing is known of yet.
  ghost predicate Untouched(w: World) {
    && WellFormed(w) && |w.challenges| == 1 && w.state.Some? && !w.challenges[0].verified
    && !w.state.value[0].triggered && w.state.value[0].automated && !w.state.value[0].cleanedUp
  }

  function AfterUnheard(w: World, n: nat): World
    requires |w.triggers| == 1
  {
    w.(triggers := [w.triggers[0] + n], failures := w.failures + n)
  }

  function AfterForgotten(w: World, n: nat): World
    requires |w.triggers| == |w.cleanUps| == 1
  {
    w.(triggers := [w.triggers[0] + n], cleanUps := [w.cleanUps[0] + n], lost := w.lost + n)
  }

  lemma OneUnheard(w: World)
    requires Untouched(w)
    ensures CheckAndSave(w, UNHEARD) == AfterUnheard(w, 1)
  {
    assert StepAt(w.challenges, w.state.value, UNHEARD, 0).failed;
    assert CheckAndSave(w, UNHEARD).challenges == w.challenges && CheckAndSave(w, UNHEARD).cleanUps == w.cleanUps;
  }

  lemma ForgottenAddsUp(w: World, n: nat)
    requires |w.triggers| == |w.cleanUps| == 1 && n > 0
    ensures AfterForgotten(AfterForgotten(w, 1), n - 1) == AfterForgotten(w, n)
  {
  }

  lemma OneForgotten(w: World)
    requires Untouched(w)
    ensures CheckAndSave(w, FORGOTTEN) == AfterForgotten(w, 1)
  {
    assert !StepAt(w.challenges, w.state.value, FORGOTTEN, 0).failed;
  }

  lemma RepeatRest(c: Call, n: nat, calls: seq<Call>)
    ensures if n == 0 then Repeat(c, n) + calls == calls
            else (Repeat(c, n) + calls)[0] == c && (Repeat(c, n) + calls)[1..] == Repeat(c, n - 1) + calls
  {
  }

  lemma {:induction false} UnheardCalls(w: World, n: nat, calls: seq<Call>)
    requires Untouched(w)
    ensures Untouched(AfterUnheard(w, n))
    ensures Thread(w, Repeat(UNHEARD, n) + calls) == Thread(AfterUnheard(w, n), calls)
    decreases n
  {
    RepeatRest(UNHEARD, n, calls);
    if n == 0 {
      assert AfterUnheard(w, 0) == w;
    } else {
      OneUnheard(w);
      UnheardCalls(AfterUnheard(w, 1), n - 1, calls);
      assert AfterUnheard(AfterUnheard(w, 1), n - 1) == AfterUnheard(w, n);
    }
  }

  lemma {:induction false} ForgottenCalls(w: World, n: nat, calls: seq<Call>)
    requires Untouched(w)
    ensures Untouched(AfterForgotten(w, n))
    ensures Thread(w, Repeat(FORGOTTEN, n) + calls) == Thread(AfterForgotten(w, n), calls)
    decreases n
  {
    RepeatRest(FORGOTTEN, n, calls);
    if n == 0 {
      assert AfterForgotten(w, 0) == w;
    } else {
      OneForgotten(w);
      ForgottenAddsUp(w, n);
      ForgottenCalls(AfterForgotten(w, 1), n - 1, calls);
    }
  }

  lemma LastCallIsHeard(w: World)
    requires Untouched(w)
    ensures var w' := Thread(w, [HEARD]);
            && w'.triggers == [w.triggers[0] + 1] && w'.cleanUps == [w.cleanUps[0] + 1]
            && w'.failures == w.failures && w'.lost == w.lost
  {
    assert !StepAt(w.challenges, w.state.value, HEARD, 0).failed;
    assert Thread(w, [HEARD]) == CheckAndSave(w, HEARD);
  }

  /** The bound on triggers is met: after n calls that could not reach the CA,
      one that does brings the count to n + 1. */
  lemma TriggerBoundIsTight(o: Offer, n: nat) returns (calls: seq<Call>)
    ensures var w := Thread(Fresh([o], true), calls); w.triggers == [n + 1] && w.failures == n && w.lost == 0
  {
    calls := Repeat(UNHEARD, n) + [HEARD];
    UnheardCalls(Fresh([o], true), n, [HEARD]);
    LastCallIsHeard(AfterUnheard(Fresh([o], true), n));
  }

  /** Both bounds are met by lost write-backs: after n of them, and no failing
      call, the record has been removed and the CA triggered n + 1 times. */
  lemma LostWriteBacksRepeat(o: Offer, n: nat) returns (calls: seq<Call>)
    ensures var w := Thread(Fresh([o], true), calls);
            w.triggers == [n + 1] && w.cleanUps == [n + 1] && w.failures == 0 && w.lost == n
  {
    calls := Repeat(FORGOTTEN, n) + [HEARD];
    ForgottenCalls(Fresh([o], true), n, [HEARD]);
    LastCallIsHeard(AfterForgotten(Fresh([o], true), n));
  }

  // ------------------------------------- exactly when a step is repeated once more

  function Triggers(w: World, i: nat): nat { if i < |w.triggers| then w.triggers[i] else 0 }

  function CleanUps(w: World, i: nat): nat { if i < |w.cleanUps| then w.cleanUps[i] else 0 }

  // The row's challenge is open and its state can be read.
  predicate IsOpen(w: World, i: nat) {
    w.state.Some? && i < |w.challenges| == |w.state.value| && !w.challenges[i].verified
  }

  predicate CanTrigger(w: World, i: nat) {
    IsOpen(w, i) && !w.state.value[i].triggered
  }

  predicate CanCleanUp(w: World, i: nat) {
    IsOpen(w, i) && w.state.value[i].automated && !w.state.value[i].cleanedUp
  }

  lemma QuietStep(w: World, c: Call, i: nat)
    requires WellFormed(w) && i < |w.challenges|
    ensures var w' := CheckAndSave(w, c);
            && WellFormed(w') && |w'.challenges| == |w.challenges|
            && (!CanTrigger(w, i) ==> !CanTrigger(w', i) && Triggers(w', i) == Triggers(w, i))
            && (!CanCleanUp(w, i) ==> !CanCleanUp(w', i) && CleanUps(w', i) == CleanUps(w, i))
  {
    CallKeepsAligned(w, c);
    if w.state.Some? {
      CallAt(w, c, i);
      StepPays(w.challenges[i], w.state.value[i], c.dns, c.replies(i));
    }
  }

  lemma {:induction false} QuietForever(w: World, calls: seq<Call>, i: nat)
    requires WellFormed(w) && i < |w.challenges|
    ensures !CanTrigger(w, i) ==> Triggers(Thread(w, calls), i) == Triggers(w, i)
    ensures !CanCleanUp(w, i) ==> CleanUps(Thread(w, calls), i) == CleanUps(w, i)
    decreases |calls|
  {
    if calls == [] {
    } else {
      QuietStep(w, calls[0], i);
      QuietForever(CheckAndSave(w, calls[0]), calls[1..], i);
    }
  }

  // A call that the CA and the DNS provider answer well gets to everything open.
  lemma HeardCallReaches(w: World, i: nat)
    requires WellFormed(w) && w.state.Some? && i < |w.challenges|
    ensures var w', s := Thread(w, [HEARD]), StepAt(w.challenges, w.state.value, HEARD, i);
            && Triggers(w', i) == Triggers(w, i) + (if s.asked then 1 else 0)
            && CleanUps(w', i) == CleanUps(w, i) + (if s.cleaned then 1 else 0)
  {
    var n := Reached(w.challenges, w.state.value, HEARD, 0);
    CallEntry(w, HEARD, n, i);
    assert [HEARD][1..] == [];
    assert Thread(w, [HEARD]) == CheckAndSave(w, HEARD);
  }

  ghost predicate TriggersAgain(w: World, i: nat)
    requires WellFormed(w)
  {
    exists next :: Triggers(Thread(w, next), i) > Triggers(w, i)
  }

  ghost predicate CleansUpAgain(w: World, i: nat)
    requires WellFormed(w)
  {
    exists next :: CleanUps(Thread(w, next), i) > CleanUps(w, i)
  }

  /** In every world of an order, whatever was lost before: the CA can be asked
      once more to validate an authorization if and only if the row says that the
      challenge is open and not triggered, and its DNS record can be removed
      (again) if and only if the row says that it is open, automated and not
      cleaned up. */
  lemma StepRepeatsIff(w: World, i: nat)
    requires WellFormed(w) && i < |w.challenges|
    ensures TriggersAgain(w, i) <==> CanTrigger(w, i)
    ensures CleansUpAgain(w, i) <==> CanCleanUp(w, i)
  {
    forall next
      ensures !CanTrigger(w, i) ==> Triggers(Thread(w, next), i) == Triggers(w, i)
      ensures !CanCleanUp(w, i) ==> CleanUps(Thread(w, next), i) == CleanUps(w, i)
    {
      QuietForever(w, next, i);
    }
    if IsOpen(w, i) {
      HeardCallReaches(w, i);
      assert CanTrigger(w, i) ==> Triggers(Thread(w, [HEARD]), i) > Triggers(w, i);
      assert CanCleanUp(w, i) ==> CleanUps(Thread(w, [HEARD]), i) > CleanUps(w, i);
    }
  }

  // ------------------------------------------------------------------- in place

  class LetsEncrypt {
    ghost var triggers: seq<nat>
    ghost var cleanUps: seq<nat>

    constructor (n: nat)
      ensures triggers == seq(n, i => 0) && cleanUps == seq(n, i => 0)
    {
      triggers, cleanUps := seq(n, i => 0), seq(n, i => 0);
    }

    // One authorization; the state entry is the call's own copy.
    method CheckAuthorization(challenges: array<Challenge>, authz: AuthzState, i: nat, dns: bool, x: Reply)
      returns (a: AuthzState, failed: bool)
      requires i < challenges.Length == |triggers| == |cleanUps| && !challenges[i].verified
      modifies this, challenges
      ensures var s := CheckOne(old(challenges[i]), authz, dns, x);
              && a == s.authz && failed == s.failed
              && challenges[..] == old(challenges[..])[i := s.challenge]
              && triggers == old(triggers)[i := old(triggers)[i] + (if s.asked then 1 else 0)]
              && cleanUps == old(cleanUps)[i := old(cleanUps)[i] + (if s.cleaned then 1 else 0)]
      ensures Becomes(old(challenges[i]), authz, x, challenges[i]) && (failed <==> Fails(old(challenges[i]), authz, x))
    {
      StepFinds(challenges[i], authz, dns, x);
      ghost var s := CheckOne(challenges[i], authz, dns, x);
      a, failed := StepAuthorization(challenges, authz, i, dns, x);
      assert challenges[i] == challenges[..][i] == s.challenge;
    }

    method StepAuthorization(challenges: array<Challenge>, authz: AuthzState, i: nat, dns: bool, x: Reply)
      returns (a: AuthzState, failed: bool)
      requires i < challenges.Length == |triggers| == |cleanUps| && !challenges[i].verified
      modifies this, challenges
      ensures var s := CheckOne(old(challenges[i]), authz, dns, x);
              && a == s.authz && failed == s.failed
              && challenges[..] == old(challenges[..])[i := s.challenge]
              && triggers == old(triggers)[i := old(triggers)[i] + (if s.asked then 1 else 0)]
              && cleanUps == old(cleanUps)[i := old(cleanUps)[i] + (if s.cleaned then 1 else 0)]
    {
      a := authz;
      if !a.triggered {
        triggers := triggers[i := triggers[i] + 1];
        if !x.triggered { return a, true; }
        a := a.(triggered := true);
      }
      var status, _ := PollAuthorization(x.polls);
      if status.None? { return a, true; }
      failed := false;
      match status.value
      case Valid =>
        challenges[i] := challenges[i].(verified := true);
        if a.automated && !a.cleanedUp && dns {
          if x.keyAuth {
            cleanUps := cleanUps[i := cleanUps[i] + 1];
          }
          a := a.(cleanedUp := true);
        }
      case Invalid(detail) =>
        challenges[i] := challenges[i].(error := detail);
      case _ =>
    }

    // The loop body: authorization n of call c on the order w.
    method CheckNext(challenges: array<Challenge>, authz: seq<AuthzState>, n: nat, ghost w: World, dns: bool,
                     replies: nat -> Reply)
      returns (authz': seq<AuthzState>, failed: bool)
      requires WellFormed(w) && w.state.Some? && n < |w.challenges|
      requires CheckedUpTo(w, Call(dns, replies, Done), n, challenges[..], authz, triggers, cleanUps)
      modifies this, challenges
      ensures CheckedUpTo(w, Call(dns, replies, Done), n + 1, challenges[..], authz', triggers, cleanUps)
      ensures failed == StepAt(w.challenges, w.state.value, Call(dns, replies, Done), n).failed
    {
      ghost var chs, ts, us := challenges[..], triggers, cleanUps;
      OneMore(w, Call(dns, replies, Done), n, chs, authz, ts, us);
      if challenges[n].verified {
        assert chs[n := chs[n]] == chs && authz[n := authz[n]] == authz && ts[n := ts[n]] == ts && us[n := us[n]] == us;
        return authz, false;
      }
      var a;
      a, failed := CheckAuthorization(challenges, authz[n], n, dns, replies(n));
      authz' := authz[n := a];
    }

    // The loop: checks every open challenge in place until one fails.
    method CheckOpenChallenges(challenges: array<Challenge>, state: State, dns: bool, replies: nat -> Reply,
                          ghost failures: nat, ghost lost: nat)
      returns (newState: State, failed: bool)
      requires WellFormed(World(challenges[..], state, triggers, cleanUps, failures, lost))
      modifies this, challenges
      ensures World(challenges[..], newState, triggers, cleanUps, if failed then failures + 1 else failures, lost) ==
              CheckCall(World(old(challenges[..]), state, old(triggers), old(cleanUps), failures, lost),
                Call(dns, replies, Done))
    {
      if state.None? {
        return state, true;
      }
      ghost var w, c := World(challenges[..], state, triggers, cleanUps, failures, lost), Call(dns, replies, Done);
      var authz := state.value;
      var error := false;
      for i := 0 to challenges.Length
        invariant CheckedUpTo(w, c, i, challenges[..], authz, triggers, cleanUps)
        invariant GoneThrough(w, c, i)
      {
        authz, error := CheckNext(challenges, authz, i, w, dns, replies);
        if error {
          FailedAt(w, c, i);
          ChallengesAreTheCalls(w, c, i + 1, challenges[..], authz, triggers, cleanUps);
          AccountsAreTheCalls(w, c, i + 1, challenges[..], authz, triggers, cleanUps);
          FailureIsTheCalls(w, c, i + 1);
          return state, true;
        }
        PassedAt(w, c, i);
      }
      ChallengesAreTheCalls(w, c, challenges.Length, challenges[..], authz, triggers, cleanUps);
      AccountsAreTheCalls(w, c, challenges.Length, challenges[..], authz, triggers, cleanUps);
      StateIsTheCalls(w, c, challenges[..], authz, triggers, cleanUps);
      newState, failed := Some(authz), false;
    }

    /** Checks every open challenge in place, and finds what the CA's answers say.
        On an error the caller keeps the old state together with the flags
        already set. */
    method CheckChallenge(challenges: array<Challenge>, state: State, dns: bool, replies: nat -> Reply,
                          ghost failures: nat, ghost lost: nat)
      returns (newState: State, failed: bool)
      requires WellFormed(World(challenges[..], state, triggers, cleanUps, failures, lost))
      modifies this, challenges
      ensures World(challenges[..], newState, triggers, cleanUps, if failed then failures + 1 else failures, lost) ==
              CheckCall(World(old(challenges[..]), state, old(triggers), old(cleanUps), failures, lost),
                Call(dns, replies, Done))
      ensures |triggers| == |cleanUps| == challenges.Length
      ensures forall i: nat :: i < challenges.Length ==>
                Finds(old(challenges[..]), state, replies, i, challenges[i])
      ensures forall i: nat :: i < challenges.Length ==>
                Acts(old(challenges[..]), state, dns, replies, i,
                     triggers[i] - old(triggers)[i], cleanUps[i] - old(cleanUps)[i])
      ensures Notes(old(challenges[..]), state, dns, replies, newState, failed)
    {
      ghost var w, c := World(challenges[..], state, triggers, cleanUps, failures, lost), Call(dns, replies, Done);
      newState, failed := CheckOpenChallenges(challenges, state, dns, replies, failures, lost);
      CallNotes(w, c);
      forall i: nat | i < challenges.Length
        ensures Finds(w.challenges, state, replies, i, challenges[i])
        ensures Acts(w.challenges, state, dns, replies, i, triggers[i] - w.triggers[i], cleanUps[i] - w.cleanUps[i])
      {
        CallFinds(w, c, i);
        assert challenges[i] == challenges[..][i];
      }
    }
  }

  // The first n authorizations have been checked without an error.
  ghost predicate GoneThrough(w: World, c: Call, n: nat)
    requires WellFormed(w) && w.state.Some? && n <= |w.challenges|
  {
    && Reached(w.challenges, w.state.value, c, 0) == Reached(w.challenges, w.state.value, c, n)
    && (n > 0 ==> !StepAt(w.challenges, w.state.value, c, n - 1).failed)
  }

  lemma PassedAt(w: World, c: Call, n: nat)
    requires WellFormed(w) && w.state.Some? && n < |w.challenges| && GoneThrough(w, c, n)
    requires !StepAt(w.challenges, w.state.value, c, n).failed
    ensures GoneThrough(w, c, n + 1)
  {
  }

  lemma FailedAt(w: World, c: Call, n: nat)
    requires WellFormed(w) && w.state.Some? && n < |w.challenges| && GoneThrough(w, c, n)
    requires StepAt(w.challenges, w.state.value, c, n).failed
    ensures Reached(w.challenges, w.state.value, c, 0) == n + 1
  {
  }

  // The lists after the first n authorizations have been checked.
  ghost predicate CheckedUpTo(w: World, c: Call, n: nat, challenges: seq<Challenge>, authz: seq<AuthzState>,
                              triggers: seq<nat>, cleanUps: seq<nat>)
    requires WellFormed(w) && w.state.Some? && n <= |w.challenges|
  {
    && |triggers| == |cleanUps| == |authz| == |challenges| == |w.challenges|
    && forall i :: 0 <= i < |w.challenges| ==>
         var s := StepAt(w.challenges, w.state.value, c, i);
         && challenges[i] == (if i < n then s.challenge else w.challenges[i])
         && authz[i] == (if i < n then s.authz else w.state.value[i])
         && triggers[i] == w.triggers[i] + (if i < n && s.asked then 1 else 0)
         && cleanUps[i] == w.cleanUps[i] + (if i < n && s.cleaned then 1 else 0)
  }

  lemma OneMore(w: World, c: Call, n: nat, challenges: seq<Challenge>, authz: seq<AuthzState>,
                triggers: seq<nat>, cleanUps: seq<nat>)
    requires WellFormed(w) && w.state.Some? && n < |w.challenges|
    requires CheckedUpTo(w, c, n, challenges, authz, triggers, cleanUps)
    ensures var s := CheckOne(challenges[n], authz[n], c.dns, c.replies(n));
            && s == StepAt(w.challenges, w.state.value, c, n)
            && CheckedUpTo(w, c, n + 1, challenges[n := s.challenge], authz[n := s.authz],
                           triggers[n := triggers[n] + (if s.asked then 1 else 0)],
                           cleanUps[n := cleanUps[n] + (if s.cleaned then 1 else 0)])
  {
  }

  // What a call that reaches n authorizations leaves at place i.
  lemma CallEntry(w: World, c: Call, n: nat, i: nat)
    requires WellFormed(w) && w.state.Some? && i < |w.challenges|
    requires Reached(w.challenges, w.state.value, c, 0) == n
    ensures var w', s := CheckCall(w, c), StepAt(w.challenges, w.state.value, c, i);
            && |w'.challenges| == |w'.triggers| == |w'.cleanUps| == |w.challenges|
            && w'.challenges[i] == (if i < n then s.challenge else w.challenges[i])
            && w'.triggers[i] == w.triggers[i] + (if i < n && s.asked then 1 else 0)
            && w'.cleanUps[i] == w.cleanUps[i] + (if i < n && s.cleaned then 1 else 0)
  {
  }

  // The shared list is that of the call, however it ends.
  lemma ChallengesAreTheCalls(w: World, c: Call, n: nat, challenges: seq<Challenge>, authz: seq<AuthzState>,
                              triggers: seq<nat>, cleanUps: seq<nat>)
    requires WellFormed(w) && w.state.Some? && n <= |w.challenges|
    requires CheckedUpTo(w, c, n, challenges, authz, triggers, cleanUps)
    requires Reached(w.challenges, w.state.value, c, 0) == n
    ensures CheckCall(w, c).challenges == challenges
  {
    var w' := CheckCall(w, c);
    assert |w'.challenges| == |challenges|;
    forall i | 0 <= i < |challenges| ensures w'.challenges[i] == challenges[i] {
      CallEntry(w, c, n, i);
    }
  }

  // So are the accounts of triggers and clean-ups.
  lemma AccountsAreTheCalls(w: World, c: Call, n: nat, challenges: seq<Challenge>, authz: seq<AuthzState>,
                            triggers: seq<nat>, cleanUps: seq<nat>)
    requires WellFormed(w) && w.state.Some? && n <= |w.challenges|
    requires CheckedUpTo(w, c, n, challenges, authz, triggers, cleanUps)
    requires Reached(w.challenges, w.state.value, c, 0) == n
    ensures CheckCall(w, c).triggers == triggers && CheckCall(w, c).cleanUps == cleanUps
  {
    var w' := CheckCall(w, c);
    assert |w'.triggers| == |triggers| && |w'.cleanUps| == |cleanUps|;
    forall i | 0 <= i < |triggers| ensures w'.triggers[i] == triggers[i] && w'.cleanUps[i] == cleanUps[i] {
      CallEntry(w, c, n, i);
    }
  }

  lemma StateIsTheCalls(w: World, c: Call, challenges: seq<Challenge>, authz: seq<AuthzState>,
                        triggers: seq<nat>, cleanUps: seq<nat>)
    requires WellFormed(w) && w.state.Some?
    requires CheckedUpTo(w, c, |w.challenges|, challenges, authz, triggers, cleanUps)
    requires Reached(w.challenges, w.state.value, c, 0) == |w.challenges|
    requires |w.challenges| == 0 || !StepAt(w.challenges, w.state.value, c, |w.challenges| - 1).failed
    ensures var w' := CheckCall(w, c); w'.state == Some(authz) && w'.failures == w.failures && w'.lost == w.lost
  {
    var w' := CheckCall(w, c);
    assert w'.state.Some? && w'.state.value == authz;
  }

  lemma FailureIsTheCalls(w: World, c: Call, n: nat)
    requires WellFormed(w) && w.state.Some? && 0 < n <= |w.challenges|
    requires Reached(w.challenges, w.state.value, c, 0) == n && StepAt(w.challenges, w.state.value, c, n - 1).failed
    ensures var w' := CheckCall(w, c); w'.state == w.state && w'.failures == w.failures + 1 && w'.lost == w.lost
  {
  }
}
