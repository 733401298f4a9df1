// What every run of the order protocol keeps, and exactly when the CA can be
// asked to issue a second time.
module OrderSafety {
  import opened Prelude
  import opened OrderProtocol

  // ------------------------------------------------------- counting CA requests

  // The calls on an order that hold the claim and have not yet asked the CA.
  ghost function Holders(w: World, id: OrderId): set<CallId> {
    set k | k in w.calls && w.calls[k].orderId == id && (w.calls[k].pc.Signing? || w.calls[k].pc.Submitting?)
  }

  ghost function Awaiting(w: World, id: OrderId): nat {
    if StatusIs(w.orders, id, AwaitingValidation) then 1 else 0
  }

  // A call works on an existing row and its private copy has the status its
  // next step is written for.
  ghost predicate Fits(orders: map<OrderId, Order>, c: Call) {
    && c.orderId in orders
    && (c.pc.Checking? || c.pc.Saving? ==> c.o.status == AwaitingValidation)
    && (c.pc.Claiming? || c.pc.Signing? || c.pc.Submitting? || c.pc.Storing? ==> c.o.status == Issuing)
  }

  ghost predicate CallsFit(w: World) {
    forall k :: k in w.calls ==> Fits(w.orders, w.calls[k])
  }

  // Each request to the CA uses up one claim, each claim one period in which
  // the row was open, and only creation and a reopening write open the row.
  ghost predicate Budget(w: World, id: OrderId) {
    && w.seen[CaIssue(id)] + |Holders(w, id)| <= w.seen[Event.Claim(id)]
    && w.seen[Event.Claim(id)] + Awaiting(w, id) <= w.seen[Reopen(id)] + (if id in w.orders then 1 else 0)
  }

  ghost function Holds(w: World, k: CallId, id: OrderId): nat {
    if k in w.calls && w.calls[k].orderId == id && (w.calls[k].pc.Signing? || w.calls[k].pc.Submitting?) then 1 else 0
  }

  // A step of one call, as far as the budget of order id is concerned.
  ghost predicate Move(w: World, w': World, k: CallId, id: OrderId) {
    && k in w'.calls && w'.calls == w.calls[k := w'.calls[k]]
    && w'.orders.Keys == w.orders.Keys
    && Fits(w'.orders, w'.calls[k])
    && w'.seen[CaIssue(id)] + Holds(w', k, id) + w.seen[Event.Claim(id)] <=
       w.seen[CaIssue(id)] + Holds(w, k, id) + w'.seen[Event.Claim(id)]
    && w'.seen[Event.Claim(id)] + Awaiting(w', id) + w.seen[Reopen(id)] <=
       w.seen[Event.Claim(id)] + Awaiting(w, id) + w'.seen[Reopen(id)]
  }

  lemma HoldersWithout(w: World, k: CallId, id: OrderId)
    ensures |Holders(w, id)| == |Holders(w, id) - {k}| + Holds(w, k, id)
  {
    assert k in Holders(w, id) <==> Holds(w, k, id) == 1;
  }

  lemma MoveKeepsFit(w: World, w': World, k: CallId, id: OrderId)
    requires CallsFit(w) && Move(w, w', k, id)
    ensures CallsFit(w')
  {
  }

  lemma OtherHoldersStay(w: World, w': World, k: CallId, id: OrderId)
    requires k in w'.calls && w'.calls == w.calls[k := w'.calls[k]]
    ensures |Holders(w', id)| + Holds(w, k, id) == |Holders(w, id)| + Holds(w', k, id)
  {
    assert Holders(w', id) - {k} == Holders(w, id) - {k};
    HoldersWithout(w, k, id);
    HoldersWithout(w', k, id);
  }

  lemma MoveKeeps(w: World, w': World, k: CallId, id: OrderId)
    requires CallsFit(w) && Budget(w, id) && Move(w, w', k, id)
    ensures CallsFit(w') && Budget(w', id)
  {
    MoveKeepsFit(w, w', k, id);
    OtherHoldersStay(w, w', k, id);
  }

  lemma BeginMoves(w: World, k: CallId, on: OrderId, found: bool, id: OrderId)
    requires CallsFit(w)
    ensures var w' := ApplyBegin(w, k, on, found); w' == w || Move(w, w', k, id)
  {
  }

  // A step that only changes the call itself, and gains no claim by it.
  lemma PrivateStepMoves(w: World, k: CallId, c: Call, id: OrderId)
    requires CallsFit(w) && k in w.calls && c.orderId == w.calls[k].orderId && Fits(w.orders, c)
    requires c.pc.Signing? || c.pc.Submitting? ==> w.calls[k].pc.Signing?
    ensures Move(w, SetCall(w, k, c), k, id)
  {
  }

  lemma CheckMoves(w: World, k: CallId, configured: bool, news: seq<Challenge>, checkFailed: bool, id: OrderId)
    requires CallsFit(w)
    ensures var w' := ApplyCheck(w, k, configured, news, checkFailed);
            w' == w || Move(w, w', k, id)
  {
    if k in w.calls && w.calls[k].pc.Checking? {
      var w' := ApplyCheck(w, k, configured, news, checkFailed);
      assert w' == SetCall(w, k, w'.calls[k]);
      PrivateStepMoves(w, k, w'.calls[k], id);
    }
  }

  lemma SaveMoves(guarded: bool, w: World, k: CallId, fault: Fault, id: OrderId)
    requires CallsFit(w)
    ensures var w' := ApplySave(guarded, w, k, fault); w' == w || Move(w, w', k, id)
  {
  }

  lemma ClaimMoves(w: World, k: CallId, fault: Fault, id: OrderId)
    requires CallsFit(w)
    ensures var w' := ApplyClaim(w, k, fault); w' == w || Move(w, w', k, id)
  {
  }

  lemma FinalWriteMoves(w: World, k: CallId, now: Time, fault: Fault, id: OrderId)
    requires CallsFit(w)
    ensures var w' := ApplyFail(w, k, now, fault); w' == w || Move(w, w', k, id)
    ensures var w' := ApplyComplete(w, k, now, fault); w' == w || Move(w, w', k, id)
  {
  }

  lemma ReloadAndSignMove(w: World, k: CallId, ok: bool, id: OrderId)
    requires CallsFit(w)
    ensures var w' := ApplyReload(w, k, ok); w' == w || Move(w, w', k, id)
    ensures var w' := ApplySign(w, k, ok); w' == w || Move(w, w', k, id)
  {
  }

  lemma SubmitMoves(w: World, k: CallId, answer: Option<IssuedCert>, id: OrderId)
    requires CallsFit(w)
    ensures var w' := ApplySubmit(w, k, answer); w' == w || Move(w, w', k, id)
  {
  }

  lemma StoreMoves(w: World, k: CallId, newCert: CertId, fault: Fault, id: OrderId)
    requires CallsFit(w)
    ensures var w' := ApplyStore(w, k, newCert, fault); w' == w || Move(w, w', k, id)
  {
  }

  lemma CrashMoves(w: World, k: CallId, id: OrderId)
    requires CallsFit(w) && k in w.calls
    ensures Move(w, Goto(w, k, Returned(Err("crashed"))), k, id)
  {
    PrivateStepMoves(w, k, w.calls[k].(pc := Returned(Err("crashed"))), id);
  }

  // The actions that belong to no call: they open at most a row of their own.
  lemma OtherActionKeeps(guarded: bool, w: World, a: Action, id: OrderId)
    requires CallsFit(w) && Budget(w, id)
    requires a.CreateOrder? || a.CreateRenewal? || a.ImportCert? || a.RevokeCert?
    ensures CallsFit(Apply(guarded, w, a)) && Budget(Apply(guarded, w, a), id)
  {
    assert Holders(Apply(guarded, w, a), id) == Holders(w, id);
  }

  predicate OfACall(a: Action) {
    !(a.CreateOrder? || a.CreateRenewal? || a.ImportCert? || a.RevokeCert?)
  }

  lemma EarlyActionMoves(guarded: bool, w: World, a: Action, id: OrderId)
    requires CallsFit(w) && (a.Begin? || a.Check? || a.Save? || a.Fail? || a.TryClaim? || a.Reload?)
    ensures var w' := Apply(guarded, w, a); w' == w || Move(w, w', a.call, id)
  {
    match a
    case Begin(k, on, found) => BeginMoves(w, k, on, found, id);
    case Check(k, configured, news, failed) => CheckMoves(w, k, configured, news, failed, id);
    case Save(k, fault) => SaveMoves(guarded, w, k, fault, id);
    case Fail(k, now, fault) => FinalWriteMoves(w, k, now, fault, id);
    case TryClaim(k, fault) => ClaimMoves(w, k, fault, id);
    case Reload(k, found) => ReloadAndSignMove(w, k, found, id);
  }

  lemma LateActionMoves(guarded: bool, w: World, a: Action, id: OrderId)
    requires CallsFit(w) && (a.Sign? || a.Submit? || a.Store? || a.Complete? || a.Crash?)
    ensures var w' := Apply(guarded, w, a); w' == w || Move(w, w', a.call, id)
  {
    match a
    case Sign(k, ok) => ReloadAndSignMove(w, k, ok, id);
    case Submit(k, answer) => SubmitMoves(w, k, answer, id);
    case Store(k, newCert, fault) => StoreMoves(w, k, newCert, fault, id);
    case Complete(k, now, fault) => FinalWriteMoves(w, k, now, fault, id);
    case Crash(k) => if k in w.calls { CrashMoves(w, k, id); }
  }

  lemma CallActionMoves(guarded: bool, w: World, a: Action, id: OrderId)
    requires CallsFit(w) && OfACall(a)
    ensures var w' := Apply(guarded, w, a); w' == w || Move(w, w', a.call, id)
  {
    if a.Sign? || a.Submit? || a.Store? || a.Complete? || a.Crash? {
      LateActionMoves(guarded, w, a, id);
    } else {
      EarlyActionMoves(guarded, w, a, id);
    }
  }

  lemma FitStep(guarded: bool, w: World, a: Action)
    requires CallsFit(w)
    ensures CallsFit(Apply(guarded, w, a))
  {
    if OfACall(a) {
      CallActionMoves(guarded, w, a, 0);
    }
  }

  lemma BudgetStep(guarded: bool, w: World, a: Action, id: OrderId)
    requires CallsFit(w) && Budget(w, id)
    ensures CallsFit(Apply(guarded, w, a)) && Budget(Apply(guarded, w, a), id)
  {
    if OfACall(a) {
      CallActionMoves(guarded, w, a, id);
      if Apply(guarded, w, a) != w {
        MoveKeeps(w, Apply(guarded, w, a), a.call, id);
      }
    } else {
      OtherActionKeeps(guarded, w, a, id);
    }
  }

  lemma {:induction false} BudgetRun(guarded: bool, w: World, actions: seq<Action>, id: OrderId)
    requires CallsFit(w) && Budget(w, id)
    ensures CallsFit(Run(guarded, w, actions)) && Budget(Run(guarded, w, actions), id)
    decreases |actions|
  {
    if actions == [] {
    } else {
      BudgetStep(guarded, w, actions[0], id);
      BudgetRun(guarded, Apply(guarded, w, actions[0]), actions[1..], id);
    }
  }

  /** Over every interleaving of every number of calls, with every fault, an
      order reaches the CA at most once more often than it was reopened. */
  lemma IssueBound(actions: seq<Action>, id: OrderId)
    ensures var w := Run(false, EMPTY_WORLD, actions);
            w.seen[CaIssue(id)] <= 1 + w.seen[Reopen(id)]
  {
    assert Holders(EMPTY_WORLD, id) == {};
    BudgetRun(false, EMPTY_WORLD, actions, id);
  }

  lemma GuardedStepNeverReopens(w: World, a: Action, id: OrderId)
    ensures Apply(true, w, a).seen[Reopen(id)] == w.seen[Reopen(id)]
  {
    match a
    case Save(k, fault) => assert ApplySave(true, w, k, fault).seen == w.seen;
    case Submit(k, answer) => assert Reopen(id) != CaIssue(id);
    case _ =>
  }

  lemma {:induction false} GuardedNeverReopens(w: World, actions: seq<Action>, id: OrderId)
    ensures Run(true, w, actions).seen[Reopen(id)] == w.seen[Reopen(id)]
    decreases |actions|
  {
    if actions == [] {
    } else {
      GuardedStepNeverReopens(w, actions[0], id);
      GuardedNeverReopens(Apply(true, w, actions[0]), actions[1..], id);
    }
  }

  /** Were the write-back conditional like the claim, no run would reach the CA
      twice for one order. */
  lemma IssueOnceWhenGuarded(actions: seq<Action>, id: OrderId)
    ensures Run(true, EMPTY_WORLD, actions).seen[CaIssue(id)] <= 1
  {
    assert Holders(EMPTY_WORLD, id) == {};
    BudgetRun(true, EMPTY_WORLD, actions, id);
    GuardedNeverReopens(EMPTY_WORLD, actions, id);
  }

  // --------------------------------------------------------- the bound is tight

  lemma {:induction false} RunAppend(guarded: bool, w: World, a: seq<Action>, b: seq<Action>)
    ensures Run(guarded, w, a + b) == Run(guarded, Run(guarded, w, a), b)
    decreases |a|
  {
    if a == [] {
      assert a + b == b;
    } else {
      assert (a + b)[0] == a[0] && (a + b)[1..] == a[1..] + b;
      RunAppend(guarded, Apply(guarded, w, a[0]), a[1..], b);
    }
  }

  lemma RunCons(guarded: bool, w: World, a: Action, rest: seq<Action>)
    ensures Run(guarded, w, [a] + rest) == Run(guarded, Apply(guarded, w, a), rest)
  {
    assert ([a] + rest)[1..] == rest;
  }

  lemma RunOne(guarded: bool, w: World, a: Action)
    ensures Run(guarded, w, [a]) == Apply(guarded, w, a)
  {
    assert [a][1..] == [];
  }

  // A new order with one challenge that nobody has looked at.
  const PENDING: seq<Challenge> := [Challenge(false, "")]

  // The answer of a provider that observes every proof.
  function AllGood(n: nat): seq<Challenge> { seq(n, i => Challenge(true, "")) }

  function Claimed(o: Order): Order {
    o.(challenges := AllGood(|o.challenges|), attemptCount := o.attemptCount + 1, status := Issuing)
  }

  lemma CleanCanBeVerified(po: seq<Challenge>)
    requires Clean(po)
    ensures Recheck(po, AllGood(|po|)) == AllGood(|po|)
    ensures AllVerified(AllGood(|po|)) && FirstChallengeError(AllGood(|po|)) == ""
  {
    assert forall i :: 0 <= i < |po| ==> po[i] in po;
  }

  // The steps of a call that goes straight to the CA.
  lemma CheckSucceeds(w: World, k: CallId, id: OrderId, o: Order)
    requires Clean(o.challenges)
    ensures ApplyCheck(SetCall(w, k, Call(id, o, Checking)), k, true, AllGood(|o.challenges|), false) ==
            SetCall(w, k, Call(id, Claimed(o), Claiming))
  {
    CleanCanBeVerified(o.challenges);
  }

  lemma ClaimSucceeds(w: World, k: CallId, id: OrderId, o: Order)
    requires StatusIs(w.orders, id, AwaitingValidation)
    ensures ApplyClaim(SetCall(w, k, Call(id, o, Claiming)), k, Done) ==
            SetCall(Note(w.(orders := w.orders[id := o]), Event.Claim(id)), k, Call(id, o, Signing))
  {
  }

  lemma SignSucceeds(w: World, k: CallId, id: OrderId, o: Order)
    ensures ApplySign(SetCall(w, k, Call(id, o, Signing)), k, true) == SetCall(w, k, Call(id, o, Submitting))
  {
  }

  function Submitted(w: World, k: CallId, id: OrderId, o: Order, answer: Option<IssuedCert>): World {
    SetCall(Note(w, CaIssue(id)), k,
            Call(id, o, if answer.Some? then Storing(answer.value) else Failing("issue certificate")))
  }

  lemma SubmitIsAnswered(w: World, k: CallId, id: OrderId, o: Order, answer: Option<IssuedCert>)
    ensures ApplySubmit(SetCall(w, k, Call(id, o, Submitting)), k, answer) == Submitted(w, k, id, o, answer)
  {
  }

  function AfterIssueOnce(w: World, k: CallId, id: OrderId, answer: Option<IssuedCert>): World
    requires id in w.orders
  {
    var o := Claimed(w.orders[id]);
    Submitted(Note(w.(orders := w.orders[id := o]), Event.Claim(id)), k, id, o, answer)
  }

  function FromSigning(k: CallId, answer: Option<IssuedCert>): seq<Action> { [Sign(k, true)] + [Submit(k, answer)] }

  lemma FromSigningRuns(w: World, k: CallId, id: OrderId, o: Order, answer: Option<IssuedCert>)
    ensures Run(false, SetCall(w, k, Call(id, o, Signing)), FromSigning(k, answer)) == Submitted(w, k, id, o, answer)
  {
    SignSucceeds(w, k, id, o);
    SubmitIsAnswered(w, k, id, o, answer);
    RunCons(false, SetCall(w, k, Call(id, o, Signing)), Sign(k, true), [Submit(k, answer)]);
    RunOne(false, SetCall(w, k, Call(id, o, Submitting)), Submit(k, answer));
  }

  // One call that goes straight to the claim.
  function UpToClaim(k: CallId, id: OrderId, n: nat): seq<Action> {
    [Begin(k, id, true)] + [Check(k, true, AllGood(n), false)]
  }

  lemma UpToClaimRuns(w: World, k: CallId, id: OrderId)
    requires StatusIs(w.orders, id, AwaitingValidation) && k !in w.calls && Clean(w.orders[id].challenges)
    ensures Run(false, w, UpToClaim(k, id, |w.orders[id].challenges|)) ==
            SetCall(w, k, Call(id, Claimed(w.orders[id]), Claiming))
  {
    var o := w.orders[id];
    var w1, check := SetCall(w, k, Call(id, o, Checking)), Check(k, true, AllGood(|o.challenges|), false);
    RunCons(false, w, Begin(k, id, true), [check]);
    assert Apply(false, w, Begin(k, id, true)) == w1;
    RunOne(false, w1, check);
    CheckSucceeds(w, k, id, o);
  }

  function UpToSigning(k: CallId, id: OrderId, n: nat): seq<Action> {
    UpToClaim(k, id, n) + [TryClaim(k, Done)]
  }

  // The world after a call with private copy o has won the claim.
  function AfterClaim(w: World, k: CallId, id: OrderId, o: Order): World {
    SetCall(Note(w.(orders := w.orders[id := o]), Event.Claim(id)), k, Call(id, o, Signing))
  }

  lemma ClaimRuns(w: World, k: CallId, id: OrderId, o: Order)
    requires StatusIs(w.orders, id, AwaitingValidation)
    ensures Run(false, SetCall(w, k, Call(id, o, Claiming)), [TryClaim(k, Done)]) == AfterClaim(w, k, id, o)
  {
    RunOne(false, SetCall(w, k, Call(id, o, Claiming)), TryClaim(k, Done));
    ClaimSucceeds(w, k, id, o);
  }

  lemma UpToSigningRuns(w: World, k: CallId, id: OrderId)
    requires StatusIs(w.orders, id, AwaitingValidation) && k !in w.calls && Clean(w.orders[id].challenges)
    ensures Run(false, w, UpToSigning(k, id, |w.orders[id].challenges|)) == AfterClaim(w, k, id, Claimed(w.orders[id]))
  {
    var o := w.orders[id];
    RunAppend(false, w, UpToClaim(k, id, |o.challenges|), [TryClaim(k, Done)]);
    UpToClaimRuns(w, k, id);
    ClaimRuns(w, k, id, Claimed(o));
  }

  // One call that goes straight to the CA.
  function IssueOnce(k: CallId, id: OrderId, n: nat, answer: Option<IssuedCert>): seq<Action> {
    UpToSigning(k, id, n) + FromSigning(k, answer)
  }

  lemma IssueOnceRuns(w: World, k: CallId, id: OrderId, answer: Option<IssuedCert>)
    requires StatusIs(w.orders, id, AwaitingValidation) && k !in w.calls && Clean(w.orders[id].challenges)
    ensures Run(false, w, IssueOnce(k, id, |w.orders[id].challenges|, answer)) == AfterIssueOnce(w, k, id, answer)
  {
    var o := w.orders[id];
    RunAppend(false, w, UpToSigning(k, id, |o.challenges|), FromSigning(k, answer));
    UpToSigningRuns(w, k, id);
    FromSigningRuns(Note(w.(orders := w.orders[id := Claimed(o)]), Event.Claim(id)), k, id, Claimed(o), answer);
  }

  // A check that has come back with an error and is about to be written back.
  function SlowCheck(x: CallId, id: OrderId): seq<Action> {
    [Begin(x, id, true)] + [Check(x, true, [], true)]
  }

  // A slow check x starts, a second call y issues, then x writes back over it.
  function Overtaken(x: CallId, y: CallId, id: OrderId): seq<Action> {
    SlowCheck(x, id) + (IssueOnce(y, id, 1, None) + [Save(x, Done)])
  }

  lemma NothingFound(po: seq<Challenge>)
    ensures Recheck(po, []) == po
  {
  }

  lemma CheckFails(w: World, k: CallId, id: OrderId, o: Order)
    ensures ApplyCheck(SetCall(w, k, Call(id, o, Checking)), k, true, [], true) ==
            SetCall(w, k, Call(id, o.(attemptCount := o.attemptCount + 1), Saving))
  {
    NothingFound(o.challenges);
  }

  lemma SaveReopens(w: World, k: CallId)
    requires k in w.calls && w.calls[k].pc.Saving? && w.calls[k].o.status == AwaitingValidation
    requires w.calls[k].orderId in w.orders
    ensures var id, w' := w.calls[k].orderId, ApplySave(false, w, k, Done);
            && w'.orders == w.orders[id := w.calls[k].o] && w'.calls.Keys == w.calls.Keys
            && w'.seen == (if StatusIs(w.orders, id, AwaitingValidation) then w.seen else w.seen + multiset{Reopen(id)})
  {
  }

  lemma SlowCheckRuns(w: World, x: CallId, id: OrderId)
    requires StatusIs(w.orders, id, AwaitingValidation) && x !in w.calls
    ensures var o := w.orders[id];
            Run(false, w, SlowCheck(x, id)) ==
            SetCall(w, x, Call(id, o.(attemptCount := o.attemptCount + 1), Saving))
  {
    assert Apply(false, w, Begin(x, id, true)) == SetCall(w, x, Call(id, w.orders[id], Checking));
    CheckFails(w, x, id, w.orders[id]);
    RunCons(false, w, Begin(x, id, true), [Check(x, true, [], true)]);
    RunOne(false, SetCall(w, x, Call(id, w.orders[id], Checking)), Check(x, true, [], true));
  }

  ghost predicate ReopenedAfterIssue(w: World, w': World, id: OrderId) {
    && id in w'.orders && OneOpenChallenge(w'.orders[id])
    && w'.seen == w.seen + multiset{Event.Claim(id), CaIssue(id), Reopen(id)}
  }

  lemma AfterIssueOnceIs(w: World, k: CallId, id: OrderId, answer: Option<IssuedCert>)
    requires id in w.orders
    ensures var w' := AfterIssueOnce(w, k, id, answer);
            && w'.orders.Keys == w.orders.Keys && w'.orders[id].status == Issuing
            && w'.calls.Keys == w.calls.Keys + {k} && (forall x :: x in w.calls && x != k ==> w'.calls[x] == w.calls[x])
            && w'.seen == w.seen + multiset{Event.Claim(id), CaIssue(id)}
  {
  }

  // An order whose single challenge is still open.
  predicate OneOpenChallenge(o: Order) {
    o.status == AwaitingValidation && |o.challenges| == 1 && Clean(o.challenges)
  }

  // Writing back over a row that is not open.
  lemma SaveOverClosedRow(w: World, x: CallId, id: OrderId)
    requires x in w.calls && w.calls[x].orderId == id && w.calls[x].pc.Saving? && OneOpenChallenge(w.calls[x].o)
    requires id in w.orders && w.orders[id].status != AwaitingValidation
    ensures var w' := Run(false, w, [Save(x, Done)]);
            && id in w'.orders && OneOpenChallenge(w'.orders[id]) && w'.calls.Keys == w.calls.Keys
            && w'.seen == w.seen + multiset{Reopen(id)}
  {
    RunOne(false, w, Save(x, Done));
    SaveReopens(w, x);
  }

  // x is about to write back when y issues.
  lemma OvertakingRuns(w: World, x: CallId, y: CallId, id: OrderId)
    requires id in w.orders && OneOpenChallenge(w.orders[id]) && y !in w.calls
    requires x in w.calls && w.calls[x].orderId == id
    requires w.calls[x].pc.Saving? && OneOpenChallenge(w.calls[x].o)
    ensures var w' := Run(false, w, IssueOnce(y, id, 1, None) + [Save(x, Done)]);
            ReopenedAfterIssue(w, w', id) && w'.calls.Keys == w.calls.Keys + {y}
  {
    var w1 := AfterIssueOnce(w, y, id, None);
    IssueOnceRuns(w, y, id, None);
    RunAppend(false, w, IssueOnce(y, id, 1, None), [Save(x, Done)]);
    AfterIssueOnceIs(w, y, id, None);
    assert w1.calls[x] == w.calls[x];
    SaveOverClosedRow(w1, x, id);
  }

  lemma OvertakenRuns(w: World, x: CallId, y: CallId, id: OrderId)
    requires id in w.orders && OneOpenChallenge(w.orders[id]) && x !in w.calls && y !in w.calls && x != y
    ensures var w' := Run(false, w, Overtaken(x, y, id));
            ReopenedAfterIssue(w, w', id) && w'.calls.Keys == w.calls.Keys + {x, y}
  {
    SlowCheckRuns(w, x, id);
    RunAppend(false, w, SlowCheck(x, id), IssueOnce(y, id, 1, None) + [Save(x, Done)]);
    OvertakingRuns(Run(false, w, SlowCheck(x, id)), x, y, id);
  }

  function Rounds(n: nat, id: OrderId): seq<Action> {
    if n == 0 then [CreateOrder(id, PENDING)]
    else Rounds(n - 1, id) + Overtaken(2 * n, 2 * n + 1, id)
  }

  ghost predicate AfterRounds(w: World, n: nat, id: OrderId) {
    && id in w.orders && OneOpenChallenge(w.orders[id])
    && (forall k :: k in w.calls ==> k < 2 * n + 2)
    && w.seen[CaIssue(id)] == n && w.seen[Reopen(id)] == n
  }

  lemma RoundRuns(w: World, n: nat, id: OrderId)
    requires n > 0 && AfterRounds(w, n - 1, id)
    ensures AfterRounds(Run(false, w, Overtaken(2 * n, 2 * n + 1, id)), n, id)
  {
    var w' := Run(false, w, Overtaken(2 * n, 2 * n + 1, id));
    OvertakenRuns(w, 2 * n, 2 * n + 1, id);
    assert forall k :: k in w'.calls <==> k in w.calls || k == 2 * n || k == 2 * n + 1;
  }

  lemma {:induction false} RoundsRun(n: nat, id: OrderId)
    ensures AfterRounds(Run(false, EMPTY_WORLD, Rounds(n, id)), n, id)
  {
    if n == 0 {
      RunOne(false, EMPTY_WORLD, CreateOrder(id, PENDING));
    } else {
      RoundsRun(n - 1, id);
      RunAppend(false, EMPTY_WORLD, Rounds(n - 1, id), Overtaken(2 * n, 2 * n + 1, id));
      RoundRuns(Run(false, EMPTY_WORLD, Rounds(n - 1, id)), n, id);
    }
  }

  lemma OneMoreIssue(w: World, k: CallId, id: OrderId)
    requires id in w.orders && OneOpenChallenge(w.orders[id]) && k !in w.calls
    ensures var w' := Run(false, w, IssueOnce(k, id, 1, None));
            w'.seen[CaIssue(id)] == w.seen[CaIssue(id)] + 1 && w'.seen[Reopen(id)] == w.seen[Reopen(id)]
  {
    IssueOnceRuns(w, k, id, None);
    AfterIssueOnceIs(w, k, id, None);
  }

  /** The bound is met: for every n some run reopens an order n times and asks
      the CA to issue n + 1 certificates for it. In particular the promise of a
      single request fails with one stale write-back (n = 1). */
  lemma BoundIsTight(n: nat, id: OrderId) returns (actions: seq<Action>)
    ensures var w := Run(false, EMPTY_WORLD, actions);
            w.seen[CaIssue(id)] == n + 1 && w.seen[Reopen(id)] == n
  {
    RoundsRun(n, id);
    var w, last := Run(false, EMPTY_WORLD, Rounds(n, id)), IssueOnce(2 * n + 2, id, 1, None);
    actions := Rounds(n, id) + last;
    RunAppend(false, EMPTY_WORLD, Rounds(n, id), last);
    OneMoreIssue(w, 2 * n + 2, id);
  }
}
