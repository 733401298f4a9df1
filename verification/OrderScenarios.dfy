// Runs of the order protocol in which an order or a certificate ends up other
// than its readers expect.
module OrderScenarios {
  import opened Prelude
  import opened OrderProtocol
  import opened OrderSafety
  import opened OrderFutures
  import opened CertificateIntegrity

  function Opened(id: OrderId): World {
    EMPTY_WORLD.(orders := map[id := Created(PENDING, None)])
  }

  lemma OpenedRuns(id: OrderId, rest: seq<Action>)
    ensures Run(false, EMPTY_WORLD, [CreateOrder(id, PENDING)] + rest) == Run(false, Opened(id), rest)
  {
    RunCons(false, EMPTY_WORLD, CreateOrder(id, PENDING), rest);
    assert EMPTY_WORLD.orders[id := Created(PENDING, None)] == map[id := Created(PENDING, None)];
  }

  lemma ClaimIsLost(w: World, k: CallId, id: OrderId, o: Order)
    requires StatusIs(w.orders, id, AwaitingValidation) && o.status == Issuing && w.calls == map[]
    ensures var w' := Run(false, SetCall(w, k, Call(id, o, Claiming)), [TryClaim(k, LostReply)]);
            StatusIs(w'.orders, id, Issuing) && Settled(w', id) && w'.seen[CaIssue(id)] == w.seen[CaIssue(id)]
  {
    var w1 := SetCall(w, k, Call(id, o, Claiming));
    RunOne(false, w1, TryClaim(k, LostReply));
    assert Apply(false, w1, TryClaim(k, LostReply)) == ApplyClaim(w1, k, LostReply);
  }

  /** A claim whose reply is lost leaves the order in issuing, without a request
      to the CA, and nothing that happens later moves it. */
  lemma AbandonedInIssuing(id: OrderId) returns (actions: seq<Action>)
    ensures var w := Run(false, EMPTY_WORLD, actions);
            StatusIs(w.orders, id, Issuing) && Settled(w, id) && IsFinal(w, id) && w.seen[CaIssue(id)] == 0
  {
    var rest := UpToClaim(0, id, 1) + [TryClaim(0, LostReply)];
    actions := [CreateOrder(id, PENDING)] + rest;
    OpenedRuns(id, rest);
    RunAppend(false, Opened(id), UpToClaim(0, id, 1), [TryClaim(0, LostReply)]);
    UpToClaimRuns(Opened(id), 0, id);
    ClaimIsLost(Opened(id), 0, id, Claimed(Opened(id).orders[id]));
    FinalIff(actions, id);
  }

  // -------------------------------------------- an issued order is overwritten

  const SOME_CERT := IssuedCert("", 1, 2)

  // Call y issues a certificate for the order and stores it.
  function IssueAndStore(y: CallId, id: OrderId): seq<Action> {
    IssueOnce(y, id, 1, Some(SOME_CERT)) + ([Store(y, 0, Done)] + [Complete(y, 0, Done)])
  }

  lemma StoreGoesOn(w: World, y: CallId)
    requires y in w.calls && w.calls[y].pc.Storing? && w.calls[y].o.certificateId.None? && w.certs == map[]
    ensures var w' := Apply(false, w, Store(y, 0, Done));
            && w'.orders == w.orders && y in w'.calls && w'.calls == w.calls[y := w'.calls[y]]
            && w'.calls[y].pc.Completing? && w'.calls[y].orderId == w.calls[y].orderId
  {
    assert Apply(false, w, Store(y, 0, Done)) == ApplyStore(w, y, 0, Done);
  }

  lemma CompleteIssues(w: World, y: CallId)
    requires y in w.calls && w.calls[y].pc.Completing? && w.calls[y].orderId in w.orders
    ensures var w' := Apply(false, w, Complete(y, 0, Done));
            && StatusIs(w'.orders, w.calls[y].orderId, Issued)
            && y in w'.calls && w'.calls == w.calls[y := w'.calls[y]]
  {
    assert Apply(false, w, Complete(y, 0, Done)) == ApplyComplete(w, y, 0, Done);
  }

  lemma StoreAndComplete(w: World, y: CallId)
    requires y in w.calls && w.calls[y].pc.Storing? && w.calls[y].o.certificateId.None?
    requires w.certs == map[] && w.calls[y].orderId in w.orders
    ensures var w' := Run(false, w, [Store(y, 0, Done)] + [Complete(y, 0, Done)]);
            && StatusIs(w'.orders, w.calls[y].orderId, Issued)
            && y in w'.calls && w'.calls == w.calls[y := w'.calls[y]]
  {
    var w1 := Apply(false, w, Store(y, 0, Done));
    RunCons(false, w, Store(y, 0, Done), [Complete(y, 0, Done)]);
    RunOne(false, w1, Complete(y, 0, Done));
    StoreGoesOn(w, y);
    CompleteIssues(w1, y);
  }

  lemma IssueAndStoreRuns(w: World, y: CallId, id: OrderId)
    requires StatusIs(w.orders, id, AwaitingValidation) && y !in w.calls && w.certs == map[]
    requires w.orders[id].certificateId.None? && w.orders[id].challenges == PENDING
    ensures var w' := Run(false, w, IssueAndStore(y, id));
            && id in w'.orders && w'.orders[id].status == Issued
            && forall x :: x in w.calls ==> x in w'.calls && w'.calls[x] == w.calls[x]
  {
    RunAppend(false, w, IssueOnce(y, id, 1, Some(SOME_CERT)), [Store(y, 0, Done)] + [Complete(y, 0, Done)]);
    IssueOnceRuns(w, y, id, Some(SOME_CERT));
    AfterIssueOnceIs(w, y, id, Some(SOME_CERT));
    StoreAndComplete(AfterIssueOnce(w, y, id, Some(SOME_CERT)), y);
  }

  // A check that found a challenge refused.
  function RefusedCheck(x: CallId, id: OrderId): seq<Action> {
    [Begin(x, id, true)] + [Check(x, true, [Challenge(false, "refused")], false)]
  }

  lemma RefusedCheckRuns(w: World, x: CallId, id: OrderId)
    requires StatusIs(w.orders, id, AwaitingValidation) && x !in w.calls && w.orders[id].challenges == PENDING
    ensures var w' := Run(false, w, RefusedCheck(x, id));
            && x in w'.calls && w'.calls == w.calls[x := w'.calls[x]]
            && w'.orders == w.orders && w'.certs == w.certs
            && w'.calls[x].orderId == id && w'.calls[x].pc == Failing("refused")
  {
    var w1 := SetCall(w, x, Call(id, w.orders[id], Checking));
    var po := [Challenge(false, "refused")];
    RunCons(false, w, Begin(x, id, true), [Check(x, true, po, false)]);
    assert Apply(false, w, Begin(x, id, true)) == w1;
    RunOne(false, w1, Check(x, true, po, false));
    assert Recheck(PENDING, po) == po && FirstChallengeError(po) == "refused";
    assert ApplyCheck(w1, x, true, po, false).calls == w1.calls[x := ApplyCheck(w1, x, true, po, false).calls[x]];
  }

  lemma LateWrite(w: World, x: CallId, fails: bool)
    requires x in w.calls && w.calls[x].orderId in w.orders
    requires fails ==> w.calls[x].pc.Failing?
    requires !fails ==> w.calls[x].pc.Saving? && w.calls[x].o.status == AwaitingValidation
    ensures StatusIs(Apply(false, w, if fails then Fail(x, 0, Done) else Save(x, Done)).orders, w.calls[x].orderId,
                     if fails then Failed else AwaitingValidation)
  {
    if fails {
      assert Apply(false, w, Fail(x, 0, Done)) == ApplyFail(w, x, 0, Done);
    } else {
      SaveReopens(w, x);
    }
  }

  /** A call that overlaps turns an issued order into an open one by writing a
      slow check back, or into a failed one by reporting a refused challenge. */
  lemma IssuedIsOverwritten(id: OrderId, fails: bool) returns (before: seq<Action>, write: Action)
    ensures var w, w' := Run(false, EMPTY_WORLD, before), Run(false, EMPTY_WORLD, before + [write]);
            && StatusIs(w.orders, id, Issued) && !Settled(w, id)
            && StatusIs(w'.orders, id, if fails then Failed else AwaitingValidation)
  {
    var slow := if fails then RefusedCheck(0, id) else SlowCheck(0, id);
    before := [CreateOrder(id, PENDING)] + (slow + IssueAndStore(1, id));
    write := if fails then Fail(0, 0, Done) else Save(0, Done);
    OpenedRuns(id, slow + IssueAndStore(1, id));
    var w0 := Opened(id);
    RunAppend(false, w0, slow, IssueAndStore(1, id));
    if fails { RefusedCheckRuns(w0, 0, id); } else { SlowCheckRuns(w0, 0, id); }
    var w1 := Run(false, w0, slow);
    assert w1.orders == w0.orders && w1.certs == map[] && 0 in w1.calls && 1 !in w1.calls;
    IssueAndStoreRuns(w1, 1, id);
    var w := Run(false, EMPTY_WORLD, before);
    assert w.calls[0] == w1.calls[0] && w.calls[0].orderId == id && CanWrite(w.calls[0].pc);
    RunAppend(false, EMPTY_WORLD, before, [write]);
    RunOne(false, w, write);
    LateWrite(w, 0, fails);
  }

  // --------------------------------- two renewals of one certificate, crosswise

  function Issuance(notBefore: Time): IssuedCert { IssuedCert("", notBefore, notBefore + 10) }

  // Certificate 0 from time 0, and two renewal orders for it.
  function Setup(): seq<Action> {
    [ImportCert(0, Active, Issuance(0), Done)] + ([CreateRenewal(0, 0, PENDING)] + [CreateRenewal(1, 0, PENDING)])
  }

  lemma SetupRuns()
    ensures var w := Run(false, EMPTY_WORLD, Setup());
            && w.orders == map[0 := Created(PENDING, Some(0)), 1 := Created(PENDING, Some(0))] && w.calls == map[]
            && w.certs.Keys == {0} && w.versions == [Version(0, "", 0)]
  {
    var w1 := Apply(false, EMPTY_WORLD, ImportCert(0, Active, Issuance(0), Done));
    RunCons(false, EMPTY_WORLD, ImportCert(0, Active, Issuance(0), Done),
            [CreateRenewal(0, 0, PENDING)] + [CreateRenewal(1, 0, PENDING)]);
    assert w1.certs.Keys == {0} && w1.versions == [Version(0, "", 0)];
    RunCons(false, w1, CreateRenewal(0, 0, PENDING), [CreateRenewal(1, 0, PENDING)]);
    RunOne(false, Apply(false, w1, CreateRenewal(0, 0, PENDING)), CreateRenewal(1, 0, PENDING));
  }

  lemma StoreRenews(w: World, k: CallId, c: CertId)
    requires k in w.calls && w.calls[k].pc.Storing? && w.calls[k].o.certificateId == Some(c) && c in w.certs
    ensures var w', v := Apply(false, w, Store(k, 0, Done)), w.calls[k].pc.issued;
            && w'.versions == w.versions + [Version(c, v.fingerprint, v.notBefore)]
            && c in w'.certs && w'.certs[c].notBefore == v.notBefore
            && forall x :: x in w.calls && x != k ==> x in w'.calls && w'.calls[x] == w.calls[x]
  {
    assert Apply(false, w, Store(k, 0, Done)) == ApplyStore(w, k, 0, Done);
  }

  // Order k's call is about to store the certificate it got.
  ghost predicate AboutToStore(w: World, k: CallId, v: IssuedCert) {
    k in w.calls && w.calls[k].pc == Storing(v) && w.calls[k].o.certificateId == Some(0)
  }

  lemma BothIssued(w: World)
    requires w.orders == map[0 := Created(PENDING, Some(0)), 1 := Created(PENDING, Some(0))] && w.calls == map[]
    ensures var w' := Run(false, w, IssueOnce(0, 0, 1, Some(Issuance(1))) + IssueOnce(1, 1, 1, Some(Issuance(2))));
            && AboutToStore(w', 0, Issuance(1)) && AboutToStore(w', 1, Issuance(2))
            && w'.certs == w.certs && w'.versions == w.versions
  {
    RunAppend(false, w, IssueOnce(0, 0, 1, Some(Issuance(1))), IssueOnce(1, 1, 1, Some(Issuance(2))));
    IssueOnceRuns(w, 0, 0, Some(Issuance(1)));
    var w1 := AfterIssueOnce(w, 0, 0, Some(Issuance(1)));
    assert AboutToStore(w1, 0, Issuance(1)) && w1.orders[1] == w.orders[1] && 1 !in w1.calls;
    IssueOnceRuns(w1, 1, 1, Some(Issuance(2)));
    AfterIssueOnceIs(w1, 1, 1, Some(Issuance(2)));
    assert AboutToStore(AfterIssueOnce(w1, 1, 1, Some(Issuance(2))), 1, Issuance(2));
  }

  lemma StoredCrosswise(w: World)
    requires AboutToStore(w, 0, Issuance(1)) && AboutToStore(w, 1, Issuance(2))
    requires 0 in w.certs && w.versions == [Version(0, "", 0)]
    ensures var w' := Run(false, w, [Store(1, 0, Done)] + [Store(0, 0, Done)]);
            && 0 in w'.certs && w'.certs[0].notBefore == 1
            && w'.versions == [Version(0, "", 0), Version(0, "", 2), Version(0, "", 1)]
  {
    var w1 := Apply(false, w, Store(1, 0, Done));
    RunCons(false, w, Store(1, 0, Done), [Store(0, 0, Done)]);
    RunOne(false, w1, Store(0, 0, Done));
    StoreRenews(w, 1, 0);
    StoreRenews(w1, 0, 0);
  }

  /** Two renewals of one certificate that are finalized in the other order than
      they were issued leave LatestVersion and the certificate row apart. */
  lemma CrossedRenewalsDisagree() returns (actions: seq<Action>)
    ensures var w := Run(false, EMPTY_WORLD, actions); 0 in w.certs && !LatestAgrees(w, 0)
  {
    var issue := IssueOnce(0, 0, 1, Some(Issuance(1))) + IssueOnce(1, 1, 1, Some(Issuance(2)));
    var store := [Store(1, 0, Done)] + [Store(0, 0, Done)];
    actions := Setup() + (issue + store);
    SetupRuns();
    RunAppend(false, EMPTY_WORLD, Setup(), issue + store);
    var w := Run(false, EMPTY_WORLD, Setup());
    RunAppend(false, w, issue, store);
    BothIssued(w);
    StoredCrosswise(Run(false, w, issue));
    LaterVersionDisagrees(Run(false, EMPTY_WORLD, actions), 0, 2, 1);
  }
}
