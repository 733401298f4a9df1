// What a reachable world of the order protocol can still lead to: another
// request to the CA, a change of a finished order, the renewal of a revoked
// certificate. Each is decided by looking at the rows and at the calls under way.
module OrderFutures {
  import opened Prelude
  import opened OrderProtocol
  import opened OrderSafety

  // Whom a question is about: every order, or the renewals of one certificate.
  predicate About(o: Order, only: Option<CertId>) {
    only.None? || o.certificateId == only
  }

  predicate OnOrder(w: World, k: CallId, id: OrderId) {
    k in w.calls && w.calls[k].orderId == id
  }

  // The steps from which a call can still open the row.
  predicate Unsure(pc: Pc) {
    pc.Checking? || pc.Saving?
  }

  // The steps at which a call holds an unused claim; for the renewals of a
  // certificate also the one at which it has yet to store what it got.
  predicate Holding(pc: Pc, only: Option<CertId>) {
    pc.Signing? || pc.Submitting? || (only.Some? && pc.Storing?)
  }

  // The steps from which a call can still write a row that is not open.
  predicate CanWrite(pc: Pc) {
    !pc.Returned? && !pc.Reloading? && !pc.Claiming?
  }

  // The row is open and its challenges can still be verified.
  ghost predicate OpenAndClean(w: World, id: OrderId, only: Option<CertId>) {
    StatusIs(w.orders, id, AwaitingValidation) && Clean(w.orders[id].challenges) && About(w.orders[id], only)
  }

  ghost predicate CanReopen(w: World, k: CallId, id: OrderId) {
    OnOrder(w, k, id) && Unsure(w.calls[k].pc)
  }

  ghost predicate CanReopenClean(w: World, k: CallId, id: OrderId, only: Option<CertId>) {
    CanReopen(w, k, id) && Clean(w.calls[k].o.challenges) && About(w.calls[k].o, only)
  }

  // A call that only needs an open row, whatever its challenges say, and one
  // that there is or can be.
  ghost predicate CanClaim(w: World, k: CallId, id: OrderId, only: Option<CertId>) {
    && OnOrder(w, k, id) && w.calls[k].pc.Claiming? && About(w.calls[k].o, only)
    && (StatusIs(w.orders, id, AwaitingValidation) || exists j :: CanReopen(w, j, id))
  }

  ghost predicate HoldsClaim(w: World, k: CallId, id: OrderId, only: Option<CertId>) {
    OnOrder(w, k, id) && Holding(w.calls[k].pc, only) && About(w.calls[k].o, only)
  }

  ghost predicate CanIssue(w: World, id: OrderId, only: Option<CertId>) {
    || OpenAndClean(w, id, only)
    || (exists k :: CanReopenClean(w, k, id, only))
    || (exists k :: CanClaim(w, k, id, only))
    || (exists k :: HoldsClaim(w, k, id, only))
  }

  // ---------------------------------------------------- two ways of being frozen

  // The row is not open, call k cannot open it and holds no claim.
  ghost predicate Shut(w: World, k: CallId, id: OrderId, only: Option<CertId>) {
    && id in w.orders && w.orders[id].status != AwaitingValidation
    && !CanReopen(w, k, id) && !HoldsClaim(w, k, id, only)
  }

  // Neither the row nor call k has challenges that can still be verified.
  ghost predicate Spoiled(w: World, k: CallId, id: OrderId, only: Option<CertId>) {
    && id in w.orders && !OpenAndClean(w, id, only)
    && !CanReopenClean(w, k, id, only) && !HoldsClaim(w, k, id, only)
    && !(OnOrder(w, k, id) && w.calls[k].pc.Claiming? && About(w.calls[k].o, only))
  }

  // The row is not open and call k cannot write it.
  ghost predicate Rests(w: World, k: CallId, id: OrderId) {
    && id in w.orders && w.orders[id].status != AwaitingValidation
    && (OnOrder(w, k, id) ==> !CanWrite(w.calls[k].pc))
  }

  // A step of call k keeps order id as frozen, and as much at rest, as it is.
  ghost predicate Keeps(w: World, w': World, k: CallId, id: OrderId, only: Option<CertId>) {
    && (Shut(w, k, id, only) ==> Shut(w', k, id, only))
    && (Spoiled(w, k, id, only) ==> Spoiled(w', k, id, only))
    && (Rests(w, k, id) ==> Rests(w', k, id) && w'.orders[id] == w.orders[id])
    && (only.None? && (Shut(w, k, id, only) || Spoiled(w, k, id, only)) ==> w'.seen[CaIssue(id)] == w.seen[CaIssue(id)])
  }

  lemma BeginKeeps(w: World, k: CallId, on: OrderId, found: bool, id: OrderId, only: Option<CertId>)
    ensures Keeps(w, ApplyBegin(w, k, on, found), k, id, only)
  {
  }

  // A step that only changes the call itself, and gains nothing by it.
  lemma PrivateStepKeeps(w: World, k: CallId, c: Call, id: OrderId, only: Option<CertId>)
    requires k in w.calls && c.orderId == w.calls[k].orderId && c.o.certificateId == w.calls[k].o.certificateId
    requires Unsure(c.pc) ==> Unsure(w.calls[k].pc) && (Clean(c.o.challenges) ==> Clean(w.calls[k].o.challenges))
    requires c.pc.Claiming? ==> Unsure(w.calls[k].pc) && Clean(w.calls[k].o.challenges)
    requires Holding(c.pc, only) ==> Holding(w.calls[k].pc, only)
    requires CanWrite(c.pc) ==> CanWrite(w.calls[k].pc)
    ensures Keeps(w, SetCall(w, k, c), k, id, only)
  {
  }

  lemma CleanBefore(before: seq<Challenge>, after: seq<Challenge>)
    requires KeepsFindings(before, after) && Clean(after)
    ensures Clean(before)
  {
    forall c | c in before ensures c.error == "" {
      var i :| 0 <= i < |before| && before[i] == c;
      assert after[i] in after;
    }
  }

  lemma CheckKeeps(w: World, k: CallId, configured: bool, news: seq<Challenge>, failed: bool, id: OrderId,
                   only: Option<CertId>)
    ensures Keeps(w, ApplyCheck(w, k, configured, news, failed), k, id, only)
  {
    if k in w.calls && w.calls[k].pc.Checking? {
      var w' := ApplyCheck(w, k, configured, news, failed);
      var po := Recheck(w.calls[k].o.challenges, news);
      if Clean(po) {
        CleanBefore(w.calls[k].o.challenges, po);
      }
      assert w' == SetCall(w, k, w'.calls[k]);
      PrivateStepKeeps(w, k, w'.calls[k], id, only);
    }
  }

  lemma SaveKeeps(w: World, k: CallId, fault: Fault, id: OrderId, only: Option<CertId>)
    ensures Keeps(w, ApplySave(false, w, k, fault), k, id, only)
  {
  }

  lemma FailKeeps(w: World, k: CallId, now: Time, fault: Fault, id: OrderId, only: Option<CertId>)
    ensures Keeps(w, ApplyFail(w, k, now, fault), k, id, only)
  {
  }

  lemma CompleteKeeps(w: World, k: CallId, now: Time, fault: Fault, id: OrderId, only: Option<CertId>)
    ensures Keeps(w, ApplyComplete(w, k, now, fault), k, id, only)
  {
  }

  lemma ClaimKeeps(w: World, k: CallId, fault: Fault, id: OrderId, only: Option<CertId>)
    requires CallsFit(w)
    ensures Keeps(w, ApplyClaim(w, k, fault), k, id, only)
  {
  }

  lemma ReloadKeeps(w: World, k: CallId, found: bool, id: OrderId, only: Option<CertId>)
    ensures Keeps(w, ApplyReload(w, k, found), k, id, only)
  {
    if k in w.calls && w.calls[k].pc.Reloading? {
      PrivateStepKeeps(w, k, ApplyReload(w, k, found).calls[k], id, only);
    }
  }

  lemma SignKeeps(w: World, k: CallId, ok: bool, id: OrderId, only: Option<CertId>)
    ensures Keeps(w, ApplySign(w, k, ok), k, id, only)
  {
    if k in w.calls && w.calls[k].pc.Signing? {
      PrivateStepKeeps(w, k, ApplySign(w, k, ok).calls[k], id, only);
    }
  }

  lemma SubmitKeeps(w: World, k: CallId, answer: Option<IssuedCert>, id: OrderId, only: Option<CertId>)
    ensures Keeps(w, ApplySubmit(w, k, answer), k, id, only)
  {
  }

  lemma StoreStepKeeps(w: World, k: CallId, newCert: CertId, fault: Fault, id: OrderId, only: Option<CertId>)
    ensures Keeps(w, ApplyStore(w, k, newCert, fault), k, id, only)
  {
  }

  lemma CrashKeeps(w: World, k: CallId, id: OrderId, only: Option<CertId>)
    requires k in w.calls
    ensures Keeps(w, Goto(w, k, Returned(Err("crashed"))), k, id, only)
  {
    PrivateStepKeeps(w, k, w.calls[k].(pc := Returned(Err("crashed"))), id, only);
  }

  predicate BeforeClaim(a: Action) {
    a.Begin? || a.Check? || a.Save? || a.TryClaim? || a.Reload?
  }

  lemma EarlyActionKeeps(w: World, a: Action, id: OrderId, only: Option<CertId>)
    requires CallsFit(w) && BeforeClaim(a)
    ensures Keeps(w, Apply(false, w, a), a.call, id, only)
  {
    match a
    case Begin(k, on, found) => BeginKeeps(w, k, on, found, id, only);
    case Check(k, configured, news, failed) => CheckKeeps(w, k, configured, news, failed, id, only);
    case Save(k, fault) => SaveKeeps(w, k, fault, id, only);
    case TryClaim(k, fault) => ClaimKeeps(w, k, fault, id, only);
    case Reload(k, found) => ReloadKeeps(w, k, found, id, only);
  }

  lemma LateActionKeeps(w: World, a: Action, id: OrderId, only: Option<CertId>)
    requires OfACall(a) && !BeforeClaim(a)
    ensures Keeps(w, Apply(false, w, a), a.call, id, only)
  {
    match a
    case Fail(k, now, fault) => FailKeeps(w, k, now, fault, id, only);
    case Sign(k, ok) => SignKeeps(w, k, ok, id, only);
    case Submit(k, answer) => SubmitKeeps(w, k, answer, id, only);
    case Store(k, newCert, fault) => StoreStepKeeps(w, k, newCert, fault, id, only);
    case Complete(k, now, fault) => CompleteKeeps(w, k, now, fault, id, only);
    case Crash(k) => if k in w.calls { CrashKeeps(w, k, id, only); }
  }

  lemma CallActionKeeps(w: World, a: Action, id: OrderId, only: Option<CertId>)
    requires CallsFit(w) && OfACall(a)
    ensures Keeps(w, Apply(false, w, a), a.call, id, only)
  {
    if BeforeClaim(a) {
      EarlyActionKeeps(w, a, id, only);
    } else {
      LateActionKeeps(w, a, id, only);
    }
  }

  // ------------------------------------------------------- frozen orders stay so

  ghost predicate AllShut(w: World, id: OrderId, only: Option<CertId>) {
    id in w.orders && w.orders[id].status != AwaitingValidation && forall k :: k in w.calls ==> Shut(w, k, id, only)
  }

  ghost predicate AllSpoiled(w: World, id: OrderId, only: Option<CertId>) {
    id in w.orders && !OpenAndClean(w, id, only) && forall k :: k in w.calls ==> Spoiled(w, k, id, only)
  }

  lemma FrozenIff(w: World, id: OrderId, only: Option<CertId>)
    requires id in w.orders
    ensures !CanIssue(w, id, only) <==> AllShut(w, id, only) || AllSpoiled(w, id, only)
  {
    if AllShut(w, id, only) {
      forall k ensures !CanReopen(w, k, id) && !HoldsClaim(w, k, id, only) {
        if k in w.calls { assert Shut(w, k, id, only); }
      }
    }
    if AllSpoiled(w, id, only) {
      forall k ensures !CanReopenClean(w, k, id, only) && !CanClaim(w, k, id, only) && !HoldsClaim(w, k, id, only) {
        if k in w.calls { assert Spoiled(w, k, id, only); }
      }
    }
    if !CanIssue(w, id, only) {
      if k :| k in w.calls && !Spoiled(w, k, id, only) {
        assert OnOrder(w, k, id) && w.calls[k].pc.Claiming? && About(w.calls[k].o, only) && !CanClaim(w, k, id, only);
        forall j | j in w.calls ensures Shut(w, j, id, only) {
          assert !CanReopen(w, j, id) && !HoldsClaim(w, j, id, only);
        }
      }
    }
  }

  // Calls other than the one that moved see the same rows of other orders and
  // are themselves unchanged.
  lemma OthersStayShut(w: World, w': World, k: CallId, j: CallId, id: OrderId, only: Option<CertId>)
    requires j != k && k in w'.calls && w'.calls == w.calls[k := w'.calls[k]]
    requires Shut(w, j, id, only) && Shut(w', k, id, only)
    ensures Shut(w', j, id, only)
  {
  }

  lemma OthersStaySpoiled(w: World, w': World, k: CallId, j: CallId, id: OrderId, only: Option<CertId>)
    requires j != k && k in w'.calls && w'.calls == w.calls[k := w'.calls[k]]
    requires Spoiled(w, j, id, only) && Spoiled(w', k, id, only)
    ensures Spoiled(w', j, id, only)
  {
  }

  lemma CallKeepsFrozen(w: World, a: Action, id: OrderId, only: Option<CertId>)
    requires CallsFit(w) && OfACall(a) && (AllShut(w, id, only) || AllSpoiled(w, id, only))
    ensures var w' := Apply(false, w, a);
            && (AllShut(w', id, only) || AllSpoiled(w', id, only))
            && (only.None? ==> w'.seen[CaIssue(id)] == w.seen[CaIssue(id)])
  {
    var w', k := Apply(false, w, a), a.call;
    CallActionMoves(false, w, a, id);
    CallActionKeeps(w, a, id, only);
    if w' != w {
      if AllShut(w, id, only) {
        assert Shut(w, k, id, only) by { assert k in w.calls ==> Shut(w, k, id, only); }
        forall j | j in w'.calls ensures Shut(w', j, id, only) {
          if j != k { OthersStayShut(w, w', k, j, id, only); }
        }
      } else {
        assert Spoiled(w, k, id, only) by { assert k in w.calls ==> Spoiled(w, k, id, only); }
        forall j | j in w'.calls ensures Spoiled(w', j, id, only) {
          if j != k { OthersStaySpoiled(w, w', k, j, id, only); }
        }
      }
    }
  }

  // An action of no call leaves existing rows, calls and counts alone.
  lemma OtherActionIsQuiet(w: World, a: Action, id: OrderId)
    requires !OfACall(a) && id in w.orders
    ensures var w' := Apply(false, w, a);
            w'.calls == w.calls && w'.seen == w.seen && id in w'.orders && w'.orders[id] == w.orders[id]
  {
  }

  lemma SameOrderStaysFrozen(w: World, w': World, id: OrderId, only: Option<CertId>)
    requires AllShut(w, id, only) || AllSpoiled(w, id, only)
    requires w'.calls == w.calls && id in w'.orders && w'.orders[id] == w.orders[id]
    ensures AllShut(w', id, only) || AllSpoiled(w', id, only)
  {
    if AllShut(w, id, only) {
      forall k | k in w'.calls ensures Shut(w', k, id, only) { assert Shut(w, k, id, only); }
    } else {
      forall k | k in w'.calls ensures Spoiled(w', k, id, only) { assert Spoiled(w, k, id, only); }
    }
  }

  lemma FrozenStep(w: World, a: Action, id: OrderId, only: Option<CertId>)
    requires CallsFit(w) && id in w.orders && !CanIssue(w, id, only)
    ensures var w' := Apply(false, w, a);
            && id in w'.orders && !CanIssue(w', id, only)
            && (only.None? ==> w'.seen[CaIssue(id)] == w.seen[CaIssue(id)])
  {
    FrozenIff(w, id, only);
    if OfACall(a) {
      CallKeepsFrozen(w, a, id, only);
    } else {
      OtherActionIsQuiet(w, a, id);
      SameOrderStaysFrozen(w, Apply(false, w, a), id, only);
    }
    FrozenIff(Apply(false, w, a), id, only);
  }

  lemma {:induction false} FrozenForever(w: World, actions: seq<Action>, id: OrderId)
    requires CallsFit(w) && id in w.orders && !CanIssue(w, id, None)
    ensures var w' := Run(false, w, actions);
            id in w'.orders && !CanIssue(w', id, None) && w'.seen[CaIssue(id)] == w.seen[CaIssue(id)]
    decreases |actions|
  {
    if actions == [] {
    } else {
      FrozenStep(w, actions[0], id, None);
      FitStep(false, w, actions[0]);
      FrozenForever(Apply(false, w, actions[0]), actions[1..], id);
    }
  }

  // ------------------------------------------------------ the way to a held claim

  lemma {:induction false} FreshCall(used: set<CallId>) returns (k: CallId)
    ensures forall j :: j in used ==> j < k
  {
    if used == {} {
      k := 0;
    } else {
      var j :| j in used;
      var rest := FreshCall(used - {j});
      k := if rest <= j then j + 1 else rest;
      assert forall i :: i in used ==> i == j || i in used - {j};
    }
  }

  // From w to w' nobody asked the CA and no certificate changed.
  ghost predicate Meanwhile(w: World, w': World, id: OrderId) {
    w'.certs == w.certs && w'.seen[CaIssue(id)] == w.seen[CaIssue(id)]
  }

  // A run of calls that exist or begin; it creates nothing.
  predicate OnlyCalls(actions: seq<Action>) {
    forall a :: a in actions ==> OfACall(a)
  }

  // A run that ends with call k holding a claim.
  ghost predicate LeadsToClaim(w: World, actions: seq<Action>, k: CallId, id: OrderId, only: Option<CertId>) {
    OnlyCalls(actions) && HoldsClaim(Run(false, w, actions), k, id, only) && Meanwhile(w, Run(false, w, actions), id)
  }

  lemma OneMoreStep(w: World, a: Action, rest: seq<Action>, k: CallId, id: OrderId, only: Option<CertId>)
    requires OfACall(a) && Meanwhile(w, Apply(false, w, a), id) && LeadsToClaim(Apply(false, w, a), rest, k, id, only)
    ensures LeadsToClaim(w, [a] + rest, k, id, only)
  {
    RunCons(false, w, a, rest);
  }

  lemma OpenRowLeads(w: World, id: OrderId, only: Option<CertId>) returns (actions: seq<Action>, k: CallId)
    requires OpenAndClean(w, id, only)
    ensures LeadsToClaim(w, actions, k, id, only)
  {
    k := FreshCall(w.calls.Keys);
    actions := UpToSigning(k, id, |w.orders[id].challenges|);
    UpToSigningRuns(w, k, id);
  }

  // Writing back opens the row with the call's own list.
  lemma SaveOpens(w: World, k: CallId, id: OrderId)
    requires CallsFit(w) && OnOrder(w, k, id) && w.calls[k].pc.Saving?
    ensures var w' := Apply(false, w, Save(k, Done));
            && StatusIs(w'.orders, id, AwaitingValidation) && w'.orders[id] == w.calls[k].o && Meanwhile(w, w', id)
            && forall j :: j in w.calls && j != k ==> j in w'.calls && w'.calls[j] == w.calls[j]
  {
    assert Apply(false, w, Save(k, Done)) == ApplySave(false, w, k, Done);
  }

  // A check that fails leaves the list as it is and is about to be written back.
  lemma CheckIsSaved(w: World, k: CallId, id: OrderId)
    requires CallsFit(w) && OnOrder(w, k, id) && w.calls[k].pc.Checking?
    ensures var w' := Apply(false, w, Check(k, true, [], true));
            && OnOrder(w', k, id) && w'.calls[k].pc.Saving? && Meanwhile(w, w', id)
            && w'.calls[k].o.challenges == w.calls[k].o.challenges
            && w'.calls[k].o.certificateId == w.calls[k].o.certificateId
            && forall j :: j in w.calls && j != k ==> j in w'.calls && w'.calls[j] == w.calls[j]
  {
    NothingFound(w.calls[k].o.challenges);
    assert Apply(false, w, Check(k, true, [], true)) == ApplyCheck(w, k, true, [], true);
  }

  lemma SavingLeads(w: World, j: CallId, id: OrderId, only: Option<CertId>) returns (actions: seq<Action>, k: CallId)
    requires CallsFit(w) && CanReopenClean(w, j, id, only) && w.calls[j].pc.Saving?
    ensures LeadsToClaim(w, actions, k, id, only)
  {
    SaveOpens(w, j, id);
    actions, k := OpenRowLeads(Apply(false, w, Save(j, Done)), id, only);
    OneMoreStep(w, Save(j, Done), actions, k, id, only);
    actions := [Save(j, Done)] + actions;
  }

  lemma ReopeningLeads(w: World, j: CallId, id: OrderId, only: Option<CertId>) returns (actions: seq<Action>, k: CallId)
    requires CallsFit(w) && CanReopenClean(w, j, id, only)
    ensures LeadsToClaim(w, actions, k, id, only)
  {
    if w.calls[j].pc.Saving? {
      actions, k := SavingLeads(w, j, id, only);
    } else {
      var a := Check(j, true, [], true);
      CheckIsSaved(w, j, id);
      FitStep(false, w, a);
      actions, k := SavingLeads(Apply(false, w, a), j, id, only);
      OneMoreStep(w, a, actions, k, id, only);
      actions := [a] + actions;
    }
  }

  lemma ClaimOfOpenRow(w: World, k: CallId, id: OrderId, only: Option<CertId>) returns (actions: seq<Action>)
    requires OnOrder(w, k, id) && w.calls[k].pc.Claiming? && About(w.calls[k].o, only)
    requires StatusIs(w.orders, id, AwaitingValidation)
    ensures LeadsToClaim(w, actions, k, id, only)
  {
    actions := [TryClaim(k, Done)];
    RunOne(false, w, TryClaim(k, Done));
    assert w == SetCall(w, k, Call(id, w.calls[k].o, Claiming));
    ClaimSucceeds(w, k, id, w.calls[k].o);
  }

  lemma ClaimAfterSave(w: World, k: CallId, j: CallId, id: OrderId, only: Option<CertId>) returns (actions: seq<Action>)
    requires CallsFit(w) && OnOrder(w, k, id) && w.calls[k].pc.Claiming? && About(w.calls[k].o, only)
    requires OnOrder(w, j, id) && w.calls[j].pc.Saving?
    ensures LeadsToClaim(w, actions, k, id, only)
  {
    SaveOpens(w, j, id);
    actions := ClaimOfOpenRow(Apply(false, w, Save(j, Done)), k, id, only);
    OneMoreStep(w, Save(j, Done), actions, k, id, only);
    actions := [Save(j, Done)] + actions;
  }

  lemma ClaimingLeads(w: World, k: CallId, id: OrderId, only: Option<CertId>) returns (actions: seq<Action>)
    requires CallsFit(w) && CanClaim(w, k, id, only)
    ensures LeadsToClaim(w, actions, k, id, only)
  {
    if StatusIs(w.orders, id, AwaitingValidation) {
      actions := ClaimOfOpenRow(w, k, id, only);
    } else {
      var j :| CanReopen(w, j, id);
      if w.calls[j].pc.Saving? {
        actions := ClaimAfterSave(w, k, j, id, only);
      } else {
        var a := Check(j, true, [], true);
        CheckIsSaved(w, j, id);
        FitStep(false, w, a);
        actions := ClaimAfterSave(Apply(false, w, a), k, j, id, only);
        OneMoreStep(w, a, actions, k, id, only);
        actions := [a] + actions;
      }
    }
  }

  lemma CanIssueLeads(w: World, id: OrderId, only: Option<CertId>) returns (actions: seq<Action>, k: CallId)
    requires CallsFit(w) && CanIssue(w, id, only)
    ensures LeadsToClaim(w, actions, k, id, only)
  {
    if OpenAndClean(w, id, only) {
      actions, k := OpenRowLeads(w, id, only);
    } else if exists j :: CanReopenClean(w, j, id, only) {
      var j :| CanReopenClean(w, j, id, only);
      actions, k := ReopeningLeads(w, j, id, only);
    } else if exists j :: CanClaim(w, j, id, only) {
      k :| CanClaim(w, k, id, only);
      actions := ClaimingLeads(w, k, id, only);
    } else {
      k :| HoldsClaim(w, k, id, only);
      actions := [];
    }
  }

  // -------------------------------------------------- another request to the CA

  lemma HeldClaimReachesCa(w: World, k: CallId, id: OrderId) returns (actions: seq<Action>)
    requires HoldsClaim(w, k, id, None)
    ensures Run(false, w, actions).seen[CaIssue(id)] == w.seen[CaIssue(id)] + 1
  {
    var c := w.calls[k];
    assert w == SetCall(w, k, Call(id, c.o, c.pc));
    if c.pc.Signing? {
      actions := FromSigning(k, None);
      FromSigningRuns(w, k, id, c.o, None);
    } else {
      actions := [Submit(k, None)];
      RunOne(false, w, Submit(k, None));
      SubmitIsAnswered(w, k, id, c.o, None);
    }
  }

  // Some continuation asks the CA (again).
  ghost predicate ReachesCa(w: World, id: OrderId) {
    exists next :: Run(false, w, next).seen[CaIssue(id)] > w.seen[CaIssue(id)]
  }

  /** In every reachable world, some continuation asks the CA to issue (again)
      for an existing order if and only if one of these holds: the row is open
      with challenges that can still be verified; a call that is checking or
      about to write back has such challenges; a call is about to claim and the
      row is open or can be opened by another call; a call holds a claim. */
  lemma IssueAgainIff(past: seq<Action>, id: OrderId)
    requires id in Run(false, EMPTY_WORLD, past).orders
    ensures var w := Run(false, EMPTY_WORLD, past); CanIssue(w, id, None) <==> ReachesCa(w, id)
  {
    assert Holders(EMPTY_WORLD, id) == {};
    BudgetRun(false, EMPTY_WORLD, past, id);
    var w := Run(false, EMPTY_WORLD, past);
    if CanIssue(w, id, None) {
      var first, k := CanIssueLeads(w, id, None);
      var last := HeldClaimReachesCa(Run(false, w, first), k, id);
      RunAppend(false, w, first, last);
      assert Run(false, w, first + last).seen[CaIssue(id)] > w.seen[CaIssue(id)];
    } else {
      forall next ensures Run(false, w, next).seen[CaIssue(id)] == w.seen[CaIssue(id)] {
        FrozenForever(w, next, id);
      }
    }
  }

  predicate Creates(a: Action, id: OrderId) {
    (a.CreateOrder? || a.CreateRenewal?) && a.id == id
  }

  /** For instance, an order or a renewal created with a challenge that is
      already refused, or with none, never reaches the CA. */
  lemma RefusedAtCreationNeverIssues(past: seq<Action>, id: OrderId, a: Action, next: seq<Action>)
    requires id !in Run(false, EMPTY_WORLD, past).orders && Creates(a, id) && !Clean(a.po)
    requires id in Apply(false, Run(false, EMPTY_WORLD, past), a).orders
    ensures Run(false, EMPTY_WORLD, past + ([a] + next)).seen[CaIssue(id)] == 0
  {
    var w := Run(false, EMPTY_WORLD, past);
    assert Holders(EMPTY_WORLD, id) == {};
    BudgetRun(false, EMPTY_WORLD, past, id);
    ReopensNeedARow(EMPTY_WORLD, past, id);
    var w1 := Apply(false, w, a);
    RunAppend(false, EMPTY_WORLD, past, [a] + next);
    RunCons(false, w, a, next);
    FitStep(false, w, a);
    assert w1.calls == w.calls && !OpenAndClean(w1, id, None);
    assert forall k :: k in w.calls ==> w.calls[k].orderId != id;
    FrozenForever(w1, next, id);
  }

  // An order that does not exist has not been reopened.
  lemma {:induction false} ReopensNeedARow(w: World, actions: seq<Action>, id: OrderId)
    requires CallsFit(w) && (id !in w.orders ==> w.seen[Reopen(id)] == 0)
    ensures id !in Run(false, w, actions).orders ==> Run(false, w, actions).seen[Reopen(id)] == 0
    decreases |actions|
  {
    if actions == [] {
    } else {
      var w' := Apply(false, w, actions[0]);
      FitStep(false, w, actions[0]);
      ReopenStep(w, actions[0], id);
      ReopensNeedARow(w', actions[1..], id);
    }
  }

  lemma SaveReopensARow(w: World, k: CallId, fault: Fault, id: OrderId)
    requires CallsFit(w) && id !in w.orders
    ensures var w' := ApplySave(false, w, k, fault); id !in w'.orders && w'.seen[Reopen(id)] == w.seen[Reopen(id)]
  {
  }

  lemma OnlySavesAreGuarded(w: World, a: Action)
    requires !a.Save?
    ensures Apply(false, w, a) == Apply(true, w, a)
  {
  }

  lemma RowsStay(w: World, a: Action, id: OrderId)
    requires CallsFit(w) && id in w.orders
    ensures id in Apply(false, w, a).orders
  {
    if OfACall(a) {
      CallActionMoves(false, w, a, id);
    }
  }

  lemma ReopenStep(w: World, a: Action, id: OrderId)
    requires CallsFit(w) && (id !in w.orders ==> w.seen[Reopen(id)] == 0)
    ensures var w' := Apply(false, w, a); id !in w'.orders ==> w'.seen[Reopen(id)] == 0
  {
    if id in w.orders {
      RowsStay(w, a, id);
    } else if a.Save? {
      SaveReopensARow(w, a.call, a.fault, id);
    } else {
      OnlySavesAreGuarded(w, a);
      GuardedStepNeverReopens(w, a, id);
    }
  }

  // ------------------------------------------------- finished orders stay finished

  // The row is not open and no call on the order can write it any more.
  ghost predicate Settled(w: World, id: OrderId) {
    && id in w.orders && w.orders[id].status != AwaitingValidation
    && forall k :: k in w.calls && w.calls[k].orderId == id ==> !CanWrite(w.calls[k].pc)
  }

  lemma MoveKeepsSettled(w: World, w': World, k: CallId, id: OrderId)
    requires Settled(w, id) && Move(w, w', k, id) && Keeps(w, w', k, id, None)
    ensures Settled(w', id) && w'.orders[id] == w.orders[id]
  {
    assert Rests(w, k, id);
    forall j | j in w'.calls && w'.calls[j].orderId == id ensures !CanWrite(w'.calls[j].pc) {
      if j != k { assert w'.calls[j] == w.calls[j]; }
    }
  }

  lemma SettledStep(w: World, a: Action, id: OrderId)
    requires CallsFit(w) && Settled(w, id)
    ensures var w' := Apply(false, w, a); Settled(w', id) && w'.orders[id] == w.orders[id]
  {
    if OfACall(a) {
      CallActionMoves(false, w, a, id);
      CallActionKeeps(w, a, id, None);
      if Apply(false, w, a) != w {
        MoveKeepsSettled(w, Apply(false, w, a), a.call, id);
      }
    } else {
      OtherActionIsQuiet(w, a, id);
    }
  }

  /** Once no overlapping call can write it, an issued, failed or abandoned
      order is final: nothing that happens later changes the row. */
  lemma {:induction false} SettledForever(w: World, actions: seq<Action>, id: OrderId)
    requires CallsFit(w) && Settled(w, id)
    ensures Settled(Run(false, w, actions), id)
    ensures Run(false, w, actions).orders[id] == w.orders[id]
    decreases |actions|
  {
    if actions == [] {
    } else {
      SettledStep(w, actions[0], id);
      FitStep(false, w, actions[0]);
      SettledForever(Apply(false, w, actions[0]), actions[1..], id);
    }
  }

  // A moment at which the row was not completed.
  function AnotherTime(o: Order): Time {
    if o.completedAt.Some? then o.completedAt.value + 1 else 0
  }

  ghost predicate Rewritten(w: World, w': World, id: OrderId) {
    id in w.orders && id in w'.orders && w'.orders[id] != w.orders[id]
  }

  lemma LastWriteChanges(w: World, k: CallId) returns (a: Action)
    requires CallsFit(w) && k in w.calls && w.orders[w.calls[k].orderId].status != AwaitingValidation
    requires w.calls[k].pc.Failing? || w.calls[k].pc.Completing? || w.calls[k].pc.Saving?
    ensures Rewritten(w, Apply(false, w, a), w.calls[k].orderId)
  {
    var id := w.calls[k].orderId;
    var now := AnotherTime(w.orders[id]);
    if w.calls[k].pc.Saving? {
      a := Save(k, Done);
      SaveReopens(w, k);
    } else if w.calls[k].pc.Failing? {
      a := Fail(k, now, Done);
      assert Rewritten(w, ApplyFail(w, k, now, Done), id);
    } else {
      a := Complete(k, now, Done);
      assert Rewritten(w, ApplyComplete(w, k, now, Done), id);
    }
  }

  // From every other such step one answer makes the call fail.
  lemma OneStepToFailing(w: World, k: CallId) returns (a: Action)
    requires CallsFit(w) && k in w.calls
    requires w.calls[k].pc.Checking? || w.calls[k].pc.Signing? || w.calls[k].pc.Submitting? || w.calls[k].pc.Storing?
    ensures var w' := Apply(false, w, a);
            && w'.orders == w.orders && k in w'.calls
            && w'.calls[k].orderId == w.calls[k].orderId && w'.calls[k].pc.Failing?
  {
    match w.calls[k].pc
    case Checking => a := Check(k, false, [], false); assert ApplyCheck(w, k, false, [], false).orders == w.orders;
    case Signing => a := Sign(k, false); assert ApplySign(w, k, false).orders == w.orders;
    case Submitting => a := Submit(k, None); assert ApplySubmit(w, k, None).orders == w.orders;
    case Storing(_) => a := Store(k, 0, Rejected); assert ApplyStore(w, k, 0, Rejected).orders == w.orders;
  }

  lemma WriterChangesRow(w: World, k: CallId) returns (actions: seq<Action>)
    requires CallsFit(w) && k in w.calls && CanWrite(w.calls[k].pc)
    requires w.orders[w.calls[k].orderId].status != AwaitingValidation
    ensures Rewritten(w, Run(false, w, actions), w.calls[k].orderId)
  {
    if w.calls[k].pc.Failing? || w.calls[k].pc.Completing? || w.calls[k].pc.Saving? {
      var a := LastWriteChanges(w, k);
      actions := [a];
      RunOne(false, w, a);
    } else {
      var a := OneStepToFailing(w, k);
      FitStep(false, w, a);
      var w1 := Apply(false, w, a);
      var b := LastWriteChanges(w1, k);
      actions := [a] + [b];
      RunCons(false, w, a, [b]);
      RunOne(false, w1, b);
    }
  }

  // No continuation rewrites the row.
  ghost predicate IsFinal(w: World, id: OrderId) {
    forall next :: !Rewritten(w, Run(false, w, next), id)
  }

  /** In every reachable world, the row of an order that is not open is final if
      and only if no overlapping call can still write it. In particular a stale
      call can turn an issued order into a failed or an open one. */
  lemma FinalIff(past: seq<Action>, id: OrderId)
    requires var w := Run(false, EMPTY_WORLD, past); id in w.orders && w.orders[id].status != AwaitingValidation
    ensures var w := Run(false, EMPTY_WORLD, past);
            Settled(w, id) <==> IsFinal(w, id)
  {
    assert Holders(EMPTY_WORLD, id) == {};
    BudgetRun(false, EMPTY_WORLD, past, id);
    var w := Run(false, EMPTY_WORLD, past);
    if Settled(w, id) {
      forall next ensures !Rewritten(w, Run(false, w, next), id) {
        SettledForever(w, next, id);
      }
    } else {
      var k :| k in w.calls && w.calls[k].orderId == id && CanWrite(w.calls[k].pc);
      assert Fits(w.orders, w.calls[k]);
      var next := WriterChangesRow(w, k);
      assert Rewritten(w, Run(false, w, next), id) && !IsFinal(w, id);
    }
  }

  // ------------------------------------------------- a revoked certificate's row

  predicate IsRevoked(w: World, c: CertId) {
    c in w.certs && w.certs[c].status == Revoked
  }

  // No renewal of the certificate is started any more.
  predicate NoNewRenewal(actions: seq<Action>, c: CertId) {
    forall a :: a in actions ==> !(a.CreateRenewal? && a.cert == c)
  }

  // Some renewal of the certificate that exists can still commit.
  ghost predicate Renewable(w: World, c: CertId) {
    exists id :: id in w.orders && CanIssue(w, id, Some(c))
  }

  ghost predicate CanRevive(w: World, c: CertId) {
    exists next :: NoNewRenewal(next, c) && !IsRevoked(Run(false, w, next), c)
  }

  lemma StoreLeavesOthers(w: World, k: CallId, newCert: CertId, fault: Fault, c: CertId)
    requires c in w.certs && (k in w.calls && w.calls[k].pc.Storing? ==> w.calls[k].o.certificateId != Some(c))
    ensures var w' := ApplyStore(w, k, newCert, fault); c in w'.certs && w'.certs[c] == w.certs[c]
  {
  }

  lemma OnlyStoresRevive(w: World, a: Action, c: CertId)
    requires IsRevoked(w, c) && !a.Store?
    ensures IsRevoked(Apply(false, w, a), c)
  {
  }

  lemma CertStep(w: World, a: Action, c: CertId)
    requires CallsFit(w) && IsRevoked(w, c) && !Renewable(w, c)
    ensures IsRevoked(Apply(false, w, a), c)
  {
    if a.Store? {
      var k := a.call;
      if k in w.calls && w.calls[k].pc.Storing? {
        assert !CanIssue(w, w.calls[k].orderId, Some(c));
        assert !HoldsClaim(w, k, w.calls[k].orderId, Some(c));
      }
      StoreLeavesOthers(w, k, a.newCert, a.fault, c);
    } else {
      OnlyStoresRevive(w, a, c);
    }
  }

  lemma NewOrderIsFrozen(w: World, a: Action, id: OrderId, c: CertId)
    requires CallsFit(w) && id !in w.orders && id in Apply(false, w, a).orders && !(a.CreateRenewal? && a.cert == c)
    ensures !CanIssue(Apply(false, w, a), id, Some(c))
  {
    if OfACall(a) {
      CallActionMoves(false, w, a, id);
    }
    var w' := Apply(false, w, a);
    assert w'.calls == w.calls;
    assert forall k :: k in w.calls ==> w.calls[k].orderId != id;
  }

  lemma RenewableStep(w: World, a: Action, c: CertId)
    requires CallsFit(w) && !Renewable(w, c) && !(a.CreateRenewal? && a.cert == c)
    ensures !Renewable(Apply(false, w, a), c)
  {
    var w' := Apply(false, w, a);
    forall id | id in w'.orders ensures !CanIssue(w', id, Some(c)) {
      if id in w.orders {
        FrozenStep(w, a, id, Some(c));
      } else {
        NewOrderIsFrozen(w, a, id, c);
      }
    }
  }

  lemma {:induction false} RevokedForever(w: World, actions: seq<Action>, c: CertId)
    requires CallsFit(w) && IsRevoked(w, c) && !Renewable(w, c) && NoNewRenewal(actions, c)
    ensures IsRevoked(Run(false, w, actions), c)
    decreases |actions|
  {
    if actions == [] {
    } else {
      assert actions[0] in actions;
      CertStep(w, actions[0], c);
      RenewableStep(w, actions[0], c);
      FitStep(false, w, actions[0]);
      RevokedForever(Apply(false, w, actions[0]), actions[1..], c);
    }
  }

  const FROM_CA := IssuedCert("", 0, 0)

  // What is left for a call that holds the claim of a renewal.
  function UpToStore(k: CallId, pc: Pc): seq<Action> {
    (if pc.Signing? then [Sign(k, true)] + [Submit(k, Some(FROM_CA))]
     else if pc.Submitting? then [Submit(k, Some(FROM_CA))]
     else []) + [Store(k, 0, Done)]
  }

  lemma StoreRevives(w: World, k: CallId, id: OrderId, c: CertId)
    requires IsRevoked(w, c) && OnOrder(w, k, id) && w.calls[k].pc.Storing? && w.calls[k].o.certificateId == Some(c)
    ensures !IsRevoked(Run(false, w, [Store(k, 0, Done)]), c)
  {
    RunOne(false, w, Store(k, 0, Done));
    assert ApplyStore(w, k, 0, Done).certs[c].status == Active;
  }

  lemma HeldClaimRevives(w: World, k: CallId, id: OrderId, c: CertId)
    requires IsRevoked(w, c) && HoldsClaim(w, k, id, Some(c))
    ensures !IsRevoked(Run(false, w, UpToStore(k, w.calls[k].pc)), c)
  {
    var o := w.calls[k].o;
    assert w == SetCall(w, k, Call(id, o, w.calls[k].pc));
    var stored := Submitted(w, k, id, o, Some(FROM_CA));
    if w.calls[k].pc.Signing? {
      RunAppend(false, w, FromSigning(k, Some(FROM_CA)), [Store(k, 0, Done)]);
      FromSigningRuns(w, k, id, o, Some(FROM_CA));
      StoreRevives(stored, k, id, c);
    } else if w.calls[k].pc.Submitting? {
      RunCons(false, w, Submit(k, Some(FROM_CA)), [Store(k, 0, Done)]);
      SubmitIsAnswered(w, k, id, o, Some(FROM_CA));
      StoreRevives(stored, k, id, c);
    } else {
      assert UpToStore(k, w.calls[k].pc) == [Store(k, 0, Done)];
      StoreRevives(w, k, id, c);
    }
  }

  /** A revoked certificate becomes active again when a renewal of it commits. In
      every reachable world, as long as nobody starts a new renewal, it stays
      revoked for good if and only if no existing order or call can still commit
      one. */
  lemma RevokedStaysIff(past: seq<Action>, c: CertId)
    requires IsRevoked(Run(false, EMPTY_WORLD, past), c)
    ensures var w := Run(false, EMPTY_WORLD, past); CanRevive(w, c) <==> Renewable(w, c)
  {
    assert Holders(EMPTY_WORLD, 0) == {};
    BudgetRun(false, EMPTY_WORLD, past, 0);
    var w := Run(false, EMPTY_WORLD, past);
    if Renewable(w, c) {
      var id :| id in w.orders && CanIssue(w, id, Some(c));
      var first, k := CanIssueLeads(w, id, Some(c));
      var w1 := Run(false, w, first);
      var last := UpToStore(k, w1.calls[k].pc);
      HeldClaimRevives(w1, k, id, c);
      RunAppend(false, w, first, last);
      assert NoNewRenewal(first + last, c);
    } else {
      forall next | NoNewRenewal(next, c) ensures IsRevoked(Run(false, w, next), c) {
        RevokedForever(w, next, c);
      }
    }
  }
}
