// Which orders know of a certificate. A finalizer can commit and lose its reply:
// then the certificate is active and its order ends as failed.
module CertificateOwners {
  import opened Prelude
  import opened OrderProtocol
  import opened OrderSafety
  import CertificateIntegrity

  predicate OnOrder(w: World, k: CallId, id: OrderId) {
    k in w.calls && w.calls[k].orderId == id
  }

  // Every call on a renewal works on the certificate that the row names.
  ghost predicate IsRenewal(w: World, id: OrderId) {
    && id in w.orders && w.orders[id].certificateId.Some?
    && forall k :: OnOrder(w, k, id) ==> w.calls[k].o.certificateId == w.orders[id].certificateId
  }

  predicate KnowsCertificate(pc: Pc) {
    pc.Completing? || pc.Returned?
  }

  // A first order has no certificate until its call has stored one.
  ghost predicate IsFirst(w: World, id: OrderId) {
    && id in w.orders && (w.orders[id].status == AwaitingValidation ==> w.orders[id].certificateId.None?)
    && forall k :: OnOrder(w, k, id) ==> KnowsCertificate(w.calls[k].pc) || w.calls[k].o.certificateId.None?
  }

  ghost predicate IsEither(w: World, id: OrderId) {
    IsRenewal(w, id) || IsFirst(w, id)
  }

  ghost predicate Sorted(w: World) {
    forall id :: id in w.orders ==> IsEither(w, id)
  }

  // What a step of call k may do to order id so that its kind stays.
  ghost predicate KindStep(w: World, w': World, k: CallId, id: OrderId) {
    && k in w'.calls && w'.calls == w.calls[k := w'.calls[k]] && (id in w.orders ==> id in w'.orders)
    && (id in w.orders && w.orders[id].certificateId.Some?
        && (OnOrder(w, k, id) ==> w.calls[k].o.certificateId == w.orders[id].certificateId) ==>
          && w'.orders[id].certificateId == w.orders[id].certificateId
          && (w'.calls[k].orderId == id ==> w'.calls[k].o.certificateId == w.orders[id].certificateId))
    && (id in w.orders && (w.orders[id].status == AwaitingValidation ==> w.orders[id].certificateId.None?)
        && (OnOrder(w, k, id) ==> KnowsCertificate(w.calls[k].pc) || w.calls[k].o.certificateId.None?) ==>
          && (w'.orders[id].status == AwaitingValidation ==> w'.orders[id].certificateId.None?)
          && (w'.calls[k].orderId == id ==> KnowsCertificate(w'.calls[k].pc) || w'.calls[k].o.certificateId.None?))
  }

  lemma BeginKind(w: World, k: CallId, on: OrderId, found: bool, id: OrderId)
    ensures var w' := ApplyBegin(w, k, on, found); w' == w || KindStep(w, w', k, id)
  {
  }

  lemma CheckKind(w: World, k: CallId, configured: bool, news: seq<Challenge>, failed: bool, id: OrderId)
    ensures var w' := ApplyCheck(w, k, configured, news, failed); w' == w || KindStep(w, w', k, id)
  {
  }

  lemma SaveKind(w: World, k: CallId, fault: Fault, id: OrderId)
    ensures var w' := ApplySave(false, w, k, fault); w' == w || KindStep(w, w', k, id)
  {
  }

  lemma FailKind(w: World, k: CallId, now: Time, fault: Fault, id: OrderId)
    ensures var w' := ApplyFail(w, k, now, fault); w' == w || KindStep(w, w', k, id)
  {
  }

  lemma ClaimKind(w: World, k: CallId, fault: Fault, id: OrderId)
    requires CallsFit(w)
    ensures var w' := ApplyClaim(w, k, fault); w' == w || KindStep(w, w', k, id)
  {
  }

  lemma QuietKind(w: World, k: CallId, ok: bool, answer: Option<IssuedCert>, id: OrderId)
    ensures var w' := ApplyReload(w, k, ok); w' == w || KindStep(w, w', k, id)
    ensures var w' := ApplySign(w, k, ok); w' == w || KindStep(w, w', k, id)
    ensures var w' := ApplySubmit(w, k, answer); w' == w || KindStep(w, w', k, id)
  {
  }

  lemma StoreKind(w: World, k: CallId, newCert: CertId, fault: Fault, id: OrderId)
    ensures var w' := ApplyStore(w, k, newCert, fault); w' == w || KindStep(w, w', k, id)
  {
  }

  lemma CompleteKind(w: World, k: CallId, now: Time, fault: Fault, id: OrderId)
    ensures var w' := ApplyComplete(w, k, now, fault); w' == w || KindStep(w, w', k, id)
  {
  }

  lemma CallKind(w: World, a: Action, id: OrderId)
    requires CallsFit(w) && OfACall(a)
    ensures var w' := Apply(false, w, a); w' == w || KindStep(w, w', a.call, id)
  {
    match a
    case Begin(k, on, found) => BeginKind(w, k, on, found, id);
    case Check(k, configured, news, failed) => CheckKind(w, k, configured, news, failed, id);
    case Save(k, fault) => SaveKind(w, k, fault, id);
    case Fail(k, now, fault) => FailKind(w, k, now, fault, id);
    case TryClaim(k, fault) => ClaimKind(w, k, fault, id);
    case Reload(k, found) => QuietKind(w, k, found, None, id);
    case Sign(k, ok) => QuietKind(w, k, ok, None, id);
    case Submit(k, answer) => QuietKind(w, k, true, answer, id);
    case Store(k, newCert, fault) => StoreKind(w, k, newCert, fault, id);
    case Complete(k, now, fault) => CompleteKind(w, k, now, fault, id);
    case Crash(k) =>
  }

  lemma KindStays(w: World, w': World, k: CallId, id: OrderId)
    requires KindStep(w, w', k, id) && IsEither(w, id)
    ensures IsEither(w', id) && (IsRenewal(w, id) ==> w'.orders[id].certificateId == w.orders[id].certificateId)
  {
    if IsRenewal(w, id) {
      forall j | OnOrder(w', j, id) ensures w'.calls[j].o.certificateId == w'.orders[id].certificateId {
        if j != k { assert OnOrder(w, j, id); }
      }
    } else {
      forall j | OnOrder(w', j, id) ensures KnowsCertificate(w'.calls[j].pc) || w'.calls[j].o.certificateId.None? {
        if j != k { assert OnOrder(w, j, id); }
      }
    }
  }

  lemma SortedStep(w: World, a: Action)
    requires CallsFit(w) && Sorted(w)
    ensures Sorted(Apply(false, w, a))
  {
    var w' := Apply(false, w, a);
    forall id | id in w'.orders ensures IsEither(w', id) {
      if OfACall(a) {
        CallActionMoves(false, w, a, id);
        CallKind(w, a, id);
        if w' != w { KindStays(w, w', a.call, id); }
      } else if id in w.orders {
        assert IsEither(w, id) && w'.calls == w.calls && w'.orders[id] == w.orders[id];
      } else {
        assert forall k :: !OnOrder(w', k, id);
      }
    }
  }

  // -------------------------------------------------------------- named or not

  predicate Named(w: World, c: CertId) {
    exists id :: id in w.orders && w.orders[id].certificateId == Some(c)
  }

  // A call has stored the certificate and is about to write it into its order.
  predicate Carried(w: World, k: CallId, c: CertId) {
    k in w.calls && w.calls[k].pc.Completing? && w.calls[k].o.certificateId == Some(c)
  }

  ghost predicate Orphaned(w: World, c: CertId) {
    c in w.certs && !Named(w, c) && forall k :: !Carried(w, k, c)
  }

  predicate NoNewRenewal(actions: seq<Action>, c: CertId) {
    forall a :: a in actions ==> !(a.CreateRenewal? && a.cert == c)
  }

  // A call about an unnamed certificate can only be one that carries it.
  lemma OnlyCarriersKnow(w: World, k: CallId, c: CertId)
    requires CallsFit(w) && Sorted(w) && !Named(w, c) && k in w.calls && w.calls[k].o.certificateId == Some(c)
    ensures w.calls[k].pc.Completing? || w.calls[k].pc.Returned?
  {
    var id := w.calls[k].orderId;
    assert Fits(w.orders, w.calls[k]) && IsEither(w, id) && OnOrder(w, k, id);
  }

  // What a step of call k can make of the orders and of itself, about certificate c.
  ghost predicate AddsNoName(w: World, w': World, k: CallId, c: CertId) {
    && k in w'.calls && w'.calls == w.calls[k := w'.calls[k]]
    && (forall id :: id in w'.orders ==>
          || (id in w.orders && w'.orders[id].certificateId == w.orders[id].certificateId)
          || w'.orders[id].certificateId != Some(c))
    && !Carried(w', k, c)
  }

  // Whatever call k still does, it does not do it for certificate c.
  ghost predicate IsAboutOthers(w: World, k: CallId, c: CertId) {
    k in w.calls && !w.calls[k].pc.Returned? ==> w.calls[k].o.certificateId != Some(c)
  }

  lemma OrphansHaveNoCall(w: World, k: CallId, c: CertId)
    requires CallsFit(w) && Sorted(w) && Orphaned(w, c)
    ensures IsAboutOthers(w, k, c)
  {
    if k in w.calls && w.calls[k].o.certificateId == Some(c) {
      OnlyCarriersKnow(w, k, c);
      assert !Carried(w, k, c);
    }
  }

  lemma SaveAddsNoName(w: World, k: CallId, fault: Fault, c: CertId)
    requires IsAboutOthers(w, k, c)
    ensures var w' := ApplySave(false, w, k, fault); w' == w || AddsNoName(w, w', k, c)
  {
  }

  lemma ClaimAddsNoName(w: World, k: CallId, fault: Fault, c: CertId)
    requires IsAboutOthers(w, k, c)
    ensures var w' := ApplyClaim(w, k, fault); w' == w || AddsNoName(w, w', k, c)
  {
  }

  lemma WriteAddsNoName(w: World, k: CallId, o: Order, fault: Fault, c: CertId)
    requires k in w.calls && o.certificateId != Some(c)
    ensures AddsNoName(w, WriteAndReturn(w, k, o, fault), k, c)
  {
  }

  lemma FailAddsNoName(w: World, k: CallId, now: Time, fault: Fault, c: CertId)
    requires IsAboutOthers(w, k, c)
    ensures var w' := ApplyFail(w, k, now, fault); w' == w || AddsNoName(w, w', k, c)
  {
    if k in w.calls && w.calls[k].pc.Failing? {
      var x := w.calls[k];
      WriteAddsNoName(w, k, x.o.(status := Failed, error := x.pc.reason, completedAt := Some(now)), fault, c);
    }
  }

  lemma CompleteAddsNoName(w: World, k: CallId, now: Time, fault: Fault, c: CertId)
    requires IsAboutOthers(w, k, c)
    ensures var w' := ApplyComplete(w, k, now, fault); w' == w || AddsNoName(w, w', k, c)
  {
    if k in w.calls && w.calls[k].pc.Completing? {
      WriteAddsNoName(w, k, w.calls[k].o.(status := Issued, completedAt := Some(now)), fault, c);
    }
  }

  lemma RowWriteAddsNoName(w: World, a: Action, c: CertId)
    requires CallsFit(w) && Sorted(w) && Orphaned(w, c)
    requires a.Save? || a.Fail? || a.TryClaim? || a.Complete?
    ensures var w' := Apply(false, w, a); w' == w || AddsNoName(w, w', a.call, c)
  {
    OrphansHaveNoCall(w, a.call, c);
    match a
    case Save(k, fault) => SaveAddsNoName(w, k, fault, c);
    case Fail(k, now, fault) => FailAddsNoName(w, k, now, fault, c);
    case TryClaim(k, fault) => ClaimAddsNoName(w, k, fault, c);
    case Complete(k, now, fault) => CompleteAddsNoName(w, k, now, fault, c);
  }

  lemma StoreAddsNoName(w: World, k: CallId, newCert: CertId, fault: Fault, c: CertId)
    requires CallsFit(w) && Sorted(w) && Orphaned(w, c)
    ensures var w' := ApplyStore(w, k, newCert, fault); w' == w || AddsNoName(w, w', k, c)
  {
    if k in w.calls && w.calls[k].o.certificateId == Some(c) {
      OnlyCarriersKnow(w, k, c);
    }
  }

  lemma OtherCallAddsNoName(w: World, a: Action, c: CertId)
    requires OfACall(a) && Orphaned(w, c)
    requires !(a.Save? || a.Fail? || a.TryClaim? || a.Complete? || a.Store?)
    ensures var w' := Apply(false, w, a); w' == w || AddsNoName(w, w', a.call, c)
  {
    match a
    case Begin(k, on, found) => assert Apply(false, w, a) == ApplyBegin(w, k, on, found);
    case Check(k, configured, news, failed) => assert Apply(false, w, a) == ApplyCheck(w, k, configured, news, failed);
    case Reload(k, found) => assert Apply(false, w, a) == ApplyReload(w, k, found);
    case Sign(k, ok) => assert Apply(false, w, a) == ApplySign(w, k, ok);
    case Submit(k, answer) => assert Apply(false, w, a) == ApplySubmit(w, k, answer);
    case Crash(k) =>
  }

  lemma CertsStay(w: World, a: Action, c: CertId)
    requires c in w.certs
    ensures c in Apply(false, w, a).certs
  {
    if a.Store? { assert c in ApplyStore(w, a.call, a.newCert, a.fault).certs; }
  }

  lemma OrphanedStep(w: World, a: Action, c: CertId)
    requires CallsFit(w) && Sorted(w) && Orphaned(w, c) && !(a.CreateRenewal? && a.cert == c)
    ensures Orphaned(Apply(false, w, a), c)
  {
    var w' := Apply(false, w, a);
    CertsStay(w, a, c);
    if OfACall(a) {
      if a.Store? {
        StoreAddsNoName(w, a.call, a.newCert, a.fault, c);
      } else if a.Save? || a.Fail? || a.TryClaim? || a.Complete? {
        RowWriteAddsNoName(w, a, c);
      } else {
        OtherCallAddsNoName(w, a, c);
      }
      if w' != w { NoNameNoOwner(w, w', a.call, c); }
    } else {
      assert w'.calls == w.calls;
      assert forall k :: Carried(w', k, c) ==> Carried(w, k, c);
    }
  }

  lemma NoNameNoOwner(w: World, w': World, k: CallId, c: CertId)
    requires Orphaned(w, c) && AddsNoName(w, w', k, c) && c in w'.certs
    ensures Orphaned(w', c)
  {
    forall j ensures !Carried(w', j, c) {
      if j != k { assert !Carried(w, j, c); }
    }
  }

  lemma {:induction false} OrphanedForever(w: World, actions: seq<Action>, c: CertId)
    requires CallsFit(w) && Sorted(w) && Orphaned(w, c) && NoNewRenewal(actions, c)
    ensures Orphaned(Run(false, w, actions), c)
    decreases |actions|
  {
    if actions == [] {
    } else {
      assert actions[0] in actions;
      OrphanedStep(w, actions[0], c);
      SortedStep(w, actions[0]);
      FitStep(false, w, actions[0]);
      OrphanedForever(Apply(false, w, actions[0]), actions[1..], c);
    }
  }

  lemma {:induction false} SortedRun(w: World, actions: seq<Action>)
    requires CallsFit(w) && Sorted(w)
    ensures CallsFit(Run(false, w, actions)) && Sorted(Run(false, w, actions))
    decreases |actions|
  {
    if actions == [] {
    } else {
      SortedStep(w, actions[0]);
      FitStep(false, w, actions[0]);
      SortedRun(Apply(false, w, actions[0]), actions[1..]);
    }
  }

  ghost predicate CanBeNamed(w: World, c: CertId) {
    exists next :: NoNewRenewal(next, c) && Named(Run(false, w, next), c)
  }

  lemma CarrierNames(w: World, k: CallId, c: CertId)
    requires CallsFit(w) && Carried(w, k, c)
    ensures Named(Run(false, w, [Complete(k, 0, Done)]), c)
  {
    var id := w.calls[k].orderId;
    RunOne(false, w, Complete(k, 0, Done));
    assert Fits(w.orders, w.calls[k]);
    assert ApplyComplete(w, k, 0, Done).orders[id].certificateId == Some(c);
  }

  /** In every reachable world: without a new renewal of it, an existing
      certificate is or can still come to be named by an order if and only if an
      order names it now or a call that has stored it has yet to complete. */
  lemma NamedIff(past: seq<Action>, c: CertId)
    requires c in Run(false, EMPTY_WORLD, past).certs
    ensures var w := Run(false, EMPTY_WORLD, past); CanBeNamed(w, c) <==> !Orphaned(w, c)
  {
    SortedRun(EMPTY_WORLD, past);
    var w := Run(false, EMPTY_WORLD, past);
    if Orphaned(w, c) {
      forall next | NoNewRenewal(next, c) ensures !Named(Run(false, w, next), c) {
        OrphanedForever(w, next, c);
      }
    } else if Named(w, c) {
      assert Named(Run(false, w, []), c);
    } else {
      var k :| Carried(w, k, c);
      CarrierNames(w, k, c);
      assert NoNewRenewal([Complete(k, 0, Done)], c);
    }
  }

  lemma StoredIsUnknown(w: World, k: CallId, c: CertId)
    requires CertificateIntegrity.RowsSound(w) && k in w.calls && c !in w.certs
    requires w.calls[k].pc.Storing? && w.calls[k].o.certificateId.None?
    ensures var w' := ApplyStore(w, k, c, LostReply); Orphaned(w', c) && w'.certs[c].status == Active
  {
    var w' := ApplyStore(w, k, c, LostReply);
    forall j ensures !Carried(w', j, c) {
      if j in w.calls { assert CertificateIntegrity.CallSound(w, w.calls[j]); }
    }
    forall id | id in w'.orders ensures w'.orders[id].certificateId != Some(c) {
      assert CertificateIntegrity.OrderSound(w, w.orders[id]);
    }
  }

  /** A finalizer that commits a new certificate and loses its reply orphans it:
      the certificate is active and no order ever names it. */
  lemma LostReplyOrphans(past: seq<Action>, k: CallId, c: CertId, next: seq<Action>)
    requires var w := Run(false, EMPTY_WORLD, past);
             && k in w.calls && w.calls[k].pc.Storing? && w.calls[k].o.certificateId.None? && c !in w.certs
    requires NoNewRenewal(next, c)
    ensures var w' := Apply(false, Run(false, EMPTY_WORLD, past), Store(k, c, LostReply));
            c in w'.certs && w'.certs[c].status == Active && !Named(Run(false, w', next), c)
  {
    var w := Run(false, EMPTY_WORLD, past);
    SortedRun(EMPTY_WORLD, past);
    CertificateIntegrity.SoundRun(false, EMPTY_WORLD, past);
    StoredIsUnknown(w, k, c);
    SortedStep(w, Store(k, c, LostReply));
    FitStep(false, w, Store(k, c, LostReply));
    OrphanedForever(Apply(false, w, Store(k, c, LostReply)), next, c);
  }
}
