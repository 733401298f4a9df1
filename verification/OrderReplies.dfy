// What the callers of Validate are told, in every interleaving.
module OrderReplies {
  import opened Prelude
  import opened OrderProtocol
  import OrderSafety
  import CertificateIntegrity

  // Call k has answered with the order o.
  predicate Answered(w: World, k: CallId, o: Order) {
    k in w.calls && w.calls[k].pc == Returned(Ok(o))
  }

  // A step that ends a call leaves the row that the call answers with.
  ghost predicate AnswersTheRow(w: World, w': World, k: CallId)
    requires k in w'.calls
  {
    forall o :: Answered(w', k, o) && !Answered(w, k, o) ==>
      w'.calls[k].orderId in w'.orders && w'.orders[w'.calls[k].orderId] == o
  }

  lemma BeginAnswers(w: World, k: CallId, id: OrderId, found: bool)
    ensures var w' := ApplyBegin(w, k, id, found); k in w'.calls ==> AnswersTheRow(w, w', k)
  {
  }

  lemma WriteAnswers(w: World, k: CallId, o: Order, fault: Fault)
    requires k in w.calls && w.calls[k].orderId in w.orders
    ensures AnswersTheRow(w, WriteAndReturn(w, k, o, fault), k)
  {
  }

  lemma SaveAnswers(w: World, k: CallId, fault: Fault)
    requires OrderSafety.CallsFit(w) && k in w.calls
    ensures var w' := ApplySave(false, w, k, fault); k in w'.calls && AnswersTheRow(w, w', k)
  {
    assert OrderSafety.Fits(w.orders, w.calls[k]);
  }

  lemma LastStepAnswers(w: World, k: CallId, now: Time, fault: Fault)
    requires OrderSafety.CallsFit(w) && k in w.calls
    ensures var w' := ApplyFail(w, k, now, fault); k in w'.calls && AnswersTheRow(w, w', k)
    ensures var w' := ApplyComplete(w, k, now, fault); k in w'.calls && AnswersTheRow(w, w', k)
  {
    var c := w.calls[k];
    assert OrderSafety.Fits(w.orders, c);
    if c.pc.Failing? {
      WriteAnswers(w, k, c.o.(status := Failed, error := c.pc.reason, completedAt := Some(now)), fault);
    } else if c.pc.Completing? {
      WriteAnswers(w, k, c.o.(status := Issued, completedAt := Some(now)), fault);
    }
  }

  lemma SilentSteps(w: World, k: CallId, configured: bool, news: seq<Challenge>, ok: bool, fault: Fault,
                    answer: Option<IssuedCert>, newCert: CertId)
    requires k in w.calls
    ensures AnswersTheRow(w, ApplyCheck(w, k, configured, news, ok), k)
    ensures AnswersTheRow(w, ApplyClaim(w, k, fault), k)
    ensures AnswersTheRow(w, ApplySign(w, k, ok), k)
    ensures AnswersTheRow(w, ApplySubmit(w, k, answer), k)
    ensures AnswersTheRow(w, ApplyStore(w, k, newCert, fault), k)
  {
  }

  lemma ReloadAnswers(w: World, k: CallId, found: bool)
    requires k in w.calls
    ensures AnswersTheRow(w, ApplyReload(w, k, found), k)
  {
  }

  /** In every interleaving an order that a call answers with is the row at that
      moment, whatever step the call ends with. */
  lemma ReplyIsTheRow(past: seq<Action>, a: Action, o: Order)
    requires OrderSafety.OfACall(a)
    requires var w := Run(false, EMPTY_WORLD, past); Answered(Apply(false, w, a), a.call, o) && !Answered(w, a.call, o)
    ensures var w' := Apply(false, Run(false, EMPTY_WORLD, past), a);
            w'.calls[a.call].orderId in w'.orders && w'.orders[w'.calls[a.call].orderId] == o
  {
    CertificateIntegrity.SoundRun(false, EMPTY_WORLD, past);
    AnswerStep(Run(false, EMPTY_WORLD, past), a);
  }

  lemma AnswerStep(w: World, a: Action)
    requires OrderSafety.CallsFit(w) && OrderSafety.OfACall(a)
    ensures var w' := Apply(false, w, a); a.call in w'.calls ==> AnswersTheRow(w, w', a.call)
  {
    var k := a.call;
    if a.Begin? {
      BeginAnswers(w, k, a.id, a.found);
    } else if k in w.calls {
      match a
      case Check(_, configured, news, failed) => SilentSteps(w, k, configured, news, failed, Done, None, 0);
      case Save(_, fault) => SaveAnswers(w, k, fault);
      case Fail(_, now, fault) => LastStepAnswers(w, k, now, fault);
      case Complete(_, now, fault) => LastStepAnswers(w, k, now, fault);
      case TryClaim(_, fault) => SilentSteps(w, k, true, [], true, fault, None, 0);
      case Reload(_, found) => ReloadAnswers(w, k, found);
      case Sign(_, ok) => SilentSteps(w, k, true, [], ok, Done, None, 0);
      case Submit(_, answer) => SilentSteps(w, k, true, [], true, Done, answer, 0);
      case Store(_, newCert, fault) => SilentSteps(w, k, true, [], true, fault, None, newCert);
      case Crash(_) =>
    }
  }

  /** So an answer that says issued names a certificate that exists and has a
      stored version. */
  lemma IssuedAnswerHasVersion(past: seq<Action>, a: Action, o: Order)
    requires OrderSafety.OfACall(a) && o.status == Issued
    requires var w := Run(false, EMPTY_WORLD, past); Answered(Apply(false, w, a), a.call, o) && !Answered(w, a.call, o)
    ensures var w' := Apply(false, Run(false, EMPTY_WORLD, past), a);
            && o.certificateId.Some? && o.certificateId.value in w'.certs
            && exists i :: CertificateIntegrity.IsVersionOf(w'.versions, i, o.certificateId.value)
  {
    ReplyIsTheRow(past, a, o);
    OrderSafety.RunAppend(false, EMPTY_WORLD, past, [a]);
    OrderSafety.RunOne(false, Run(false, EMPTY_WORLD, past), a);
    CertificateIntegrity.IssuedOrderHasVersion(past + [a], Run(false, EMPTY_WORLD, past + [a]).calls[a.call].orderId);
  }

  // Nothing but the order table changes, and there only the row of one order.
  ghost predicate OnlyRow(w: World, w': World, id: OrderId) {
    id in w'.orders && w' == w.(orders := w.orders[id := w'.orders[id]])
  }

  // A row that nobody has worked on.
  predicate IsNew(o: Order, po: seq<Challenge>, cert: Option<CertId>) {
    && o.status == AwaitingValidation && o.challenges == po && o.certificateId == cert
    && o.error == "" && o.attemptCount == 0 && o.completedAt == None
  }

  /** Orders and certificates come into being under new ids only, a renewal only
      of a certificate that exists, whatever its status. */
  lemma CreationAddsOneRow(guarded: bool, w: World, id: OrderId, cert: CertId, po: seq<Challenge>)
    ensures var w' := Apply(guarded, w, CreateOrder(id, po));
            if id in w.orders then w' == w else OnlyRow(w, w', id) && IsNew(w'.orders[id], po, None)
    ensures var w' := Apply(guarded, w, CreateRenewal(id, cert, po));
            if id in w.orders || cert !in w.certs then w' == w
            else OnlyRow(w, w', id) && IsNew(w'.orders[id], po, Some(cert))
  {
  }

  lemma RevocationIsAStatus(guarded: bool, w: World, c: CertId)
    ensures var w' := Apply(guarded, w, RevokeCert(c));
            if c !in w.certs then w' == w
            else
              && c in w'.certs && w' == w.(certs := w.certs[c := w'.certs[c]]) && w'.certs[c].status == Revoked
              && w'.certs[c].notBefore == w.certs[c].notBefore && w'.certs[c].notAfter == w.certs[c].notAfter
  {
  }

  lemma ImportAddsCertificateAndVersion(guarded: bool, w: World, c: CertId, status: CertStatus, v: IssuedCert,
                                        fault: Fault)
    ensures var w' := Apply(guarded, w, ImportCert(c, status, v, fault));
            if c in w.certs || fault.Rejected? then w' == w
            else
              && w'.certs == w.certs[c := Certificate(status, v.notBefore, v.notAfter)]
              && w'.versions == w.versions + [Version(c, v.fingerprint, v.notBefore)]
              && w'.orders == w.orders && w'.calls == w.calls
  {
  }

  /** A caller that loses the claim gets the winner's row and asks the CA for
      nothing. */
  lemma LoserAnswersTheWinnersRow(w: World, k: CallId)
    requires k in w.calls && w.calls[k].pc.Claiming? && w.calls[k].orderId in w.orders
    requires w.orders[w.calls[k].orderId].status != AwaitingValidation
    ensures var w' := Run(false, w, [TryClaim(k, Done), Reload(k, true)]);
            Answered(w', k, w.orders[w.calls[k].orderId]) && w' == w.(calls := w'.calls)
  {
    var w1 := Apply(false, w, TryClaim(k, Done));
    assert [TryClaim(k, Done), Reload(k, true)][1..] == [Reload(k, true)];
    OrderSafety.RunOne(false, w1, Reload(k, true));
  }
}
