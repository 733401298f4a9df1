// Validate as the service runs it: statement by statement, on rows that it
// changes in place. A call that nobody interrupts is one run of the protocol.
module OrderService {
  import opened Prelude
  import opened OrderProtocol
  import OrderSafety

  // Everything a call cannot know in advance: the answers of the CA, of the
  // key store and of the database.
  datatype Answers = Answers(
    configured: bool,
    news: seq<Challenge>,
    checkFailed: bool,
    saved: Fault,
    failed: Fault,
    claimed: Fault,
    reloaded: bool,
    signed: bool,
    issued: Option<IssuedCert>,
    newCert: CertId,
    stored: Fault,
    completed: Fault,
    now: Time)

  // The next action of a call that stands at pc.
  function Next(k: CallId, pc: Pc, x: Answers): Action
    requires !pc.Returned?
  {
    match pc
    case Checking => Check(k, x.configured, x.news, x.checkFailed)
    case Saving => Save(k, x.saved)
    case Failing(_) => Fail(k, x.now, x.failed)
    case Claiming => TryClaim(k, x.claimed)
    case Reloading => Reload(k, x.reloaded)
    case Signing => Sign(k, x.signed)
    case Submitting => Submit(k, x.issued)
    case Storing(_) => Store(k, x.newCert, x.stored)
    case Completing => Complete(k, x.now, x.completed)
  }

  function StepsLeft(pc: Pc): nat {
    match pc
    case Checking => 6
    case Claiming => 5
    case Signing => 4
    case Submitting => 3
    case Storing(_) => 2
    case Returned(_) => 0
    case _ => 1
  }

  ghost predicate Progress(w: World, w': World, k: CallId)
    requires k in w.calls
  {
    k in w'.calls && StepsLeft(w'.calls[k].pc) < StepsLeft(w.calls[k].pc)
  }

  lemma ProgressOfCheck(w: World, k: CallId, x: Answers)
    requires k in w.calls && w.calls[k].pc.Checking?
    ensures Progress(w, Apply(false, w, Next(k, w.calls[k].pc, x)), k)
  {
    assert Progress(w, ApplyCheck(w, k, x.configured, x.news, x.checkFailed), k);
  }

  lemma ProgressOfClaim(w: World, k: CallId, x: Answers)
    requires k in w.calls && w.calls[k].pc.Claiming?
    ensures Progress(w, Apply(false, w, Next(k, w.calls[k].pc, x)), k)
  {
    assert Progress(w, ApplyClaim(w, k, x.claimed), k);
  }

  lemma ProgressOfReload(w: World, k: CallId, x: Answers)
    requires k in w.calls && w.calls[k].pc.Reloading?
    ensures Progress(w, Apply(false, w, Next(k, w.calls[k].pc, x)), k)
  {
    assert Progress(w, ApplyReload(w, k, x.reloaded), k);
  }

  lemma ProgressOfSign(w: World, k: CallId, x: Answers)
    requires k in w.calls && w.calls[k].pc.Signing?
    ensures Progress(w, Apply(false, w, Next(k, w.calls[k].pc, x)), k)
  {
    assert Progress(w, ApplySign(w, k, x.signed), k);
  }

  lemma ProgressOfSubmit(w: World, k: CallId, x: Answers)
    requires k in w.calls && w.calls[k].pc.Submitting?
    ensures Progress(w, Apply(false, w, Next(k, w.calls[k].pc, x)), k)
  {
    assert Progress(w, ApplySubmit(w, k, x.issued), k);
  }

  lemma ProgressOfStore(w: World, k: CallId, x: Answers)
    requires k in w.calls && w.calls[k].pc.Storing?
    ensures Progress(w, Apply(false, w, Next(k, w.calls[k].pc, x)), k)
  {
    assert Progress(w, ApplyStore(w, k, x.newCert, x.stored), k);
  }

  lemma ProgressOfLastWrite(w: World, k: CallId, x: Answers)
    requires k in w.calls && (w.calls[k].pc.Saving? || w.calls[k].pc.Failing? || w.calls[k].pc.Completing?)
    ensures Progress(w, Apply(false, w, Next(k, w.calls[k].pc, x)), k)
  {
    match w.calls[k].pc
    case Saving => assert Progress(w, ApplySave(false, w, k, x.saved), k);
    case Failing(_) => assert Progress(w, ApplyFail(w, k, x.now, x.failed), k);
    case Completing => assert Progress(w, ApplyComplete(w, k, x.now, x.completed), k);
  }

  lemma NextMakesProgress(w: World, k: CallId, x: Answers)
    requires k in w.calls && !w.calls[k].pc.Returned?
    ensures Progress(w, Apply(false, w, Next(k, w.calls[k].pc, x)), k)
  {
    match w.calls[k].pc
    case Checking => ProgressOfCheck(w, k, x);
    case Claiming => ProgressOfClaim(w, k, x);
    case Reloading => ProgressOfReload(w, k, x);
    case Signing => ProgressOfSign(w, k, x);
    case Submitting => ProgressOfSubmit(w, k, x);
    case Storing(_) => ProgressOfStore(w, k, x);
    case _ => ProgressOfLastWrite(w, k, x);
  }

  // Call k runs alone to its end.
  function RunAlone(w: World, k: CallId, x: Answers): World
    decreases if k in w.calls then StepsLeft(w.calls[k].pc) else 0
  {
    if k !in w.calls || w.calls[k].pc.Returned? then w
    else
      NextMakesProgress(w, k, x);
      RunAlone(Apply(false, w, Next(k, w.calls[k].pc, x)), k, x)
  }

  /** Running alone is one of the runs, so what holds of all runs holds of it. */
  lemma {:induction false} RunAloneIsARun(w: World, k: CallId, x: Answers) returns (actions: seq<Action>)
    requires k in w.calls
    ensures RunAlone(w, k, x) == Run(false, w, actions)
    ensures |actions| <= StepsLeft(w.calls[k].pc)
    ensures forall a :: a in actions ==> OrderSafety.OfACall(a) && a.call == k
    ensures var w' := RunAlone(w, k, x); k in w'.calls && w'.calls[k].pc.Returned?
    decreases StepsLeft(w.calls[k].pc)
  {
    if w.calls[k].pc.Returned? {
      actions := [];
    } else {
      NextMakesProgress(w, k, x);
      var a := Next(k, w.calls[k].pc, x);
      var rest := RunAloneIsARun(Apply(false, w, a), k, x);
      actions := [a] + rest;
      OrderSafety.RunCons(false, w, a, rest);
    }
  }

  lemma AloneUnfolds(w: World, w': World, k: CallId, x: Answers)
    requires k in w.calls && !w.calls[k].pc.Returned? && w' == Apply(false, w, Next(k, w.calls[k].pc, x))
    ensures RunAlone(w, k, x) == RunAlone(w', k, x)
  {
  }

  lemma NextIsCheck(w: World, k: CallId, x: Answers)
    requires k in w.calls && w.calls[k].pc.Checking?
    ensures ApplyCheck(w, k, x.configured, x.news, x.checkFailed) == Apply(false, w, Next(k, w.calls[k].pc, x))
  {
  }

  function ValidateAlone(w: World, k: CallId, id: OrderId, found: bool, x: Answers): World {
    RunAlone(ApplyBegin(w, k, id, found), k, x)
  }

  // ------------------------------------------------- what a lone call achieves

  predicate CertificateFits(certs: map<CertId, Certificate>, o: Order, x: Answers) {
    if o.certificateId.Some? then o.certificateId.value in certs else x.newCert !in certs
  }

  predicate AllFine(o: Order, x: Answers) {
    forall c :: c in Recheck(o.challenges, x.news) ==> c.error == ""
  }

  // The check ends with every challenge verified.
  predicate ReachesClaim(o: Order, x: Answers) {
    x.configured && !x.checkFailed && AllFine(o, x) && AllVerified(Recheck(o.challenges, x.news))
  }

  // The CA issues and the tables have room for the certificate.
  predicate ReachesCommit(certs: map<CertId, Certificate>, o: Order, x: Answers) {
    x.signed && x.issued.Some? && CertificateFits(certs, o, x)
  }

  // The outcome a requester expects, told from the answers alone.
  function Verdict(certs: map<CertId, Certificate>, o: Order, x: Answers): Status {
    if ReachesClaim(o, x) then
      if ReachesCommit(certs, o, x) && x.stored.Acked() then Issued else Failed
    else if x.configured && (x.checkFailed || AllFine(o, x)) then AwaitingValidation
    else Failed
  }

  // Why an order fails.
  ghost predicate IsReason(o: Order, x: Answers, e: string) {
    if !x.configured then e == "ca_provider is no longer configured"
    else if !AllFine(o, x) then
      var po := Recheck(o.challenges, x.news);
      exists i :: 0 <= i < |po| && po[i].error == e != "" && forall j :: 0 <= j < i ==> po[j].error == ""
    else if !x.signed then e == "load signing key"
    else if x.issued.None? then e == "issue certificate"
    else e == if o.certificateId.Some? then "finalize renewed certificate" else "store certificate"
  }

  // Column by column, the row a call leaves that began with o.
  ghost predicate Decided(certs: map<CertId, Certificate>, o: Order, x: Answers, r: Order) {
    && r.status == Verdict(certs, o, x)
    && r.challenges == (if x.configured then Recheck(o.challenges, x.news) else o.challenges)
    && r.attemptCount == (if x.configured then o.attemptCount + 1 else o.attemptCount)
    && r.completedAt == (if r.status == AwaitingValidation then o.completedAt else Some(x.now))
    && (if r.status == Failed then IsReason(o, x, r.error) else r.error == o.error)
    && r.certificateId == (if r.status == Issued && o.certificateId.None? then Some(x.newCert) else o.certificateId)
  }

  // The row of a claimed order.
  predicate Claimed(o: Order, x: Answers, r: Order) {
    r == o.(status := Issuing, challenges := Recheck(o.challenges, x.news), attemptCount := o.attemptCount + 1)
  }

  // The statement whose acknowledgement the caller learns of last.
  function LastStatement(certs: map<CertId, Certificate>, o: Order, x: Answers): Fault {
    if ReachesClaim(o, x) && !x.claimed.Acked() then x.claimed
    else match Verdict(certs, o, x)
      case AwaitingValidation => x.saved
      case Issued => x.completed
      case _ => x.failed
  }

  // A transaction that has been committed, whether or not the caller knows.
  predicate Commits(certs: map<CertId, Certificate>, o: Order, x: Answers) {
    ReachesClaim(o, x) && x.claimed.Acked() && ReachesCommit(certs, o, x) && x.stored.Landed()
  }

  // The row of an order whose certificate is stored, and of one that fails.
  function IssuedRow(o: Order, x: Answers): Order {
    o.(status := Issued, certificateId := Some(Target(o, x)), completedAt := Some(x.now))
  }

  function FailedRow(o: Order, reason: string, x: Answers): Order {
    o.(status := Failed, error := reason, completedAt := Some(x.now))
  }

  function Target(o: Order, x: Answers): CertId {
    if o.certificateId.Some? then o.certificateId.value else x.newCert
  }

  // Call k ends with a statement that writes o over the row; `stored` tells
  // which certificate it has committed before.
  ghost predicate Ends(w: World, k: CallId, x: Answers, o: Order, last: Fault, stored: Option<CertId>)
    requires k in w.calls
  {
    var w', id := RunAlone(w, k, x), w.calls[k].orderId;
    && id in w.orders && k in w'.calls && w'.calls[k].pc.Returned?
    && w'.orders == (if last.Landed() then w.orders[id := o] else w.orders)
    && (if last.Acked() then w'.calls[k].pc.reply == Ok(o) else w'.calls[k].pc.reply.Err?)
    && (if stored.None? then w'.certs == w.certs && w'.versions == w.versions
        else x.issued.Some? && StoredAs(w.certs, w.versions, stored.value, x.issued.value, w'.certs, w'.versions))
  }

  // Certificate c is stored, with the version that the CA has issued.
  predicate StoredAs(certs: map<CertId, Certificate>, versions: seq<Version>, c: CertId, v: IssuedCert,
                     certs': map<CertId, Certificate>, versions': seq<Version>) {
    && certs' == certs[c := Certificate(Active, v.notBefore, v.notAfter)]
    && versions' == versions + [Version(c, v.fingerprint, v.notBefore)]
  }

  lemma FailingAlone(w: World, k: CallId, x: Answers)
    requires k in w.calls && w.calls[k].orderId in w.orders && w.calls[k].pc.Failing?
    ensures Ends(w, k, x, FailedRow(w.calls[k].o, w.calls[k].pc.reason, x), x.failed, None)
  {
    assert RunAlone(w, k, x) == ApplyFail(w, k, x.now, x.failed);
  }

  lemma CompletingAlone(w: World, k: CallId, x: Answers)
    requires k in w.calls && w.calls[k].orderId in w.orders && w.calls[k].pc.Completing?
    ensures Ends(w, k, x, w.calls[k].o.(status := Issued, completedAt := Some(x.now)), x.completed, None)
  {
    assert RunAlone(w, k, x) == ApplyComplete(w, k, x.now, x.completed);
  }

  lemma SavingAlone(w: World, k: CallId, x: Answers)
    requires k in w.calls && w.calls[k].orderId in w.orders && w.calls[k].pc.Saving?
    ensures Ends(w, k, x, w.calls[k].o, x.saved, None)
  {
    assert RunAlone(w, k, x) == ApplySave(false, w, k, x.saved);
  }

  // Why a claimed order fails.
  function LateReason(o: Order, x: Answers): string {
    if !x.signed then "load signing key"
    else if x.issued.None? then "issue certificate"
    else if o.certificateId.Some? then "finalize renewed certificate"
    else "store certificate"
  }

  // The end of a call that holds the claim.
  ghost predicate EndsClaimed(w: World, k: CallId, x: Answers)
    requires k in w.calls
  {
    var o := w.calls[k].o;
    var stored := if ReachesCommit(w.certs, o, x) && x.stored.Landed() then Some(Target(o, x)) else None;
    if ReachesCommit(w.certs, o, x) && x.stored.Acked() then Ends(w, k, x, IssuedRow(o, x), x.completed, stored)
    else Ends(w, k, x, FailedRow(o, LateReason(o, x), x), x.failed, stored)
  }

  lemma StoredAlone(w: World, k: CallId, x: Answers)
    requires k in w.calls && w.calls[k].orderId in w.orders
    requires x.issued.Some? && w.calls[k].pc == Storing(x.issued.value)
    requires ReachesCommit(w.certs, w.calls[k].o, x) && x.stored.Acked()
    ensures var w' := ApplyStore(w, k, x.newCert, x.stored);
            && k in w'.calls && w'.calls[k].orderId == w.calls[k].orderId && w'.orders == w.orders
            && Ends(w', k, x, IssuedRow(w.calls[k].o, x), x.completed, None)
            && StoredAs(w.certs, w.versions, Target(w.calls[k].o, x), x.issued.value, w'.certs, w'.versions)
  {
    CompletingAlone(ApplyStore(w, k, x.newCert, x.stored), k, x);
  }

  lemma NotStored(w: World, k: CallId, x: Answers)
    requires k in w.calls && w.calls[k].orderId in w.orders
    requires x.signed && x.issued.Some? && w.calls[k].pc == Storing(x.issued.value)
    requires !(ReachesCommit(w.certs, w.calls[k].o, x) && x.stored.Acked())
    ensures var w', o := ApplyStore(w, k, x.newCert, x.stored), w.calls[k].o;
            && k in w'.calls && w'.calls[k].orderId == w.calls[k].orderId && w'.orders == w.orders
            && Ends(w', k, x, FailedRow(o, LateReason(o, x), x), x.failed, None)
            && (if ReachesCommit(w.certs, o, x) && x.stored.Landed()
                then StoredAs(w.certs, w.versions, Target(o, x), x.issued.value, w'.certs, w'.versions)
                else w'.certs == w.certs && w'.versions == w.versions)
  {
    FailingAlone(ApplyStore(w, k, x.newCert, x.stored), k, x);
  }

  lemma StoringAlone(w: World, k: CallId, x: Answers)
    requires k in w.calls && w.calls[k].orderId in w.orders
    requires x.signed && x.issued.Some? && w.calls[k].pc == Storing(x.issued.value)
    ensures EndsClaimed(w, k, x)
  {
    AloneUnfolds(w, ApplyStore(w, k, x.newCert, x.stored), k, x);
    if ReachesCommit(w.certs, w.calls[k].o, x) && x.stored.Acked() {
      StoredAlone(w, k, x);
    } else {
      NotStored(w, k, x);
    }
  }

  lemma SubmittingAlone(w: World, k: CallId, x: Answers)
    requires k in w.calls && w.calls[k].orderId in w.orders && x.signed && w.calls[k].pc.Submitting?
    ensures EndsClaimed(w, k, x)
  {
    var w' := ApplySubmit(w, k, x.issued);
    AloneUnfolds(w, w', k, x);
    if x.issued.Some? { StoringAlone(w', k, x); } else { FailingAlone(w', k, x); }
  }

  lemma SigningAlone(w: World, k: CallId, x: Answers)
    requires k in w.calls && w.calls[k].orderId in w.orders && w.calls[k].pc.Signing?
    ensures EndsClaimed(w, k, x)
  {
    var w' := ApplySign(w, k, x.signed);
    AloneUnfolds(w, w', k, x);
    if x.signed { SubmittingAlone(w', k, x); } else { FailingAlone(w', k, x); }
  }

  // What a call that begins with o makes of the row and of its reply.
  ghost predicate RowAfter(certs: map<CertId, Certificate>, o: Order, x: Answers, r: Order) {
    var last := LastStatement(certs, o, x);
    if last.Landed() && (ReachesClaim(o, x) ==> x.claimed.Acked()) then Decided(certs, o, x, r)
    else if ReachesClaim(o, x) && x.claimed.Landed() then Claimed(o, x, r)
    else r == o
  }

  // All that a call leaves behind, told from the tables it found.
  ghost predicate Outcome(orders: map<OrderId, Order>, certs: map<CertId, Certificate>, versions: seq<Version>,
                          id: OrderId, x: Answers, w': World, reply: Result<Order, string>)
    requires id in orders
  {
    var o := orders[id];
    && id in w'.orders && w'.orders == orders[id := w'.orders[id]] && RowAfter(certs, o, x, w'.orders[id])
    && (reply.Ok? <==> LastStatement(certs, o, x).Acked())
    && (reply.Ok? ==> reply.value == w'.orders[id])
    && (if Commits(certs, o, x)
        then StoredAs(certs, versions, Target(o, x), x.issued.value, w'.certs, w'.versions)
        else w'.certs == certs && w'.versions == versions)
  }

  ghost predicate OutcomeAlone(w0: World, w: World, k: CallId, x: Answers)
    requires k in w.calls && w.calls[k].orderId in w0.orders
  {
    var w' := RunAlone(w, k, x);
    && k in w'.calls && w'.calls[k].pc.Returned?
    && Outcome(w0.orders, w0.certs, w0.versions, w.calls[k].orderId, x, w', w'.calls[k].pc.reply)
  }

  function CheckedRow(o: Order, x: Answers): Order {
    o.(challenges := Recheck(o.challenges, x.news), attemptCount := o.attemptCount + 1)
  }

  lemma SavedIsDecided(certs: map<CertId, Certificate>, o: Order, x: Answers)
    requires o.status == AwaitingValidation && x.configured && !ReachesClaim(o, x) && (x.checkFailed || AllFine(o, x))
    ensures Decided(certs, o, x, CheckedRow(o, x)) && LastStatement(certs, o, x) == x.saved
  {
  }

  lemma FailedIsDecided(certs: map<CertId, Certificate>, o: Order, x: Answers)
    requires !x.configured || (!x.checkFailed && !AllFine(o, x))
    ensures !ReachesClaim(o, x) && LastStatement(certs, o, x) == x.failed
    ensures !x.configured ==> Decided(certs, o, x, FailedRow(o, "ca_provider is no longer configured", x))
    ensures x.configured ==>
              Decided(certs, o, x, FailedRow(CheckedRow(o, x), FirstChallengeError(CheckedRow(o, x).challenges), x))
  {
  }

  lemma ClaimedIsDecided(certs: map<CertId, Certificate>, o: Order, x: Answers, c: Order)
    requires ReachesClaim(o, x) && Claimed(o, x, c)
    ensures ReachesCommit(certs, c, x) == ReachesCommit(certs, o, x) && Target(c, x) == Target(o, x)
    ensures if ReachesCommit(certs, o, x) && x.stored.Acked() then Decided(certs, o, x, IssuedRow(c, x))
            else Decided(certs, o, x, FailedRow(c, LateReason(c, x), x))
  {
  }

  // A call that makes no claim ends with one statement.
  lemma UnclaimedAlone(w0: World, w: World, k: CallId, x: Answers, o': Order, last: Fault)
    requires k in w.calls && w.calls[k].orderId in w0.orders && Ends(w, k, x, o', last, None)
    requires w.orders == w0.orders && w.certs == w0.certs && w.versions == w0.versions
    requires var o := w0.orders[w.calls[k].orderId];
             !ReachesClaim(o, x) && LastStatement(w0.certs, o, x) == last && Decided(w0.certs, o, x, o')
    ensures OutcomeAlone(w0, w, k, x)
  {
  }

  lemma ClaimedAlone(w0: World, w: World, k: CallId, x: Answers)
    requires k in w.calls && w.calls[k].orderId in w0.orders && w.calls[k].pc.Signing?
    requires var id := w.calls[k].orderId; var o := w0.orders[id];
             && ReachesClaim(o, x) && Claimed(o, x, w.calls[k].o)
             && w.orders == w0.orders[id := w.calls[k].o] && w.certs == w0.certs && w.versions == w0.versions
    requires x.claimed.Acked()
    ensures OutcomeAlone(w0, w, k, x)
  {
    ClaimedIsDecided(w0.certs, w0.orders[w.calls[k].orderId], x, w.calls[k].o);
    SigningAlone(w, k, x);
  }

  lemma ClaimingAlone(w: World, k: CallId, x: Answers)
    requires k in w.calls && w.calls[k].pc.Claiming?
    requires StatusIs(w.orders, w.calls[k].orderId, AwaitingValidation)
    requires var o := w.orders[w.calls[k].orderId]; ReachesClaim(o, x) && Claimed(o, x, w.calls[k].o)
    ensures OutcomeAlone(w, w, k, x)
  {
    var w' := ApplyClaim(w, k, x.claimed);
    AloneUnfolds(w, w', k, x);
    if x.claimed.Acked() { ClaimedAlone(w, w', k, x); }
  }

  lemma SavedAlone(w: World, w': World, k: CallId, x: Answers)
    requires k in w.calls && w.calls[k].pc.Checking? && StatusIs(w.orders, w.calls[k].orderId, AwaitingValidation)
    requires w.calls[k].o == w.orders[w.calls[k].orderId]
    requires w' == ApplyCheck(w, k, x.configured, x.news, x.checkFailed) && w'.calls[k].pc.Saving?
    ensures OutcomeAlone(w, w', k, x)
  {
    SavedIsDecided(w.certs, w.calls[k].o, x);
    SavingAlone(w', k, x);
    UnclaimedAlone(w, w', k, x, w'.calls[k].o, x.saved);
  }

  lemma RefusedAlone(w: World, w': World, k: CallId, x: Answers)
    requires k in w.calls && w.calls[k].pc.Checking? && StatusIs(w.orders, w.calls[k].orderId, AwaitingValidation)
    requires w.calls[k].o == w.orders[w.calls[k].orderId]
    requires w' == ApplyCheck(w, k, x.configured, x.news, x.checkFailed) && w'.calls[k].pc.Failing?
    ensures OutcomeAlone(w, w', k, x)
  {
    FailedIsDecided(w.certs, w.calls[k].o, x);
    FailingAlone(w', k, x);
    UnclaimedAlone(w, w', k, x, FailedRow(w'.calls[k].o, w'.calls[k].pc.reason, x), x.failed);
  }

  lemma CheckingAlone(w: World, k: CallId, x: Answers)
    requires k in w.calls && w.calls[k].pc.Checking?
    requires StatusIs(w.orders, w.calls[k].orderId, AwaitingValidation)
    requires w.calls[k].o == w.orders[w.calls[k].orderId]
    ensures OutcomeAlone(w, w, k, x)
  {
    var w' := ApplyCheck(w, k, x.configured, x.news, x.checkFailed);
    NextIsCheck(w, k, x);
    AloneUnfolds(w, w', k, x);
    match w'.calls[k].pc
    case Claiming => ClaimingAlone(w', k, x);
    case Saving => SavedAlone(w, w', k, x);
    case Failing(_) => RefusedAlone(w, w', k, x);
  }

  /** A call nobody interrupts, told from the tables it finds and the answers it
      gets: the row column by column, the certificate it stores, and a reply
      that is the row as it is now, or an error if and only if the last
      statement was not acknowledged. */
  lemma LoneValidateAnswers(w: World, k: CallId, id: OrderId, x: Answers)
    requires k !in w.calls && StatusIs(w.orders, id, AwaitingValidation)
    ensures var w' := ValidateAlone(w, k, id, true, x);
            && k in w'.calls && w'.calls[k].pc.Returned?
            && Outcome(w.orders, w.certs, w.versions, id, x, w', w'.calls[k].pc.reply)
  {
    CheckingAlone(ApplyBegin(w, k, id, true), k, x);
  }

  predicate NoFaults(x: Answers) {
    x.saved.Done? && x.failed.Done? && x.claimed.Done? && x.stored.Done? && x.completed.Done?
  }

  /** On a database that answers it always decides: the order ends up issued,
      failed or open for another try, never issuing. */
  lemma LoneValidateDecides(w: World, k: CallId, id: OrderId, x: Answers)
    requires NoFaults(x) && k !in w.calls && StatusIs(w.orders, id, AwaitingValidation)
    ensures var w' := ValidateAlone(w, k, id, true, x);
            id in w'.orders && w'.orders[id].status == Verdict(w.certs, w.orders[id], x)
  {
    LoneValidateAnswers(w, k, id, x);
  }

  // How far a finalizing transaction gets.
  datatype TxEnd = AtBegin | AtCertificate | AtVersion | AtCommit(fate: Fault) {
    function ToFault(): Fault { if AtCommit? then fate else Rejected }
  }

  class Service {
    var orders: map<OrderId, Order>
    var certs: map<CertId, Certificate>
    var versions: seq<Version>
    ghost var world: World

    ghost predicate Valid()
      reads this
    {
      world.orders == orders && world.certs == certs && world.versions == versions
    }

    constructor ()
      ensures Valid() && world == EMPTY_WORLD
    {
      orders, certs, versions, world := map[], map[], [], EMPTY_WORLD;
    }

    method Update(id: OrderId, o: Order, fault: Fault) returns (ok: bool)
      modifies `orders
      ensures orders == if fault.Landed() then UpdateRow(old(orders), id, o) else old(orders)
      ensures ok == fault.Acked()
    {
      if fault.Landed() && id in orders {
        orders := orders[id := o];
      }
      ok := fault.Acked();
    }

    method UpdateIfStatus(id: OrderId, o: Order, expected: Status, fault: Fault) returns (ok: bool, claimed: bool)
      modifies `orders
      ensures orders == if fault.Landed() && StatusIs(old(orders), id, expected) then old(orders)[id := o]
              else old(orders)
      ensures ok == fault.Acked()
      ensures claimed <==> ok && StatusIs(old(orders), id, expected)
    {
      var matches := id in orders && orders[id].status == expected;
      if fault.Landed() && matches {
        orders := orders[id := o];
      }
      ok := fault.Acked();
      claimed := ok && matches;
    }

    /** Certificate row first, version row second, one commit: what a caller
        can observe is both rows or neither. */
    method Finalize(target: CertId, renewal: bool, v: IssuedCert, end: TxEnd) returns (ok: bool)
      modifies `certs, `versions
      ensures var possible := if renewal then target in old(certs) else target !in old(certs);
              && ok == (possible && end.ToFault().Acked())
              && (possible && end.ToFault().Landed() ==>
                    && certs == old(certs)[target := Certificate(Active, v.notBefore, v.notAfter)]
                    && versions == old(versions) + [Version(target, v.fingerprint, v.notBefore)])
              && (!(possible && end.ToFault().Landed()) ==> certs == old(certs) && versions == old(versions))
    {
      ok := false;
      if end.AtBegin? { return; }
      var txCerts, txVersions := certs, versions;
      if end.AtCertificate? || (!renewal && target in txCerts) { return; }
      if !renewal || target in txCerts {
        txCerts := txCerts[target := Certificate(Active, v.notBefore, v.notAfter)];
      }
      if end.AtVersion? || target !in txCerts { return; }
      txVersions := txVersions + [Version(target, v.fingerprint, v.notBefore)];
      if end.fate.Landed() {
        certs, versions := txCerts, txVersions;
      }
      ok := end.fate.Acked();
    }

    method FailOrder(ghost k: CallId, id: OrderId, o: Order, reason: string, x: Answers)
      returns (reply: Result<Order, string>)
      requires Valid() && k in world.calls && world.calls[k] == Call(id, o, Failing(reason))
      modifies this
      ensures Valid() && world == RunAlone(old(world), k, x)
      ensures k in world.calls && world.calls[k].pc == Returned(reply)
      ensures reply.Ok? <==> x.failed.Acked()
      ensures reply.Ok? ==> reply.value == FailedRow(o, reason, x) && (id in orders ==> orders[id] == reply.value)
      ensures certs == old(certs) && versions == old(versions)
    {
      var failed := o.(status := Failed, error := reason, completedAt := Some(x.now));
      var ok := Update(id, failed, x.failed);
      reply := if ok then Ok(failed) else Err("order: update");
      world := ApplyFail(world, k, x.now, x.failed);
    }

    method SaveOrder(ghost k: CallId, id: OrderId, o: Order, x: Answers) returns (reply: Result<Order, string>)
      requires Valid() && k in world.calls && world.calls[k] == Call(id, o, Saving)
      modifies this
      ensures Valid() && world == RunAlone(old(world), k, x)
      ensures k in world.calls && world.calls[k].pc == Returned(reply)
      ensures reply.Ok? <==> x.saved.Acked()
      ensures reply.Ok? ==> reply.value == o && (id in orders ==> orders[id] == o)
    {
      var ok := Update(id, o, x.saved);
      reply := if ok then Ok(o) else Err("order: update");
      world := ApplySave(false, world, k, x.saved);
    }

    method CompleteOrder(ghost k: CallId, id: OrderId, o: Order, x: Answers) returns (reply: Result<Order, string>)
      requires Valid() && k in world.calls && world.calls[k] == Call(id, o, Completing)
      modifies this
      ensures Valid() && world == RunAlone(old(world), k, x)
      ensures k in world.calls && world.calls[k].pc == Returned(reply)
      ensures reply.Ok? <==> x.completed.Acked()
      ensures reply.Ok? ==> reply.value == o.(status := Issued, completedAt := Some(x.now))
      ensures reply.Ok? && id in orders ==> orders[id] == reply.value
      ensures certs == old(certs) && versions == old(versions)
    {
      var issued := o.(status := Issued, completedAt := Some(x.now));
      var ok := Update(id, issued, x.completed);
      reply := if ok then Ok(issued) else Err("order: update");
      world := ApplyComplete(world, k, x.now, x.completed);
    }

    method StoreCertificate(ghost k: CallId, id: OrderId, o: Order, v: IssuedCert, x: Answers, end: TxEnd)
      returns (reply: Result<Order, string>)
      requires Valid() && k in world.calls && world.calls[k] == Call(id, o, Storing(v))
      requires end.ToFault() == x.stored
      modifies this
      ensures Valid() && world == RunAlone(old(world), k, x)
      ensures k in world.calls && world.calls[k].pc == Returned(reply)
      ensures var stored := CertificateFits(old(certs), o, x) && x.stored.Acked();
              && (reply.Ok? <==> if stored then x.completed.Acked() else x.failed.Acked())
              && (reply.Ok? ==> reply.value.status == if stored then Issued else Failed)
              && (stored ==> StoredAs(old(certs), old(versions), Target(o, x), v, certs, versions))
      ensures reply.Ok? ==> reply.value.completedAt == Some(x.now) && (id in orders ==> orders[id] == reply.value)
      ensures reply.Ok? && reply.value.status == Issued ==> reply.value.certificateId == Some(Target(o, x))
    {
      var renewal := o.certificateId.Some?;
      var target := if renewal then o.certificateId.value else x.newCert;
      var stored := Finalize(target, renewal, v, end);
      AloneUnfolds(world, ApplyStore(world, k, x.newCert, x.stored), k, x);
      world := ApplyStore(world, k, x.newCert, x.stored);
      if stored {
        reply := CompleteOrder(k, id, o.(certificateId := Some(target)), x);
      } else {
        reply := FailOrder(k, id, o, if renewal then "finalize renewed certificate" else "store certificate", x);
      }
    }

    method SubmitCsr(ghost k: CallId, id: OrderId, o: Order, x: Answers, end: TxEnd)
      returns (reply: Result<Order, string>)
      requires Valid() && k in world.calls && world.calls[k] == Call(id, o, Submitting)
      requires end.ToFault() == x.stored
      modifies this
      ensures Valid() && world == RunAlone(old(world), k, x)
      ensures k in world.calls && world.calls[k].pc == Returned(reply)
    {
      AloneUnfolds(world, ApplySubmit(world, k, x.issued), k, x);
      world := ApplySubmit(world, k, x.issued);
      if x.issued.None? {
        reply := FailOrder(k, id, o, "issue certificate", x);
      } else {
        reply := StoreCertificate(k, id, o, x.issued.value, x, end);
      }
    }

    method IssueClaimed(ghost k: CallId, id: OrderId, o: Order, x: Answers, end: TxEnd)
      returns (reply: Result<Order, string>)
      requires Valid() && k in world.calls && world.calls[k] == Call(id, o, Signing)
      requires end.ToFault() == x.stored
      modifies this
      ensures Valid() && world == RunAlone(old(world), k, x)
      ensures k in world.calls && world.calls[k].pc == Returned(reply)
    {
      AloneUnfolds(world, ApplySign(world, k, x.signed), k, x);
      world := ApplySign(world, k, x.signed);
      if !x.signed {
        reply := FailOrder(k, id, o, "load signing key", x);
      } else {
        reply := SubmitCsr(k, id, o, x, end);
      }
    }

    method ReloadOrder(ghost k: CallId, id: OrderId, x: Answers) returns (reply: Result<Order, string>)
      requires Valid() && k in world.calls && world.calls[k].orderId == id && world.calls[k].pc.Reloading?
      modifies `world
      ensures Valid() && world == RunAlone(old(world), k, x)
      ensures k in world.calls && world.calls[k].pc == Returned(reply)
    {
      reply := if x.reloaded && id in orders then Ok(orders[id]) else Err("order: get");
      world := ApplyReload(world, k, x.reloaded);
    }

    method ClaimOrder(ghost k: CallId, id: OrderId, o: Order, x: Answers, end: TxEnd)
      returns (reply: Result<Order, string>)
      requires Valid() && k in world.calls && world.calls[k] == Call(id, o, Claiming)
      requires end.ToFault() == x.stored
      modifies this
      ensures Valid() && world == RunAlone(old(world), k, x)
      ensures k in world.calls && world.calls[k].pc == Returned(reply)
    {
      var ok, claimed := UpdateIfStatus(id, o, AwaitingValidation, x.claimed);
      AloneUnfolds(world, ApplyClaim(world, k, x.claimed), k, x);
      world := ApplyClaim(world, k, x.claimed);
      if !ok {
        reply := Err("order: update if status");
      } else if claimed {
        reply := IssueClaimed(k, id, o, x, end);
      } else {
        reply := ReloadOrder(k, id, x);
      }
    }

    method CheckOrder(ghost k: CallId, id: OrderId, o: Order, x: Answers, end: TxEnd)
      returns (reply: Result<Order, string>)
      requires Valid() && k in world.calls && world.calls[k] == Call(id, o, Checking)
      requires end.ToFault() == x.stored
      modifies this
      ensures Valid() && world == RunAlone(old(world), k, x)
      ensures k in world.calls && world.calls[k].pc == Returned(reply)
    {
      NextIsCheck(world, k, x);
      AloneUnfolds(world, ApplyCheck(world, k, x.configured, x.news, x.checkFailed), k, x);
      world := ApplyCheck(world, k, x.configured, x.news, x.checkFailed);
      if !x.configured {
        reply := FailOrder(k, id, o, "ca_provider is no longer configured", x);
        return;
      }
      var po := Recheck(o.challenges, x.news);
      var checked := o.(challenges := po, attemptCount := o.attemptCount + 1);
      if x.checkFailed {
        reply := SaveOrder(k, id, checked, x);
      } else if FirstChallengeError(po) != "" {
        reply := FailOrder(k, id, checked, FirstChallengeError(po), x);
      } else if !AllVerified(po) {
        reply := SaveOrder(k, id, checked, x);
      } else {
        reply := ClaimOrder(k, id, checked.(status := Issuing), x, end);
      }
    }

    /** Validate, uninterrupted, does to the rows what the protocol does, and
        answers what the protocol's call answers. */
    method Validate(ghost k: CallId, id: OrderId, found: bool, x: Answers, end: TxEnd)
      returns (reply: Result<Order, string>)
      requires Valid() && k !in world.calls && end.ToFault() == x.stored
      modifies this
      ensures Valid() && world == ValidateAlone(old(world), k, id, found, x)
      ensures if id in old(orders) then k in world.calls && world.calls[k].pc == Returned(reply) else reply.Err?
      ensures id in old(orders) && reply.Ok? ==> id in orders && reply.value == orders[id]
      ensures reply.Ok? <==> id in old(orders) && found && (old(orders)[id].status == AwaitingValidation ==>
                                                            LastStatement(old(certs), old(orders)[id], x).Acked())
      ensures if StatusIs(old(orders), id, AwaitingValidation) && found
              then Outcome(old(orders), old(certs), old(versions), id, x, world, reply)
              else orders == old(orders) && certs == old(certs) && versions == old(versions)
    {
      if StatusIs(orders, id, AwaitingValidation) && found { LoneValidateAnswers(world, k, id, x); }
      world := ApplyBegin(world, k, id, found);
      if id !in orders {
        reply := Err("order: not found");
      } else if !found {
        reply := Err("order: get");
      } else if orders[id].status != AwaitingValidation {
        reply := Ok(orders[id]);
      } else {
        reply := CheckOrder(k, id, orders[id], x, end);
      }
    }
  }
}
