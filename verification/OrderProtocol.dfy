// The certificate order protocol: any number of Validate calls on any number
// of orders interleave over the rows of the order and certificate tables.
// Every database statement, committed transaction and CA call is one atomic
// action; every one of them may fail, and a process may die between any two.
module OrderProtocol {
  import opened Prelude

  type OrderId = nat
  type CertId = nat
  type CallId = nat
  type Time = int

  datatype Status = Draft | AwaitingValidation | Issuing | Issued | Failed

  datatype Challenge = Challenge(verified: bool, error: string)

  // The columns that Update writes.
  datatype Order = Order(
    status: Status,
    challenges: seq<Challenge>,
    certificateId: Option<CertId>,
    error: string,
    attemptCount: nat,
    completedAt: Option<Time>)

  datatype CertStatus = Active | Expired | Revoked

  datatype Certificate = Certificate(status: CertStatus, notBefore: Time, notAfter: Time)

  datatype Version = Version(certificateId: CertId, fingerprint: string, issuedAt: Time)

  // What the CA hands back.
  datatype IssuedCert = IssuedCert(fingerprint: string, notBefore: Time, notAfter: Time)

  // Where a Validate call stands: the step it will take next.
  datatype Pc =
    | Checking
    | Saving
    | Failing(reason: string)
    | Claiming
    | Reloading
    | Signing
    | Submitting
    | Storing(issued: IssuedCert)
    | Completing
    | Returned(reply: Result<Order, string>)

  // A Validate call: the order it is about and its private copy of the row.
  datatype Call = Call(orderId: OrderId, o: Order, pc: Pc)

  // What an outside observer counts, per order.
  datatype Event =
    | CaIssue(orderId: OrderId)   // the CA was asked to issue
    | Claim(orderId: OrderId)     // the row went from awaiting_validation to issuing
    | Reopen(orderId: OrderId)    // awaiting_validation was written over another status

  datatype World = World(
    orders: map<OrderId, Order>,
    certs: map<CertId, Certificate>,
    versions: seq<Version>,
    calls: map<CallId, Call>,
    seen: multiset<Event>)

  const EMPTY_WORLD := World(map[], map[], [], map[], multiset{})

  datatype Action =
    | CreateOrder(id: OrderId, po: seq<Challenge>)
    | CreateRenewal(id: OrderId, cert: CertId, po: seq<Challenge>)
    | ImportCert(cert: CertId, status: CertStatus, issued: IssuedCert, fault: Fault)
    | RevokeCert(cert: CertId)
    | Begin(call: CallId, id: OrderId, found: bool)
    | Check(call: CallId, configured: bool, news: seq<Challenge>, checkFailed: bool)
    | Save(call: CallId, fault: Fault)
    | Fail(call: CallId, now: Time, fault: Fault)
    | TryClaim(call: CallId, fault: Fault)
    | Reload(call: CallId, found: bool)
    | Sign(call: CallId, ok: bool)
    | Submit(call: CallId, answer: Option<IssuedCert>)
    | Store(call: CallId, newCert: CertId, fault: Fault)
    | Complete(call: CallId, now: Time, fault: Fault)
    | Crash(call: CallId)

  // ---------------------------------------------------------------- challenges

  function FirstChallengeError(po: seq<Challenge>): (e: string)
    ensures e == "" <==> forall c :: c in po ==> c.error == ""
    ensures e != "" ==> exists i :: 0 <= i < |po| && po[i].error == e && forall j :: 0 <= j < i ==> po[j].error == ""
  {
    if po == [] then ""
    else if po[0].error != "" then
      po[0].error
    else
      var rest := FirstChallengeError(po[1..]);
      assert forall c :: c in po <==> c == po[0] || c in po[1..];
      assert rest != "" ==> exists i :: 0 <= i < |po| && po[i].error == rest && forall j :: 0 <= j < i ==>
             po[j].error == "" by {
        if rest != "" {
          var i :| 0 <= i < |po[1..]| && po[1..][i].error == rest && forall j :: 0 <= j < i ==> po[1..][j].error == "";
          assert po[i + 1].error == rest;
          forall j | 0 <= j < i + 1 ensures po[j].error == "" {
            if j > 0 { assert po[1..][j - 1].error == ""; }
          }
        }
      }
      rest
  }

  // An order without challenges is never verified.
  predicate AllVerified(po: seq<Challenge>) {
    po != [] && forall c :: c in po ==> c.verified
  }

  /** What a provider makes of an order's challenges. It looks at each one in
      place: it may find it verified or refused, but it never takes back what it
      found before and never changes the list's length. */
  function Recheck(po: seq<Challenge>, news: seq<Challenge>): (r: seq<Challenge>)
    ensures KeepsFindings(po, r)
    ensures KeepsFindings(po, news) ==> r == news
  {
    seq(|po|, i requires 0 <= i < |po| =>
      if i >= |news| then po[i]
      else Challenge(po[i].verified || news[i].verified, if news[i].error != "" then news[i].error else po[i].error))
  }

  predicate KeepsFindings(before: seq<Challenge>, after: seq<Challenge>) {
    && |after| == |before|
    && forall i :: 0 <= i < |before| ==>
         (before[i].verified ==> after[i].verified) && (before[i].error != "" ==> after[i].error != "")
  }

  // A list that can still be verified as a whole.
  predicate Clean(po: seq<Challenge>) {
    po != [] && forall c :: c in po ==> c.error == ""
  }

  // ------------------------------------------------------------ row operations

  // The unconditional UPDATE: no row is created when the id is unknown.
  function UpdateRow(orders: map<OrderId, Order>, id: OrderId, o: Order): map<OrderId, Order> {
    if id in orders then orders[id := o] else orders
  }

  // The conditional UPDATE changes the row only from the expected status.
  predicate StatusIs(orders: map<OrderId, Order>, id: OrderId, expected: Status) {
    id in orders && orders[id].status == expected
  }

  // Both rows of a finalizing transaction, committed together.
  function InsertCert(w: World, c: CertId, status: CertStatus, v: IssuedCert): World {
    w.(certs := w.certs[c := Certificate(status, v.notBefore, v.notAfter)],
       versions := w.versions + [Version(c, v.fingerprint, v.notBefore)])
  }

  function SetCall(w: World, k: CallId, c: Call): World {
    w.(calls := w.calls[k := c])
  }

  function Goto(w: World, k: CallId, pc: Pc): World
    requires k in w.calls
  {
    SetCall(w, k, w.calls[k].(pc := pc))
  }

  function Note(w: World, e: Event): World {
    w.(seen := w.seen + multiset{e})
  }

  // Writes the row if the statement landed; the call returns what it saw.
  function WriteAndReturn(w: World, k: CallId, o: Order, fault: Fault): World
    requires k in w.calls
  {
    var w1 := if fault.Landed() then w.(orders := UpdateRow(w.orders, w.calls[k].orderId, o)) else w;
    Goto(w1, k, Returned(if fault.Acked() then Ok(o) else Err("order: update")))
  }

  // -------------------------------------------------------------- the actions

  function ApplyBegin(w: World, k: CallId, id: OrderId, found: bool): World {
    if k in w.calls || id !in w.orders then w
    else
      var o := w.orders[id];
      SetCall(w, k, Call(id, o,
                         if !found then Returned(Err("order: get"))
                         else if o.status != AwaitingValidation then Returned(Ok(o))
                         else Checking))
  }

  // A call that has asked the provider about its challenges.
  function Checked(c: Call, configured: bool, news: seq<Challenge>, checkFailed: bool): Call {
    if !configured then c.(pc := Failing("ca_provider is no longer configured"))
    else
      var po := Recheck(c.o.challenges, news);
      var o := c.o.(challenges := po, attemptCount := c.o.attemptCount + 1);
      if checkFailed then Call(c.orderId, o, Saving)
      else if FirstChallengeError(po) != "" then Call(c.orderId, o, Failing(FirstChallengeError(po)))
      else if !AllVerified(po) then Call(c.orderId, o, Saving)
      else Call(c.orderId, o.(status := Issuing), Claiming)
  }

  function ApplyCheck(w: World, k: CallId, configured: bool, news: seq<Challenge>, checkFailed: bool): World {
    if k !in w.calls || !w.calls[k].pc.Checking? then w
    else SetCall(w, k, Checked(w.calls[k], configured, news, checkFailed))
  }

  /** Writes awaiting_validation back after an unfinished check. The code does
      so whatever the row holds by now; with `guarded` the write is conditional
      like the claim. */
  function ApplySave(guarded: bool, w: World, k: CallId, fault: Fault): World {
    if k !in w.calls || !w.calls[k].pc.Saving? then w
    else
      var c := w.calls[k];
      var open := StatusIs(w.orders, c.orderId, AwaitingValidation);
      var w1 := if fault.Landed() && (open || !guarded) then w.(orders := UpdateRow(w.orders, c.orderId, c.o)) else w;
      var w2 := if fault.Landed() && !open && !guarded then Note(w1, Reopen(c.orderId)) else w1;
      Goto(w2, k, Returned(if fault.Acked() then Ok(c.o) else Err("order: update")))
  }

  function ApplyFail(w: World, k: CallId, now: Time, fault: Fault): World {
    if k !in w.calls || !w.calls[k].pc.Failing? then w
    else
      var c := w.calls[k];
      WriteAndReturn(w, k, c.o.(status := Failed, error := c.pc.reason, completedAt := Some(now)), fault)
  }

  function ApplyClaim(w: World, k: CallId, fault: Fault): World {
    if k !in w.calls || !w.calls[k].pc.Claiming? then w
    else
      var c := w.calls[k];
      var wins := fault.Landed() && StatusIs(w.orders, c.orderId, AwaitingValidation);
      var w1 := if wins
                then Note(w.(orders := w.orders[c.orderId := c.o]), Event.Claim(c.orderId))
                else w;
      Goto(w1, k, if !fault.Acked() then Returned(Err("order: update if status"))
                  else if wins then Signing else Reloading)
  }

  function ApplyReload(w: World, k: CallId, found: bool): World {
    if k !in w.calls || !w.calls[k].pc.Reloading? then w
    else
      var id := w.calls[k].orderId;
      Goto(w, k, Returned(if found && id in w.orders then Ok(w.orders[id]) else Err("order: get")))
  }

  function ApplySign(w: World, k: CallId, ok: bool): World {
    if k !in w.calls || !w.calls[k].pc.Signing? then w
    else Goto(w, k, if ok then Submitting else Failing("load signing key"))
  }

  function ApplySubmit(w: World, k: CallId, answer: Option<IssuedCert>): World {
    if k !in w.calls || !w.calls[k].pc.Submitting? then w
    else
      Goto(Note(w, CaIssue(w.calls[k].orderId)), k,
           if answer.Some? then Storing(answer.value) else Failing("issue certificate"))
  }

  /** Both finalizers commit the certificate row and its version together. A
      renewal of an unknown certificate fails on the foreign key, a new
      certificate under an id in use on the primary key. */
  function ApplyStore(w: World, k: CallId, newCert: CertId, fault: Fault): World {
    if k !in w.calls || !w.calls[k].pc.Storing? then w
    else
      var c := w.calls[k];
      var renewal := c.o.certificateId.Some?;
      var target := if renewal then c.o.certificateId.value else newCert;
      var possible := if renewal then target in w.certs else target !in w.certs;
      var w1 := if possible && fault.Landed() then InsertCert(w, target, Active, c.pc.issued) else w;
      if possible && fault.Acked()
      then SetCall(w1, k, Call(c.orderId, c.o.(certificateId := Some(target)), Completing))
      else Goto(w1, k, Failing(if renewal then "finalize renewed certificate" else "store certificate"))
  }

  function ApplyComplete(w: World, k: CallId, now: Time, fault: Fault): World {
    if k !in w.calls || !w.calls[k].pc.Completing? then w
    else WriteAndReturn(w, k, w.calls[k].o.(status := Issued, completedAt := Some(now)), fault)
  }

  function Created(po: seq<Challenge>, cert: Option<CertId>): Order {
    Order(AwaitingValidation, po, cert, "", 0, None)
  }

  // An action that is not possible in w leaves w as it is.
  function Apply(guarded: bool, w: World, a: Action): World {
    match a
    case CreateOrder(id, po) =>
      if id in w.orders then w else w.(orders := w.orders[id := Created(po, None)])
    case CreateRenewal(id, cert, po) =>
      if id in w.orders || cert !in w.certs then w else w.(orders := w.orders[id := Created(po, Some(cert))])
    case ImportCert(cert, status, issued, fault) =>
      if cert in w.certs || !fault.Landed() then w else InsertCert(w, cert, status, issued)
    case RevokeCert(cert) =>
      if cert in w.certs then w.(certs := w.certs[cert := w.certs[cert].(status := Revoked)]) else w
    case Begin(k, id, found) => ApplyBegin(w, k, id, found)
    case Check(k, configured, news, checkFailed) => ApplyCheck(w, k, configured, news, checkFailed)
    case Save(k, fault) => ApplySave(guarded, w, k, fault)
    case Fail(k, now, fault) => ApplyFail(w, k, now, fault)
    case TryClaim(k, fault) => ApplyClaim(w, k, fault)
    case Reload(k, found) => ApplyReload(w, k, found)
    case Sign(k, ok) => ApplySign(w, k, ok)
    case Submit(k, answer) => ApplySubmit(w, k, answer)
    case Store(k, newCert, fault) => ApplyStore(w, k, newCert, fault)
    case Complete(k, now, fault) => ApplyComplete(w, k, now, fault)
    case Crash(k) => if k in w.calls then Goto(w, k, Returned(Err("crashed"))) else w
  }

  function Run(guarded: bool, w: World, actions: seq<Action>): World
    decreases |actions|
  {
    if actions == [] then w
    else Run(guarded, Apply(guarded, w, actions[0]), actions[1..])
  }
}
