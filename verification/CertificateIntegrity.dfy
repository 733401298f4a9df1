// Orders, certificates and their versions stay consistent in every run, and
// the version that LatestVersion picks is the one the certificate row describes
// exactly when renewals move forward in time.
module CertificateIntegrity {
  import opened Prelude
  import opened OrderProtocol
  import OrderSafety

  predicate IsVersionOf(versions: seq<Version>, i: int, c: CertId) {
    0 <= i < |versions| && versions[i].certificateId == c
  }

  // Version i was committed after every other version of the certificate.
  ghost predicate LastCommit(versions: seq<Version>, i: int, c: CertId) {
    IsVersionOf(versions, i, c) && forall j :: IsVersionOf(versions, j, c) ==> j <= i
  }

  // The version committed last was issued when the certificate row says it starts.
  ghost predicate Backed(w: World, c: CertId)
    requires c in w.certs
  {
    exists i :: LastCommit(w.versions, i, c) && w.versions[i].issuedAt == w.certs[c].notBefore
  }

  predicate Names(w: World, o: Order) {
    o.certificateId.Some? ==> o.certificateId.value in w.certs
  }

  predicate OrderSound(w: World, o: Order) {
    Names(w, o) && (o.status == Issued ==> o.certificateId.Some?)
  }

  predicate CallSound(w: World, c: Call) {
    && Names(w, c.o)
    && (c.pc.Completing? ==> c.o.certificateId.Some?)
  }

  ghost predicate RowsSound(w: World) {
    && (forall id :: id in w.orders ==> OrderSound(w, w.orders[id]))
    && (forall k :: k in w.calls ==> CallSound(w, w.calls[k]))
  }

  ghost predicate Sound(w: World) {
    && RowsSound(w)
    && (forall c :: c in w.certs ==> Backed(w, c))
    && (forall i :: 0 <= i < |w.versions| ==> w.versions[i].certificateId in w.certs)
  }

  // A step of a call that leaves the certificate tables alone.
  ghost predicate RowStep(w: World, w': World) {
    w'.certs == w.certs && w'.versions == w.versions && RowsSound(w')
  }

  lemma RowStepKeeps(w: World, w': World)
    requires Sound(w) && RowStep(w, w')
    ensures Sound(w')
  {
    forall c | c in w'.certs ensures Backed(w', c) {
      assert Backed(w, c);
    }
  }

  lemma BeginSound(w: World, k: CallId, on: OrderId, found: bool)
    requires RowsSound(w)
    ensures RowStep(w, ApplyBegin(w, k, on, found))
  {
  }

  // A step that only changes the call itself.
  lemma PrivateStepSound(w: World, k: CallId, c: Call)
    requires RowsSound(w) && CallSound(w, c)
    ensures RowStep(w, SetCall(w, k, c))
  {
  }

  lemma CheckSound(w: World, k: CallId, configured: bool, news: seq<Challenge>, checkFailed: bool)
    requires RowsSound(w)
    ensures RowStep(w, ApplyCheck(w, k, configured, news, checkFailed))
  {
    if k in w.calls && w.calls[k].pc.Checking? {
      assert CallSound(w, w.calls[k]);
      PrivateStepSound(w, k, Checked(w.calls[k], configured, news, checkFailed));
    }
  }

  // A step that may also write the row of the call's order.
  lemma WriteSound(w: World, w': World, k: CallId, id: OrderId, o: Order, c: Call)
    requires RowsSound(w) && OrderSound(w, o) && CallSound(w, c)
    requires w'.certs == w.certs && w'.versions == w.versions
    requires w'.orders == w.orders || w'.orders == UpdateRow(w.orders, id, o)
    requires w'.calls == w.calls[k := c]
    ensures RowStep(w, w')
  {
  }

  lemma SaveWrites(guarded: bool, w: World, k: CallId, fault: Fault)
    requires k in w.calls && w.calls[k].pc.Saving?
    ensures var w', c := ApplySave(guarded, w, k, fault), w.calls[k];
            && w'.certs == w.certs && w'.versions == w.versions
            && (w'.orders == w.orders || w'.orders == UpdateRow(w.orders, c.orderId, c.o))
            && k in w'.calls && w'.calls == w.calls[k := w'.calls[k]]
            && w'.calls[k].o == c.o && w'.calls[k].pc.Returned?
  {
  }

  lemma ClaimWrites(w: World, k: CallId, fault: Fault)
    requires k in w.calls && w.calls[k].pc.Claiming?
    ensures var w', c := ApplyClaim(w, k, fault), w.calls[k];
            && w'.certs == w.certs && w'.versions == w.versions
            && (w'.orders == w.orders || w'.orders == UpdateRow(w.orders, c.orderId, c.o))
            && k in w'.calls && w'.calls == w.calls[k := w'.calls[k]]
            && w'.calls[k].o == c.o && !w'.calls[k].pc.Completing?
  {
  }

  lemma SaveSound(guarded: bool, w: World, k: CallId, fault: Fault)
    requires OrderSafety.CallsFit(w) && RowsSound(w)
    ensures RowStep(w, ApplySave(guarded, w, k, fault))
  {
    if k in w.calls && w.calls[k].pc.Saving? {
      var w', c := ApplySave(guarded, w, k, fault), w.calls[k];
      SaveWrites(guarded, w, k, fault);
      assert CallSound(w, c) && OrderSafety.Fits(w.orders, c);
      WriteSound(w, w', k, c.orderId, c.o, w'.calls[k]);
    }
  }

  lemma ClaimSound(w: World, k: CallId, fault: Fault)
    requires OrderSafety.CallsFit(w) && RowsSound(w)
    ensures RowStep(w, ApplyClaim(w, k, fault))
  {
    if k in w.calls && w.calls[k].pc.Claiming? {
      var w', c := ApplyClaim(w, k, fault), w.calls[k];
      ClaimWrites(w, k, fault);
      assert CallSound(w, c) && OrderSafety.Fits(w.orders, c);
      WriteSound(w, w', k, c.orderId, c.o, w'.calls[k]);
    }
  }

  lemma FinalWriteSound(w: World, k: CallId, o: Order, fault: Fault)
    requires RowsSound(w) && k in w.calls && OrderSound(w, o) && CallSound(w, w.calls[k])
    requires o.certificateId == w.calls[k].o.certificateId
    ensures RowStep(w, WriteAndReturn(w, k, o, fault))
  {
    var w' := WriteAndReturn(w, k, o, fault);
    if fault.Landed() {
      WriteSound(w, w', k, w.calls[k].orderId, o, w'.calls[k]);
    } else {
      PrivateStepSound(w, k, w'.calls[k]);
    }
  }

  lemma FailSound(w: World, k: CallId, now: Time, fault: Fault)
    requires RowsSound(w)
    ensures RowStep(w, ApplyFail(w, k, now, fault))
  {
    if k in w.calls && w.calls[k].pc.Failing? {
      var c := w.calls[k];
      assert CallSound(w, c);
      FinalWriteSound(w, k, c.o.(status := Failed, error := c.pc.reason, completedAt := Some(now)), fault);
    }
  }

  lemma CompleteSound(w: World, k: CallId, now: Time, fault: Fault)
    requires RowsSound(w)
    ensures RowStep(w, ApplyComplete(w, k, now, fault))
  {
    if k in w.calls && w.calls[k].pc.Completing? {
      assert CallSound(w, w.calls[k]);
      FinalWriteSound(w, k, w.calls[k].o.(status := Issued, completedAt := Some(now)), fault);
    }
  }

  lemma QuietSound(w: World, k: CallId, ok: bool)
    requires RowsSound(w)
    ensures RowStep(w, ApplyReload(w, k, ok)) && RowStep(w, ApplySign(w, k, ok))
  {
  }

  lemma SubmitSound(w: World, k: CallId, answer: Option<IssuedCert>)
    requires RowsSound(w)
    ensures RowStep(w, ApplySubmit(w, k, answer))
  {
  }

  lemma CallStepSound(guarded: bool, w: World, a: Action)
    requires OrderSafety.CallsFit(w) && RowsSound(w)
    requires !(a.CreateOrder? || a.CreateRenewal? || a.ImportCert? || a.RevokeCert? || a.Store?)
    ensures RowStep(w, Apply(guarded, w, a))
  {
    match a
    case Begin(k, on, found) => BeginSound(w, k, on, found);
    case Check(k, configured, news, failed) => CheckSound(w, k, configured, news, failed);
    case Save(k, fault) => SaveSound(guarded, w, k, fault);
    case TryClaim(k, fault) => ClaimSound(w, k, fault);
    case Fail(k, now, fault) => FailSound(w, k, now, fault);
    case Complete(k, now, fault) => CompleteSound(w, k, now, fault);
    case Reload(k, found) => QuietSound(w, k, found);
    case Sign(k, ok) => QuietSound(w, k, ok);
    case Submit(k, answer) => SubmitSound(w, k, answer);
    case Crash(k) =>
  }

  // A committed version is the last of its certificate and of no other.
  lemma LastCommitAfterInsert(versions: seq<Version>, v: Version, i: int, c: CertId)
    ensures LastCommit(versions + [v], i, c) <==>
            if v.certificateId == c then i == |versions| else LastCommit(versions, i, c)
  {
    var after := versions + [v];
    assert forall j :: IsVersionOf(after, j, c) <==>
           IsVersionOf(versions, j, c) || (j == |versions| && v.certificateId == c);
    assert IsVersionOf(after, |versions|, c) <==> v.certificateId == c;
  }

  // A committed finalizer keeps every certificate backed.
  lemma InsertKeeps(w: World, c: CertId, status: CertStatus, v: IssuedCert)
    requires Sound(w)
    ensures Sound(InsertCert(w, c, status, v))
  {
    var w' := InsertCert(w, c, status, v);
    var version := Version(c, v.fingerprint, v.notBefore);
    forall d | d in w'.certs ensures Backed(w', d) {
      if d == c {
        LastCommitAfterInsert(w.versions, version, |w.versions|, c);
      } else {
        assert Backed(w, d);
        var i :| LastCommit(w.versions, i, d) && w.versions[i].issuedAt == w.certs[d].notBefore;
        LastCommitAfterInsert(w.versions, version, i, d);
      }
    }
  }

  lemma StoreRows(w: World, k: CallId, newCert: CertId, fault: Fault)
    requires RowsSound(w)
    ensures RowsSound(ApplyStore(w, k, newCert, fault))
  {
  }

  lemma StoreKeeps(w: World, k: CallId, newCert: CertId, fault: Fault)
    requires Sound(w)
    ensures Sound(ApplyStore(w, k, newCert, fault))
  {
    StoreRows(w, k, newCert, fault);
    var w' := ApplyStore(w, k, newCert, fault);
    if w'.versions == w.versions {
      assert w'.certs == w.certs;
      RowStepKeeps(w, w');
    } else {
      var c := w.calls[k];
      var target := if c.o.certificateId.Some? then c.o.certificateId.value else newCert;
      InsertKeeps(w, target, Active, c.pc.issued);
      RowStepKeeps(InsertCert(w, target, Active, c.pc.issued), w');
    }
  }

  lemma OtherActionSound(guarded: bool, w: World, a: Action)
    requires Sound(w)
    requires a.CreateOrder? || a.CreateRenewal? || a.ImportCert? || a.RevokeCert?
    ensures Sound(Apply(guarded, w, a))
  {
    if a.ImportCert? {
      InsertKeeps(w, a.cert, a.status, a.issued);
    } else {
      var w' := Apply(guarded, w, a);
      forall c | c in w'.certs ensures Backed(w', c) {
        assert Backed(w, c);
      }
    }
  }

  lemma SoundStep(guarded: bool, w: World, a: Action)
    requires OrderSafety.CallsFit(w) && Sound(w)
    ensures Sound(Apply(guarded, w, a))
  {
    if a.Store? {
      StoreKeeps(w, a.call, a.newCert, a.fault);
    } else if a.CreateOrder? || a.CreateRenewal? || a.ImportCert? || a.RevokeCert? {
      OtherActionSound(guarded, w, a);
    } else {
      CallStepSound(guarded, w, a);
      RowStepKeeps(w, Apply(guarded, w, a));
    }
  }

  lemma {:induction false} SoundRun(guarded: bool, w: World, actions: seq<Action>)
    requires OrderSafety.CallsFit(w) && Sound(w)
    ensures Sound(Run(guarded, w, actions))
    ensures OrderSafety.CallsFit(Run(guarded, w, actions))
    decreases |actions|
  {
    if actions == [] {
    } else {
      SoundStep(guarded, w, actions[0]);
      OrderSafety.FitStep(guarded, w, actions[0]);
      SoundRun(guarded, Apply(guarded, w, actions[0]), actions[1..]);
    }
  }

  /** Under every interleaving and every fault, an order row with status issued
      names an existing certificate that has a stored version. */
  lemma IssuedOrderHasVersion(actions: seq<Action>, id: OrderId)
    requires var w := Run(false, EMPTY_WORLD, actions); id in w.orders && w.orders[id].status == Issued
    ensures var w := Run(false, EMPTY_WORLD, actions);
            var c := w.orders[id].certificateId;
            c.Some? && c.value in w.certs && exists i :: IsVersionOf(w.versions, i, c.value)
  {
    SoundRun(false, EMPTY_WORLD, actions);
    var w := Run(false, EMPTY_WORLD, actions);
    var c := w.orders[id].certificateId.value;
    assert Names(w, w.orders[id]) && Backed(w, c);
    var i :| LastCommit(w.versions, i, c);
    assert IsVersionOf(w.versions, i, c);
  }

  /** Certificate row and version material never drift apart: whatever fails,
      each certificate has a version issued at the row's not_before, and it is
      the one committed last. */
  lemma CertificateIsBacked(actions: seq<Action>, c: CertId)
    requires c in Run(false, EMPTY_WORLD, actions).certs
    ensures Backed(Run(false, EMPTY_WORLD, actions), c)
  {
    SoundRun(false, EMPTY_WORLD, actions);
  }

  // ------------------------------------------------------------- LatestVersion

  // ORDER BY issued_at DESC LIMIT 1 returns some version with the largest
  // issued_at; with ties the database is free to choose.
  ghost predicate MayBeLatest(versions: seq<Version>, i: int, c: CertId) {
    && IsVersionOf(versions, i, c)
    && forall j :: IsVersionOf(versions, j, c) ==> versions[j].issuedAt <= versions[i].issuedAt
  }

  // LatestVersion can only answer with the version the row was updated with.
  ghost predicate LatestAgrees(w: World, c: CertId)
    requires c in w.certs
  {
    exists i :: && MayBeLatest(w.versions, i, c) && w.versions[i].issuedAt == w.certs[c].notBefore
                && forall j :: MayBeLatest(w.versions, j, c) ==> j == i
  }

  // Every version but one was issued strictly before the row's not_before.
  ghost predicate OneNewest(w: World, c: CertId)
    requires c in w.certs
  {
    exists i :: && IsVersionOf(w.versions, i, c) && w.versions[i].issuedAt == w.certs[c].notBefore
                && forall j :: IsVersionOf(w.versions, j, c) && j != i ==> w.versions[j].issuedAt < w.certs[c].notBefore
  }

  lemma OneNewestIsLatest(w: World, c: CertId)
    requires c in w.certs && OneNewest(w, c)
    ensures LatestAgrees(w, c)
  {
    var i :| && IsVersionOf(w.versions, i, c) && w.versions[i].issuedAt == w.certs[c].notBefore
             && forall j :: IsVersionOf(w.versions, j, c) && j != i ==> w.versions[j].issuedAt < w.certs[c].notBefore;
    assert MayBeLatest(w.versions, i, c);
    forall j | MayBeLatest(w.versions, j, c) ensures j == i {
      assert w.versions[i].issuedAt <= w.versions[j].issuedAt;
    }
  }

  // A renewal that would commit moves the certificate's not_before forward.
  predicate Advances(w: World, a: Action) {
    a.Store? && a.call in w.calls && w.calls[a.call].pc.Storing? ==>
      var c := w.calls[a.call];
      c.o.certificateId.Some? && c.o.certificateId.value in w.certs ==>
        w.certs[c.o.certificateId.value].notBefore < c.pc.issued.notBefore
  }

  ghost predicate AllAdvance(w: World, actions: seq<Action>)
    decreases |actions|
  {
    actions == [] || (Advances(w, actions[0]) && AllAdvance(Apply(false, w, actions[0]), actions[1..]))
  }

  ghost predicate AllNewest(w: World) {
    && (forall c :: c in w.certs ==> OneNewest(w, c))
    && (forall i :: 0 <= i < |w.versions| ==> w.versions[i].certificateId in w.certs)
  }

  lemma InsertNewest(w: World, c: CertId, status: CertStatus, v: IssuedCert)
    requires AllNewest(w) && (c in w.certs ==> w.certs[c].notBefore < v.notBefore)
    ensures AllNewest(InsertCert(w, c, status, v))
  {
    var w' := InsertCert(w, c, status, v);
    var n := |w.versions|;
    forall d | d in w'.certs ensures OneNewest(w', d) {
      if d == c {
        forall j | IsVersionOf(w'.versions, j, c) && j != n ensures w'.versions[j].issuedAt < v.notBefore {
          assert IsVersionOf(w.versions, j, c) && c in w.certs;
          assert OneNewest(w, c);
        }
        assert IsVersionOf(w'.versions, n, c);
      } else {
        assert OneNewest(w, d);
        var i :| && IsVersionOf(w.versions, i, d) && w.versions[i].issuedAt == w.certs[d].notBefore
                 && forall j :: IsVersionOf(w.versions, j, d) && j != i ==>
                   w.versions[j].issuedAt < w.certs[d].notBefore;
        assert IsVersionOf(w'.versions, i, d);
        forall j | IsVersionOf(w'.versions, j, d) && j != i ensures w'.versions[j].issuedAt < w'.certs[d].notBefore {
          assert IsVersionOf(w.versions, j, d);
        }
      }
    }
  }

  lemma SameRowsKeepNewest(w: World, w': World)
    requires AllNewest(w) && w'.versions == w.versions && w'.certs.Keys == w.certs.Keys
    requires forall c :: c in w.certs ==> w'.certs[c].notBefore == w.certs[c].notBefore
    ensures AllNewest(w')
  {
    forall c | c in w'.certs ensures OneNewest(w', c) {
      assert OneNewest(w, c);
    }
  }

  // What a store step does to the certificate tables.
  lemma StoreInserts(w: World, k: CallId, newCert: CertId, fault: Fault)
    ensures var w' := ApplyStore(w, k, newCert, fault);
            || (w'.certs == w.certs && w'.versions == w.versions)
            || (k in w.calls && w.calls[k].pc.Storing? &&
                var c := w.calls[k];
                var target := if c.o.certificateId.Some? then c.o.certificateId.value else newCert;
                && (c.o.certificateId.Some? <==> target in w.certs)
                && w'.certs == InsertCert(w, target, Active, c.pc.issued).certs
                && w'.versions == InsertCert(w, target, Active, c.pc.issued).versions)
  {
  }

  lemma StoreNewest(w: World, k: CallId, newCert: CertId, fault: Fault)
    requires AllNewest(w) && Advances(w, Store(k, newCert, fault))
    ensures AllNewest(ApplyStore(w, k, newCert, fault))
  {
    var w' := ApplyStore(w, k, newCert, fault);
    StoreInserts(w, k, newCert, fault);
    if w'.versions == w.versions {
      assert w'.certs == w.certs;
      SameRowsKeepNewest(w, w');
    } else {
      var c := w.calls[k];
      var target := if c.o.certificateId.Some? then c.o.certificateId.value else newCert;
      InsertNewest(w, target, Active, c.pc.issued);
      SameRowsKeepNewest(InsertCert(w, target, Active, c.pc.issued), w');
    }
  }

  lemma CallStepNewest(w: World, a: Action)
    requires OrderSafety.CallsFit(w) && RowsSound(w) && AllNewest(w)
    requires !(a.CreateOrder? || a.CreateRenewal? || a.ImportCert? || a.RevokeCert? || a.Store?)
    ensures AllNewest(Apply(false, w, a))
  {
    CallStepSound(false, w, a);
    SameRowsKeepNewest(w, Apply(false, w, a));
  }

  lemma OtherActionNewest(w: World, a: Action)
    requires AllNewest(w) && (a.CreateOrder? || a.CreateRenewal? || a.ImportCert? || a.RevokeCert?)
    ensures AllNewest(Apply(false, w, a))
  {
    if a.ImportCert? {
      if a.cert !in w.certs { InsertNewest(w, a.cert, a.status, a.issued); }
    } else {
      SameRowsKeepNewest(w, Apply(false, w, a));
    }
  }

  lemma NewestStep(w: World, a: Action)
    requires OrderSafety.CallsFit(w) && Sound(w) && AllNewest(w) && Advances(w, a)
    ensures AllNewest(Apply(false, w, a))
  {
    if a.Store? {
      StoreNewest(w, a.call, a.newCert, a.fault);
    } else if a.CreateOrder? || a.CreateRenewal? || a.ImportCert? || a.RevokeCert? {
      OtherActionNewest(w, a);
    } else {
      CallStepNewest(w, a);
    }
  }

  lemma {:induction false} NewestRun(w: World, actions: seq<Action>)
    requires OrderSafety.CallsFit(w) && Sound(w) && AllNewest(w) && AllAdvance(w, actions)
    ensures AllNewest(Run(false, w, actions))
    decreases |actions|
  {
    if actions == [] {
    } else {
      NewestStep(w, actions[0]);
      SoundStep(false, w, actions[0]);
      OrderSafety.FitStep(false, w, actions[0]);
      NewestRun(Apply(false, w, actions[0]), actions[1..]);
    }
  }

  /** If NotBefore strictly increases with each renewal of a certificate,
      LatestVersion has one possible answer in every reachable world: the
      version that matches the certificate row. */
  lemma LatestVersionMatchesRow(actions: seq<Action>, c: CertId)
    requires AllAdvance(EMPTY_WORLD, actions)
    requires c in Run(false, EMPTY_WORLD, actions).certs
    ensures LatestAgrees(Run(false, EMPTY_WORLD, actions), c)
  {
    NewestRun(EMPTY_WORLD, actions);
    OneNewestIsLatest(Run(false, EMPTY_WORLD, actions), c);
  }

  // Version i of c was issued later than every other version of c.
  ghost predicate Newest(versions: seq<Version>, i: int, c: CertId) {
    && IsVersionOf(versions, i, c)
    && forall j :: IsVersionOf(versions, j, c) && j != i ==> versions[j].issuedAt < versions[i].issuedAt
  }

  /** Without that condition, in every reachable world: LatestVersion answers
      with the version the row describes if and only if the version committed
      last was also issued last. */
  lemma LatestMatchesRowIff(actions: seq<Action>, c: CertId, i: int)
    requires var w := Run(false, EMPTY_WORLD, actions); c in w.certs && LastCommit(w.versions, i, c)
    ensures var w := Run(false, EMPTY_WORLD, actions);
            LatestAgrees(w, c) <==> Newest(w.versions, i, c)
  {
    var w := Run(false, EMPTY_WORLD, actions);
    SoundRun(false, EMPTY_WORLD, actions);
    assert Backed(w, c);
    assert w.versions[i].issuedAt == w.certs[c].notBefore;
    if Newest(w.versions, i, c) {
      OneNewestIsLatest(w, c);
    }
    if LatestAgrees(w, c) {
      LatestIsNewest(w, c, i);
    }
  }

  lemma LatestIsNewest(w: World, c: CertId, i: int)
    requires c in w.certs && LatestAgrees(w, c)
    requires IsVersionOf(w.versions, i, c) && w.versions[i].issuedAt == w.certs[c].notBefore
    ensures Newest(w.versions, i, c)
  {
    var m :| && MayBeLatest(w.versions, m, c) && w.versions[m].issuedAt == w.certs[c].notBefore
             && forall j :: MayBeLatest(w.versions, j, c) ==> j == m;
    assert MayBeLatest(w.versions, i, c);
    forall j | IsVersionOf(w.versions, j, c) && j != i ensures w.versions[j].issuedAt < w.versions[i].issuedAt {
      assert w.versions[j].issuedAt >= w.versions[i].issuedAt ==> MayBeLatest(w.versions, j, c);
    }
  }

  // An equally late or later version gives LatestVersion another answer.
  lemma LaterVersionDisagrees(w: World, c: CertId, i: int, j: int)
    requires c in w.certs && IsVersionOf(w.versions, i, c) && w.versions[i].issuedAt == w.certs[c].notBefore
    requires IsVersionOf(w.versions, j, c) && j != i && w.versions[j].issuedAt >= w.versions[i].issuedAt
    ensures !LatestAgrees(w, c)
  {
    if LatestAgrees(w, c) {
      LatestIsNewest(w, c, i);
    }
  }

  /** And for one renewal, in any world, also after earlier bad ones: committing
      it makes LatestVersion match the row if and only if its NotBefore is later
      than that of every version stored for the certificate. */
  lemma RenewalMatchesRowIff(w: World, c: CertId, v: IssuedCert)
    requires c in w.certs
    ensures LatestAgrees(InsertCert(w, c, Active, v), c) <==>
            forall j :: IsVersionOf(w.versions, j, c) ==> w.versions[j].issuedAt < v.notBefore
  {
    var w' := InsertCert(w, c, Active, v);
    var n := |w.versions|;
    assert IsVersionOf(w'.versions, n, c);
    if LatestAgrees(w', c) {
      LatestIsNewest(w', c, n);
      forall j | IsVersionOf(w.versions, j, c) ensures w.versions[j].issuedAt < v.notBefore {
        assert IsVersionOf(w'.versions, j, c);
      }
    }
    if forall j :: IsVersionOf(w.versions, j, c) ==> w.versions[j].issuedAt < v.notBefore {
      forall j | IsVersionOf(w'.versions, j, c) && j != n ensures w'.versions[j].issuedAt < v.notBefore {
        assert IsVersionOf(w.versions, j, c);
      }
      OneNewestIsLatest(w', c);
    }
  }

  /** In particular a renewal keeps LatestVersion in step with a row it matched
      if and only if its NotBefore is later than the row's. */
  lemma RenewalKeepsLatestIff(w: World, c: CertId, v: IssuedCert)
    requires c in w.certs && LatestAgrees(w, c)
    ensures LatestAgrees(InsertCert(w, c, Active, v), c) <==> w.certs[c].notBefore < v.notBefore
  {
    RenewalMatchesRowIff(w, c, v);
    var i :| && MayBeLatest(w.versions, i, c) && w.versions[i].issuedAt == w.certs[c].notBefore
             && forall j :: MayBeLatest(w.versions, j, c) ==> j == i;
    assert IsVersionOf(w.versions, i, c);
  }
}
