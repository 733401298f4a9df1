// Matching a probed endpoint against the certificate inventory: through an
// index built once per scan, and as the linear search that index stands for.
module InventoryIndex {
  import opened Prelude
  import ProbePool

  type CertId = nat
  type Time = int
  type MatchStatus = ProbePool.MatchStatus

  datatype Certificate = Certificate(id: CertId, sans: seq<string>, revoked: bool, notAfter: Time)

  datatype Entry = Entry(certificateId: CertId, fingerprint: string)

  datatype Probe = Probe(host: string, sans: seq<string>, reachable: bool, noTls: bool, fingerprint: string)

  datatype Verdict = Verdict(status: MatchStatus, matched: Option<CertId>)

  function LowerChar(c: char): char {
    if 'A' <= c <= 'Z' then (c as int + 32) as char else c
  }

  function ToLower(s: string): (t: string)
    ensures |t| == |s|
  {
    seq(|s|, i requires 0 <= i < |s| => LowerChar(s[i]))
  }

  // The same letter, but for its case.
  predicate SameLetter(a: char, b: char) {
    || a == b || ('A' <= a <= 'Z' && b as int == a as int + 32) || ('A' <= b <= 'Z' && a as int == b as int + 32)
  }

  /** Names are treated alike exactly if they differ at most in the case of ASCII
      letters. */
  lemma TreatedAlikeIff(a: string, b: string)
    ensures ToLower(a) == ToLower(b) <==> |a| == |b| && forall i :: 0 <= i < |a| ==> SameLetter(a[i], b[i])
  {
    if ToLower(a) == ToLower(b) {
      assert |a| == |ToLower(a)| == |b|;
      forall i | 0 <= i < |a| ensures SameLetter(a[i], b[i]) {
        assert ToLower(a)[i] == ToLower(b)[i];
      }
    }
  }

  // The latest stored fingerprint, or none if it cannot be read.
  function Fingerprint(latest: map<CertId, string>, id: CertId): string {
    if id in latest then latest[id] else ""
  }

  // --------------------------------------------------------------- linear search

  predicate Claims(c: Certificate, domain: string) {
    !c.revoked && exists i :: 0 <= i < |c.sans| && ToLower(c.sans[i]) == domain
  }

  /** A certificate claims a name if it is not revoked and holds that name, in any
      case of its letters. */
  lemma ClaimsIff(c: Certificate, name: string)
    ensures Claims(c, ToLower(name)) <==>
            && !c.revoked
            && exists i :: 0 <= i < |c.sans| && |c.sans[i]| == |name| &&
                           forall k :: 0 <= k < |name| ==> SameLetter(c.sans[i][k], name[k])
  {
    forall i | 0 <= i < |c.sans|
      ensures ToLower(c.sans[i]) == ToLower(name) <==>
              |c.sans[i]| == |name| && forall k :: 0 <= k < |name| ==> SameLetter(c.sans[i][k], name[k])
    {
      TreatedAlikeIff(c.sans[i], name);
    }
  }

  function LastClaim(certs: seq<Certificate>, domain: string): Option<Certificate> {
    if certs == [] then None
    else if Claims(certs[|certs| - 1], domain) then Some(certs[|certs| - 1])
    else LastClaim(certs[..|certs| - 1], domain)
  }

  /** In the order the inventory is listed, the winner is the claimant that
      expires last. */
  lemma {:induction false} LastClaimExpiresLast(certs: seq<Certificate>, domain: string)
    requires forall i, j :: 0 <= i < j < |certs| ==> certs[i].notAfter <= certs[j].notAfter
    ensures LastClaim(certs, domain).Some? ==>
              var c := LastClaim(certs, domain).value;
              && c in certs && Claims(c, domain)
              && forall d :: d in certs && Claims(d, domain) ==> d.notAfter <= c.notAfter
    ensures LastClaim(certs, domain).None? ==> forall d :: d in certs ==> !Claims(d, domain)
  {
    if certs == [] {
    } else {
      var front, last := certs[..|certs| - 1], certs[|certs| - 1];
      LastClaimExpiresLast(front, domain);
      assert certs == front + [last];
    }
  }

  function FirstClaimed(certs: seq<Certificate>, domains: seq<string>): Option<Certificate> {
    if domains == [] then None
    else if LastClaim(certs, ToLower(domains[0])).Some? then LastClaim(certs, ToLower(domains[0]))
    else FirstClaimed(certs, domains[1..])
  }

  // The host's own name first, then the names in the served certificate.
  function Reconciled(certs: seq<Certificate>, latest: map<CertId, string>, p: Probe): Verdict {
    if !p.reachable then Verdict(ProbePool.Unreachable, None)
    else if p.noTls then Verdict(ProbePool.NoTls, None)
    else
      match FirstClaimed(certs, [p.host] + p.sans)
      case None => Verdict(ProbePool.NotInInventory, None)
      case Some(c) =>
        var f := Fingerprint(latest, c.id);
        Verdict(if f != "" && f == p.fingerprint then ProbePool.Matched else ProbePool.Mismatched, Some(c.id))
  }

  // certs[i] is the last certificate in the inventory that claims the domain.
  ghost predicate LastToClaim(certs: seq<Certificate>, domain: string, i: nat) {
    i < |certs| && Claims(certs[i], domain) && forall j :: i < j < |certs| ==> !Claims(certs[j], domain)
  }

  // names[n] is the first name that anything claims, and certs[i] answers for it.
  ghost predicate Answers(certs: seq<Certificate>, names: seq<string>, n: nat, i: nat) {
    && n < |names| && LastToClaim(certs, ToLower(names[n]), i)
    && forall m, j :: 0 <= m < n && 0 <= j < |certs| ==> !Claims(certs[j], ToLower(names[m]))
  }

  lemma {:induction false} LastClaimFound(certs: seq<Certificate>, domain: string) returns (i: nat)
    ensures if LastClaim(certs, domain).Some?
            then LastToClaim(certs, domain, i) && LastClaim(certs, domain) == Some(certs[i])
            else forall j :: 0 <= j < |certs| ==> !Claims(certs[j], domain)
  {
    if certs == [] {
      i := 0;
    } else if Claims(certs[|certs| - 1], domain) {
      i := |certs| - 1;
    } else {
      i := LastClaimFound(certs[..|certs| - 1], domain);
    }
  }

  lemma {:induction false} FirstClaimedFound(certs: seq<Certificate>, names: seq<string>) returns (n: nat, i: nat)
    ensures if FirstClaimed(certs, names).Some?
            then Answers(certs, names, n, i) && FirstClaimed(certs, names) == Some(certs[i])
            else forall m, j :: 0 <= m < |names| && 0 <= j < |certs| ==> !Claims(certs[j], ToLower(names[m]))
  {
    n, i := 0, 0;
    if names == [] {
    } else {
      i := LastClaimFound(certs, ToLower(names[0]));
      if LastClaim(certs, ToLower(names[0])).None? {
        n, i := FirstClaimedFound(certs, names[1..]);
        n := n + 1;
        forall m, j | 0 <= m < (if FirstClaimed(certs, names).Some? then n else |names|) && 0 <= j < |certs|
          ensures !Claims(certs[j], ToLower(names[m]))
        {
          if m > 0 { assert names[m] == names[1..][m - 1]; }
        }
      }
    }
  }

  lemma OneAnswers(certs: seq<Certificate>, names: seq<string>, n: nat, i: nat, m: nat, j: nat)
    requires Answers(certs, names, n, i) && Answers(certs, names, m, j)
    ensures n == m && i == j
  {
  }

  /** What a verdict says about the inventory. The certificate that answers for
      an endpoint is the last one listed under the first of its names (its host,
      then the names it serves) that any unrevoked certificate claims. `matched`
      means that the endpoint serves that certificate's latest version, and
      `not in inventory` that nothing claims any of its names. */
  lemma VerdictMeans(certs: seq<Certificate>, latest: map<CertId, string>, p: Probe, n: nat, i: nat)
    requires p.reachable && !p.noTls
    ensures var v, names := Reconciled(certs, latest, p), [p.host] + p.sans;
            && (v.status == ProbePool.NotInInventory <==>
                  forall m, j :: 0 <= m < |names| && 0 <= j < |certs| ==> !Claims(certs[j], ToLower(names[m])))
            && (Answers(certs, names, n, i) ==>
                  && v.matched == Some(certs[i].id)
                  && (v.status == ProbePool.Matched <==>
                    p.fingerprint != "" && certs[i].id in latest && p.fingerprint == latest[certs[i].id])
                  && (v.status == ProbePool.Mismatched <==>
                    p.fingerprint == "" || certs[i].id !in latest || p.fingerprint != latest[certs[i].id]))
  {
    var names := [p.host] + p.sans;
    var n', i' := FirstClaimedFound(certs, names);
    if Answers(certs, names, n, i) {
      assert Claims(certs[i], ToLower(names[n]));
      OneAnswers(certs, names, n, i, n', i');
    }
  }

  // -------------------------------------------------------------------- the index

  ghost predicate Represents(index: map<string, Entry>, certs: seq<Certificate>, latest: map<CertId, string>) {
    && (forall d :: d in index <==> LastClaim(certs, d).Some?)
    && (forall d :: d in index ==>
      var c := LastClaim(certs, d).value; index[d] == Entry(c.id, Fingerprint(latest, c.id)))
  }

  predicate AmongFirst(c: Certificate, k: nat, domain: string)
    requires k <= |c.sans|
  {
    exists i :: 0 <= i < k && ToLower(c.sans[i]) == domain
  }

  // What the index holds while the first k names of c are entered.
  ghost predicate PartlyEntered(index: map<string, Entry>, before: map<string, Entry>, c: Certificate, k: nat,
                                entry: Entry)
    requires k <= |c.sans|
  {
    forall d {:trigger AmongFirst(c, k, d)} {:trigger d in index} ::
      && (d in index <==> AmongFirst(c, k, d) || d in before)
      && (d in index ==> index[d] == if AmongFirst(c, k, d) then entry else before[d])
  }

  lemma EnterOne(index: map<string, Entry>, before: map<string, Entry>, c: Certificate, k: nat, entry: Entry)
    requires k < |c.sans| && PartlyEntered(index, before, c, k, entry)
    ensures PartlyEntered(index[ToLower(c.sans[k]) := entry], before, c, k + 1, entry)
  {
    var key := ToLower(c.sans[k]);
    forall d
      ensures AmongFirst(c, k + 1, d) <==> d == key || AmongFirst(c, k, d)
    {
      if d == key { assert ToLower(c.sans[k]) == d; }
    }
  }

  lemma EnteredAll(index: map<string, Entry>, before: map<string, Entry>, certs: seq<Certificate>, c: Certificate,
                   latest: map<CertId, string>)
    requires !c.revoked && Represents(before, certs, latest)
    requires PartlyEntered(index, before, c, |c.sans|, Entry(c.id, Fingerprint(latest, c.id)))
    ensures Represents(index, certs + [c], latest)
  {
    assert (certs + [c])[..|certs|] == certs;
    forall d ensures Claims(c, d) <==> AmongFirst(c, |c.sans|, d) {
    }
  }

  /** One pass over the inventory; later claims overwrite earlier ones. */
  method BuildInventoryIndex(certs: seq<Certificate>, latest: map<CertId, string>) returns (index: map<string, Entry>)
    ensures Represents(index, certs, latest)
  {
    index := map[];
    for n := 0 to |certs|
      invariant Represents(index, certs[..n], latest)
    {
      var c := certs[n];
      assert certs[..n + 1] == certs[..n] + [c];
      if c.revoked {
        assert forall d :: LastClaim(certs[..n] + [c], d) == LastClaim(certs[..n], d) by {
          assert (certs[..n] + [c])[..n] == certs[..n];
        }
        continue;
      }
      var entry := Entry(c.id, Fingerprint(latest, c.id));
      ghost var before := index;
      for k := 0 to |c.sans|
        invariant PartlyEntered(index, before, c, k, entry)
      {
        EnterOne(index, before, c, k, entry);
        index := index[ToLower(c.sans[k]) := entry];
      }
      EnteredAll(index, before, certs[..n], c, latest);
    }
    assert certs[..|certs|] == certs;
  }

  /** Looking a probe up in the index gives what the linear search gives, for
      every inventory and every probe. */
  method Reconcile(p: Probe, index: map<string, Entry>, ghost certs: seq<Certificate>,
                   ghost latest: map<CertId, string>)
    returns (v: Verdict)
    requires Represents(index, certs, latest)
    ensures v == Reconciled(certs, latest, p)
    ensures v.status == ProbePool.Unreachable <==> !p.reachable
    ensures v.status == ProbePool.NoTls <==> p.reachable && p.noTls
    ensures !p.reachable || p.noTls ==> v.matched == None
  {
    if !p.reachable {
      return Verdict(ProbePool.Unreachable, None);
    }
    if p.noTls {
      return Verdict(ProbePool.NoTls, None);
    }
    var found := if ToLower(p.host) in index then Some(index[ToLower(p.host)]) else None;
    assert ([p.host] + p.sans)[1..] == p.sans;
    if found.None? {
      var k := 0;
      while k < |p.sans|
        invariant 0 <= k <= |p.sans| && found.None?
        invariant FirstClaimed(certs, [p.host] + p.sans) == FirstClaimed(certs, p.sans[k..])
      {
        var san := ToLower(p.sans[k]);
        if san in index {
          found := Some(index[san]);
          break;
        }
        assert p.sans[k..][1..] == p.sans[k + 1..];
        k := k + 1;
      }
    }
    if found.None? {
      return Verdict(ProbePool.NotInInventory, None);
    }
    var entry := found.value;
    var same := entry.fingerprint != "" && entry.fingerprint == p.fingerprint;
    v := Verdict(if same then ProbePool.Matched else ProbePool.Mismatched,
                 Some(entry.certificateId));
  }
}
