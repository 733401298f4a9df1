// Turning the targets of a scan request into the hosts to probe.
module TargetExpansion {
  import opened Prelude
  import opened IpArithmetic

  const MAX_TARGETS_EXPANDED: nat := 20000

  // A target string as the standard parsers classify it.
  datatype RawTarget =
    | Blank
    | Cidr(text: string, ip: seq<Byte>, prefix: nat)
    | Address(text: string, ip: seq<Byte>)
    | Name(text: string)
  {
    predicate WellFormed() {
      && (Cidr? ==> (|ip| == 4 || |ip| == 16) && prefix <= 8 * |ip|)
      && (Address? ==> |ip| == 4 || |ip| == 16)
    }
  }

  type Target = t: RawTarget | t.WellFormed() witness Blank

  // An entry of the expanded list: a printed address or the input itself.
  datatype Host =
    | Enumerated(ip: seq<Byte>)
    | Literal(text: string, ip: seq<Byte>)
    | Named(text: string)

  datatype ExpandError = LinkLocalTarget | TooManyTargets

  // 169.254.0.0/16 and 224.0.0.0/24; fe80::/10 and ffx2::/16.
  predicate IsLinkLocal(ip: seq<Byte>) {
    if |ip| == 4 then
      (ip[0] == 169 && ip[1] == 254) || (ip[0] == 224 && ip[1] == 0 && ip[2] == 0)
    else if |ip| == 16 then
      (ip[0] == 0xfe && ip[1] / 64 == 2) || (ip[0] == 0xff && ip[1] % 16 == 2)
    else false
  }

  predicate Forbidden(h: Host) {
    !h.Named? && IsLinkLocal(h.ip)
  }

  // ---------------------------------------------------------------- the network

  function HostCount(t: Target): nat
    requires t.Cidr?
  {
    Pow(2, 8 * |t.ip| - t.prefix)
  }

  // The number of the first address of a network.
  function Base(t: Target): nat
    requires t.Cidr?
  {
    Value(t.ip) / HostCount(t) * HostCount(t)
  }

  lemma MulGroups(a: nat, b: nat, c: nat)
    ensures a * (b * c) == (a * b) * c
  {
  }

  lemma {:induction false} PowMul(base: nat, a: nat, b: nat)
    ensures Pow(base, a + b) == Pow(base, a) * Pow(base, b)
  {
    if a == 0 {
    } else {
      PowMul(base, a - 1, b);
      assert Pow(base, a + b) == base * Pow(base, a - 1 + b);
      assert Pow(base, a) == base * Pow(base, a - 1);
      MulGroups(base, Pow(base, a - 1), Pow(base, b));
    }
  }

  lemma {:induction false} BytesAreBits(n: nat)
    ensures Pow(256, n) == Pow(2, 8 * n)
  {
    if n == 0 {
    } else {
      BytesAreBits(n - 1);
      PowSplit(8 * n);
    }
  }

  // The address space splits into 2^prefix networks of equal size.
  lemma SpaceSplits(t: Target)
    requires t.Cidr?
    ensures Pow(256, |t.ip|) == Pow(2, t.prefix) * HostCount(t)
  {
    BytesAreBits(|t.ip|);
    PowMul(2, t.prefix, 8 * |t.ip| - t.prefix);
  }

  lemma BlockFits(v: nat, size: nat, blocks: nat)
    requires size > 0 && v < blocks * size
    ensures v / size * size + size <= blocks * size
  {
    assert (v / size + 1) * size == v / size * size + size;
    NoPartialBlock(v / size + 1, blocks, size);
  }

  lemma NoPartialBlock(a: nat, b: nat, size: nat)
    requires a > 0 && (a - 1) * size < b * size
    ensures a * size <= b * size
  {
    if a > b {
      MulMonotone(b, a - 1, size);
    } else {
      MulMonotone(a, b, size);
    }
  }

  lemma MulMonotone(a: nat, b: nat, m: nat)
    requires a <= b
    ensures a * m <= b * m
  {
  }

  lemma NetworkFits(t: Target)
    requires t.Cidr?
    ensures Base(t) + HostCount(t) <= Pow(256, |t.ip|)
  {
    SpaceSplits(t);
    ValueFits(t.ip);
    BlockFits(Value(t.ip), HostCount(t), Pow(2, t.prefix));
  }

  lemma InBlock(v: nat, base: nat, size: nat, q: nat)
    requires size > 0 && base == q * size
    ensures v / size == q <==> base <= v < base + size
  {
    if base <= v < base + size {
      DivIs(v, size, q, v - base);
    }
  }

  /** An address belongs to the network iff its number is one of the 2^h that
      start at the masked address. */
  lemma ContainsIffInRange(t: Target, s: seq<Byte>)
    requires t.Cidr? && |s| == |t.ip|
    ensures Contains(t.ip, t.prefix, s) <==> Base(t) <= Value(s) < Base(t) + HostCount(t)
  {
    ContainsIff(t.ip, t.prefix, s);
    InBlock(Value(s), Base(t), HostCount(t), Value(t.ip) / HostCount(t));
  }

  lemma AtLeastTwice(a: nat, b: nat)
    requires a >= 2
    ensures a * b >= 2 * b
  {
  }

  lemma PrefixIsEven(prefix: nat)
    requires prefix > 0
    ensures Pow(2, prefix) >= 2
  {
    assert Pow(2, prefix) == 2 * Pow(2, prefix - 1);
  }

  lemma TimesOne(a: nat, b: nat)
    requires a == 1
    ensures a * b == b
  {
  }

  // Only a /0 fills the address space, and it does so from zero.
  lemma WholeSpace(t: Target)
    requires t.Cidr? && t.prefix == 0
    ensures Base(t) == 0 && HostCount(t) == Pow(256, |t.ip|)
  {
    SpaceSplits(t);
    TimesOne(Pow(2, t.prefix), HostCount(t));
    NetworkFits(t);
  }

  lemma PartOfSpace(t: Target)
    requires t.Cidr? && t.prefix > 0
    ensures HostCount(t) < Pow(256, |t.ip|)
  {
    SpaceSplits(t);
    PrefixIsEven(t.prefix);
    AtLeastTwice(Pow(2, t.prefix), HostCount(t));
  }

  /** After the last address of a network, counting on leaves the network, also
      where it wraps around, unless the network is the whole space. */
  lemma CountingLeavesNetwork(t: Target, last: seq<Byte>)
    requires t.Cidr? && |last| == |t.ip| && Value(last) + 1 == Base(t) + HostCount(t)
    ensures Contains(t.ip, t.prefix, Successor(last)) <==> t.prefix == 0
  {
    var next := Successor(last);
    SuccessorCounts(last);
    ContainsIffInRange(t, next);
    if t.prefix == 0 { WholeSpace(t); } else { PartOfSpace(t); }
    NetworkFits(t);
  }

  // ---------------------------------------------------------- what is asked for

  ghost function Enumeration(t: Target): (hosts: seq<Host>)
    requires t.Cidr?
    ensures |hosts| == HostCount(t)
  {
    seq(HostCount(t), i requires 0 <= i < HostCount(t) => Enumerated(Bytes(|t.ip|, Base(t) + i)))
  }

  lemma EnumerationAt(t: Target, i: nat)
    requires t.Cidr? && i < HostCount(t)
    ensures Enumeration(t)[i] == Enumerated(Bytes(|t.ip|, Base(t) + i))
  {
  }

  lemma EnumerationCounts(t: Target, i: nat)
    requires t.Cidr? && i < HostCount(t)
    ensures var ip := Enumeration(t)[i].ip; |ip| == |t.ip| && Value(ip) == Base(t) + i
  {
    EnumerationAt(t, i);
    NetworkFits(t);
    ValueOfBytes(|t.ip|, Base(t) + i);
  }

  /** In increasing order, every address of the network, and no other. */
  lemma EnumerationIsTheNetwork(t: Target, s: seq<Byte>)
    requires t.Cidr? && |s| == |t.ip|
    ensures Contains(t.ip, t.prefix, s) <==> exists i :: 0 <= i < HostCount(t) && Enumeration(t)[i] == Enumerated(s)
    ensures forall i, j :: 0 <= i < j < HostCount(t) ==> Value(Enumeration(t)[i].ip) < Value(Enumeration(t)[j].ip)
  {
    ContainsIffInRange(t, s);
    forall i | 0 <= i < HostCount(t) ensures Value(Enumeration(t)[i].ip) == Base(t) + i {
      EnumerationCounts(t, i);
    }
    if Contains(t.ip, t.prefix, s) {
      var i := Value(s) - Base(t);
      BytesOfValue(s);
      assert Enumeration(t)[i] == Enumerated(s);
    }
  }

  ghost function Expansion(t: Target): seq<Host> {
    match t
    case Blank => []
    case Cidr(_, _, _) => Enumeration(t)
    case Address(text, ip) => [Literal(text, ip)]
    case Name(text) => [Named(text)]
  }

  // The whole request, in order, without any limit.
  ghost function AllHosts(targets: seq<Target>): seq<Host> {
    if targets == [] then [] else AllHosts(targets[..|targets| - 1]) + Expansion(targets[|targets| - 1])
  }

  // Which hosts a target stands for, told from the target alone.
  predicate Means(t: Target, h: Host) {
    match h
    case Named(text) => t == Name(text)
    case Literal(text, ip) => t == Address(text, ip)
    case Enumerated(ip) => t.Cidr? && |ip| == |t.ip| && Contains(t.ip, t.prefix, ip)
  }

  ghost predicate AskedFor(targets: seq<Target>, h: Host) {
    exists i :: 0 <= i < |targets| && Means(targets[i], h)
  }

  lemma InExpansion(t: Target, h: Host)
    ensures h in Expansion(t) <==> Means(t, h)
  {
    if t.Cidr? {
      if h.Enumerated? && |h.ip| == |t.ip| { EnumerationIsTheNetwork(t, h.ip); }
      if h in Enumeration(t) {
        var i :| 0 <= i < HostCount(t) && Enumeration(t)[i] == h;
        EnumerationCounts(t, i);
        EnumerationAt(t, i);
      }
    }
  }

  /** A host is in the list exactly if some target of the request names it, is
      its address or is a network that contains it. */
  lemma {:induction false} InAllHosts(targets: seq<Target>, h: Host)
    ensures h in AllHosts(targets) <==> AskedFor(targets, h)
  {
    if targets != [] {
      var n := |targets| - 1;
      InAllHosts(targets[..n], h);
      InExpansion(targets[n], h);
      assert AskedFor(targets, h) <==> AskedFor(targets[..n], h) || Means(targets[n], h) by {
        if AskedFor(targets[..n], h) {
          var i :| 0 <= i < n && Means(targets[..n][i], h);
          assert Means(targets[i], h);
        }
        if AskedFor(targets, h) && !Means(targets[n], h) {
          var i :| 0 <= i <= n && Means(targets[i], h);
          assert Means(targets[..n][i], h);
        }
      }
    }
  }

  function Size(t: Target): nat {
    match t
    case Blank => 0
    case Cidr(_, ip, prefix) => Pow(2, 8 * |ip| - prefix)
    case _ => 1
  }

  function Sizes(targets: seq<Target>): nat {
    if targets == [] then 0 else Sizes(targets[..|targets| - 1]) + Size(targets[|targets| - 1])
  }

  /** The two families' link-local networks, unicast and multicast. */
  lemma LinkLocalIff(ip: seq<Byte>)
    requires |ip| == 4 || |ip| == 16
    ensures |ip| == 4 ==> (IsLinkLocal(ip) <==>
                           Contains([169, 254, 0, 0], 16, ip) || Contains([224, 0, 0, 0], 24, ip))
    ensures |ip| == 16 ==> (IsLinkLocal(ip) <==>
                            || Contains([0xfe, 0x80, 0, 0, 0, 0, 0, 0, 0, 0, 0, 0, 0, 0, 0, 0], 10, ip)
                            || (ip[0] == 0xff && ip[1] % 16 == 2))
  {
  }

  lemma {:induction false} AllHostsPrefix(targets: seq<Target>, i: nat)
    requires i <= |targets|
    ensures AllHosts(targets[..i]) <= AllHosts(targets)
    decreases |targets| - i
  {
    if i == |targets| {
      assert targets[..i] == targets;
    } else {
      assert targets[..i + 1][..i] == targets[..i];
      AllHostsPrefix(targets, i + 1);
    }
  }

  lemma {:induction false} SizesAddUp(targets: seq<Target>)
    ensures |AllHosts(targets)| == Sizes(targets)
  {
    if targets != [] { SizesAddUp(targets[..|targets| - 1]); }
  }

  /** Every target contributes its own hosts, after those of the targets before
      it: they begin at the sum of the sizes before it. */
  lemma HostsInOrder(targets: seq<Target>, i: nat, k: nat)
    requires i < |targets| && k < Size(targets[i])
    ensures Sizes(targets[..i]) + k < |AllHosts(targets)|
    ensures Means(targets[i], AllHosts(targets)[Sizes(targets[..i]) + k])
  {
    var before, own := AllHosts(targets[..i]), Expansion(targets[i]);
    SizesAddUp(targets[..i]);
    assert targets[..i + 1][..i] == targets[..i];
    AllHostsPrefix(targets, i + 1);
    assert AllHosts(targets[..i + 1]) == before + own;
    InPlace(AllHosts(targets), before, own, k);
    InExpansion(targets[i], own[k]);
  }

  lemma InPlace(all: seq<Host>, before: seq<Host>, own: seq<Host>, k: nat)
    requires before + own <= all && k < |own|
    ensures |before| + k < |all| && all[|before| + k] == own[k]
  {
    assert (before + own)[|before| + k] == own[k];
  }

  // ------------------------------------------------------------------ the method

  predicate Acceptable(all: seq<Host>) {
    |all| <= MAX_TARGETS_EXPANDED && forall h :: h in all ==> !Forbidden(h)
  }

  // A forbidden host is met before the list grows past the limit.
  ghost predicate ForbiddenFirst(all: seq<Host>) {
    exists i :: 0 <= i < |all| && i <= MAX_TARGETS_EXPANDED && Forbidden(all[i])
  }

  /** Expands the targets, refusing exactly the requests that name a link-local
      address or more than 20000 hosts, however large the ranges are. */
  method ExpandTargets(inputs: seq<Target>) returns (r: Result<seq<Host>, ExpandError>)
    ensures r.Ok? <==> Acceptable(AllHosts(inputs))
    ensures r.Ok? ==> r.value == AllHosts(inputs) && |r.value| == Sizes(inputs)
    ensures r.Ok? ==> forall h :: h in r.value <==> AskedFor(inputs, h)
    ensures r.Err? ==> (r.error == LinkLocalTarget <==> ForbiddenFirst(AllHosts(inputs)))
  {
    var out: seq<Host> := [];
    for i := 0 to |inputs|
      invariant out == AllHosts(inputs[..i]) && Acceptable(out)
    {
      ghost var all := AllHosts(inputs);
      AllHostsPrefix(inputs, i);
      AllHostsPrefix(inputs, i + 1);
      assert inputs[..i + 1][..i] == inputs[..i];
      assert AllHosts(inputs[..i + 1]) == out + Expansion(inputs[i]);
      var t := inputs[i];
      match t
      case Blank =>
      case Cidr(_, ip, prefix) =>
        var ok, more := ExpandNetwork(t, out, all);
        if ok.None? { return Err(more); }
        out := ok.value;
      case Address(text, ip) =>
        StopAt(out, Literal(text, ip), all);
        if IsLinkLocal(ip) { return Err(LinkLocalTarget); }
        out := out + [Literal(text, ip)];
        if |out| > MAX_TARGETS_EXPANDED { return Err(TooManyTargets); }
      case Name(text) =>
        StopAt(out, Named(text), all);
        out := out + [Named(text)];
        if |out| > MAX_TARGETS_EXPANDED { return Err(TooManyTargets); }
    }
    assert inputs[..|inputs|] == inputs;
    SizesAddUp(inputs);
    forall h ensures h in out <==> AskedFor(inputs, h) { InAllHosts(inputs, h); }
    r := Ok(out);
  }

  // The scanner's address after k steps over a network.
  ghost predicate Reached(t: Target, k: nat, s: seq<Byte>)
    requires t.Cidr?
  {
    && |s| == |t.ip| && k <= HostCount(t)
    && (k < HostCount(t) ==> Value(s) == Base(t) + k)
    && (Contains(t.ip, t.prefix, s) <==> k < HostCount(t) || t.prefix == 0)
  }

  lemma StartOfNetwork(t: Target)
    requires t.Cidr?
    ensures Reached(t, 0, Mask(t.ip, t.prefix))
  {
    MaskRoundsDown(t.ip, t.prefix);
    ContainsIffInRange(t, Mask(t.ip, t.prefix));
  }

  lemma StepThroughNetwork(t: Target, k: nat, s: seq<Byte>)
    requires t.Cidr? && Reached(t, k, s) && k < HostCount(t)
    ensures Reached(t, k + 1, Successor(s))
  {
    SuccessorCounts(s);
    NetworkFits(t);
    if k + 1 == HostCount(t) {
      CountingLeavesNetwork(t, s);
    } else {
      ContainsIffInRange(t, Successor(s));
    }
  }

  // What has been listed of a network is what was asked for so far.
  ghost predicate Listed(t: Target, k: nat, before: seq<Host>, out: seq<Host>)
    requires t.Cidr?
  {
    k <= HostCount(t) && out == before + Enumeration(t)[..k] && Acceptable(out)
  }

  lemma ListNext(t: Target, k: nat, s: seq<Byte>, before: seq<Host>, out: seq<Host>, all: seq<Host>)
    requires t.Cidr? && Reached(t, k, s) && k < HostCount(t)
    requires Listed(t, k, before, out) && before + Enumeration(t) <= all
    ensures out + [Enumerated(s)] <= all
    ensures Acceptable(out + [Enumerated(s)]) ==> Listed(t, k + 1, before, out + [Enumerated(s)])
  {
    BytesOfValue(s);
    assert Enumeration(t)[k] == Enumerated(s);
    assert Enumeration(t)[..k + 1] == Enumeration(t)[..k] + [Enumerated(s)];
    assert (before + Enumeration(t))[..|out| + 1] == out + [Enumerated(s)];
  }

  // Stopping at host h, after the acceptable list out, is justified.
  lemma StopAt(out: seq<Host>, h: Host, all: seq<Host>)
    requires Acceptable(out) && out + [h] <= all
    ensures Forbidden(h) ==> !Acceptable(all) && ForbiddenFirst(all)
    ensures !Forbidden(h) && |out| == MAX_TARGETS_EXPANDED ==> !Acceptable(all) && !ForbiddenFirst(all)
  {
    assert all[|out|] == h;
    assert forall i :: 0 <= i < |out| ==> all[i] == out[i];
  }

  // The inner loop, over one network; `all` is what the request asks for.
  method ExpandNetwork(t: Target, before: seq<Host>, ghost all: seq<Host>)
    returns (r: Option<seq<Host>>, e: ExpandError)
    requires t.Cidr? && Acceptable(before) && before + Enumeration(t) <= all
    ensures r.Some? ==> r.value == before + Enumeration(t) && Acceptable(r.value)
    ensures r.None? ==> !Acceptable(all) && (e == LinkLocalTarget <==> ForbiddenFirst(all))
  {
    e := TooManyTargets;
    var out := before;
    var masked := Mask(t.ip, t.prefix);
    var cur := new Byte[|masked|](i requires 0 <= i < |masked| => masked[i]);
    assert cur[..] == masked;
    StartOfNetwork(t);
    ghost var k := 0;
    while Contains(t.ip, t.prefix, cur[..])
      invariant fresh(cur) && Reached(t, k, cur[..]) && Listed(t, k, before, out)
      decreases MAX_TARGETS_EXPANDED - |out|
    {
      if k == HostCount(t) {
        WholeSpaceIsTooMany(t);
        assert false;
      }
      var host := Enumerated(cur[..]);
      ListNext(t, k, cur[..], before, out, all);
      StopAt(out, host, all);
      if IsLinkLocal(cur[..]) {
        return None, LinkLocalTarget;
      }
      out := out + [host];
      if |out| > MAX_TARGETS_EXPANDED {
        return None, TooManyTargets;
      }
      StepThroughNetwork(t, k, cur[..]);
      cur := DupIP(cur);
      IncIP(cur);
      k := k + 1;
    }
    assert Enumeration(t)[..k] == Enumeration(t);
    r := Some(out);
  }

  // A /0 has far more addresses than the limit.
  lemma WholeSpaceIsTooMany(t: Target)
    requires t.Cidr? && t.prefix == 0
    ensures HostCount(t) > MAX_TARGETS_EXPANDED
  {
    SpaceSplits(t);
    assert Pow(2, 0) == 1;
    PowMul(256, 4, |t.ip| - 4);
    assert Pow(256, 4) == 256 * Pow(256, 3) && Pow(256, 3) == 256 * Pow(256, 2) && Pow(256, 2) == 256 * Pow(256, 1);
    assert Pow(256, 4) * Pow(256, |t.ip| - 4) >= Pow(256, 4);
  }
}
