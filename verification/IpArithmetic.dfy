// IP addresses as byte strings: counting, masks and the numbers they stand for.
module IpArithmetic {

  type Byte = b: int | 0 <= b < 256

  function Pow(base: nat, n: nat): (p: nat)
    ensures base > 0 ==> p > 0
  {
    if n == 0 then 1
    else
      var rest := Pow(base, n - 1);
      assert base > 0 ==> base * rest > 0;
      base * rest
  }

  // The number an address stands for, most significant byte first.
  function Value(s: seq<Byte>): nat {
    if s == [] then 0 else Value(s[..|s| - 1]) * 256 + s[|s| - 1]
  }

  function Bytes(n: nat, v: nat): (s: seq<Byte>)
    ensures |s| == n
  {
    if n == 0 then [] else Bytes(n - 1, v / 256) + [v % 256]
  }

  lemma {:induction false} ValueFits(s: seq<Byte>)
    ensures Value(s) < Pow(256, |s|)
  {
    if s == [] {
    } else {
      ValueFits(s[..|s| - 1]);
    }
  }

  lemma {:induction false} BytesOfValue(s: seq<Byte>)
    ensures Bytes(|s|, Value(s)) == s
  {
    if s == [] {
    } else {
      BytesOfValue(s[..|s| - 1]);
    }
  }

  lemma {:induction false} ValueOfBytes(n: nat, v: nat)
    requires v < Pow(256, n)
    ensures Value(Bytes(n, v)) == v
  {
    if n == 0 {
    } else {
      ValueOfBytes(n - 1, v / 256);
      assert Bytes(n, v)[..n - 1] == Bytes(n - 1, v / 256);
    }
  }

  lemma ValueIsInjective(a: seq<Byte>, b: seq<Byte>)
    requires |a| == |b| && Value(a) == Value(b)
    ensures a == b
  {
    BytesOfValue(a);
    BytesOfValue(b);
  }

  // ------------------------------------------------------------------- counting

  // The successor, with the carry running from the last byte to the front.
  function Successor(s: seq<Byte>): (t: seq<Byte>)
    ensures |t| == |s|
  {
    if s == [] then []
    else
      var front, last := s[..|s| - 1], s[|s| - 1];
      if last < 255 then front + [last + 1] else Successor(front) + [0]
  }

  lemma {:induction false} SuccessorCounts(s: seq<Byte>)
    ensures if Value(s) + 1 == Pow(256, |s|) then Value(Successor(s)) == 0 else Value(Successor(s)) == Value(s) + 1
  {
    if s == [] {
    } else {
      var front, last := s[..|s| - 1], s[|s| - 1];
      ValueFits(front);
      if last < 255 {
        assert Successor(s)[..|s| - 1] == front;
      } else {
        assert Successor(s)[..|s| - 1] == Successor(front);
        SuccessorCounts(front);
      }
    }
  }

  lemma ModOf(v: nat, size: nat)
    requires 0 < v <= size
    ensures v % size == if v == size then 0 else v
  {
  }

  /** Counting is addition modulo the size of the address space. */
  lemma SuccessorAddsOne(s: seq<Byte>)
    ensures Value(Successor(s)) == (Value(s) + 1) % Pow(256, |s|)
  {
    ValueFits(s);
    ModOf(Value(s) + 1, Pow(256, |s|));
    SuccessorCounts(s);
  }

  // The carry has reached byte n: `tail` is final, the bytes before it still count.
  predicate Carried(was: seq<Byte>, n: nat, tail: seq<Byte>) {
    n <= |was| && Successor(was) == Successor(was[..n]) + tail
  }

  // A byte below 255 takes the carry in.
  lemma CarryEnds(was: seq<Byte>, n: nat, tail: seq<Byte>)
    requires 0 < n && Carried(was, n, tail) && was[n - 1] < 255
    ensures Successor(was) == was[..n - 1] + ([was[n - 1] + 1] + tail)
  {
    var front := was[..n];
    assert front[..n - 1] == was[..n - 1];
    assert (was[..n - 1] + [was[n - 1] + 1]) + tail == was[..n - 1] + ([was[n - 1] + 1] + tail);
  }

  // A byte of 255 passes it on.
  lemma CarryGoesOn(was: seq<Byte>, n: nat, tail: seq<Byte>)
    requires 0 < n && Carried(was, n, tail) && was[n - 1] == 255
    ensures Carried(was, n - 1, [0] + tail)
  {
    var front := was[..n];
    assert front[..n - 1] == was[..n - 1];
    assert (Successor(was[..n - 1]) + [0]) + tail == Successor(was[..n - 1]) + ([0] + tail);
  }

  /** Adds one in place, as the scanner does between two probes. */
  method IncIP(ip: array<Byte>)
    modifies ip
    ensures ip[..] == Successor(old(ip[..]))
  {
    ghost var was, tail: seq<Byte> := ip[..], [];
    var i := ip.Length - 1;
    assert was[..ip.Length] == was;
    while i >= 0
      invariant -1 <= i < ip.Length
      invariant ip[..] == was[..i + 1] + tail
      invariant Carried(was, i + 1, tail)
    {
      assert ip[i] == ip[..][i] == was[i];
      ip[i] := if ip[i] == 255 then 0 else ip[i] + 1;
      assert ip[..] == was[..i] + ([ip[i]] + tail);
      if ip[i] != 0 {
        CarryEnds(was, i + 1, tail);
        return;
      }
      CarryGoesOn(was, i + 1, tail);
      tail := [0] + tail;
      i := i - 1;
    }
  }

  method DupIP(ip: array<Byte>) returns (dup: array<Byte>)
    ensures fresh(dup) && dup[..] == ip[..]
  {
    dup := new Byte[ip.Length](i requires 0 <= i < ip.Length reads ip => ip[i]);
  }

  // ---------------------------------------------------------------------- masks

  // How many low bits of byte i the mask of a prefix clears.
  function HostBits(i: nat, prefix: nat): (k: nat)
    ensures k <= 8
  {
    if 8 * (i + 1) <= prefix then 0 else if 8 * (i + 1) - prefix >= 8 then 8 else 8 * (i + 1) - prefix
  }

  function ClearLow(b: Byte, k: nat): Byte
    requires k <= 8
  {
    match k
    case 0 => b
    case 1 => b / 2 * 2
    case 2 => b / 4 * 4
    case 3 => b / 8 * 8
    case 4 => b / 16 * 16
    case 5 => b / 32 * 32
    case 6 => b / 64 * 64
    case 7 => b / 128 * 128
    case 8 => 0
  }

  function Mask(s: seq<Byte>, prefix: nat): (t: seq<Byte>)
    ensures |t| == |s|
  {
    seq(|s|, i requires 0 <= i < |s| => ClearLow(s[i], HostBits(i, prefix)))
  }

  // Byte by byte comparison under the mask.
  predicate Contains(net: seq<Byte>, prefix: nat, s: seq<Byte>) {
    && |s| == |net|
    && forall i :: 0 <= i < |s| ==>
         ClearLow(net[i], HostBits(i, prefix)) == ClearLow(s[i], HostBits(i, prefix))
  }

  lemma Regroup(q: nat, c: nat, r: nat, b: nat, t: nat)
    ensures (q * c + r) * b + t == q * (b * c) + (r * b + t)
  {
    assert (q * c + r) * b == q * c * b + r * b;
    assert q * c * b == q * (b * c);
  }

  lemma RestBelow(r: nat, c: nat, t: nat, b: nat)
    requires r < c && t < b
    ensures 0 < b * c && r * b + t < b * c
  {
    assert (c - 1 - r) * b >= 0;
    assert (c - 1 - r) * b == b * c - b - r * b;
  }

  lemma Divide(a: nat, m: nat) returns (q: nat, r: nat)
    requires m > 0
    ensures a == q * m + r && r < m && q == a / m
  {
    q, r := a / m, a % m;
  }

  lemma DivDiv(a: nat, b: nat, c: nat)
    requires b > 0 && c > 0
    ensures b * c > 0 && a / (b * c) == a / b / c
  {
    var d, t := Divide(a, b);
    var q, r := Divide(d, c);
    Regroup(q, c, r, b, t);
    RestBelow(r, c, t, b);
    DivIs(a, b * c, q, r * b + t);
  }

  lemma DivIs(a: nat, m: nat, q: nat, r: nat)
    requires m > 0 && a == q * m + r && r < m
    ensures a / m == q
  {
    assert (q - a / m) * m == a % m - r;
    NoMultipleBetween(q - a / m, m);
  }

  lemma NoMultipleBetween(d: int, m: int)
    requires -m < d * m < m
    ensures d == 0
  {
  }

  lemma {:induction false} PowSplit(h: nat)
    requires h >= 8
    ensures Pow(2, h) == 256 * Pow(2, h - 8)
  {
    assert Pow(2, h) == 2 * Pow(2, h - 1) == 4 * Pow(2, h - 2);
    assert Pow(2, h - 2) == 2 * Pow(2, h - 3) == 4 * Pow(2, h - 4);
    assert Pow(2, h - 4) == 2 * Pow(2, h - 5) == 4 * Pow(2, h - 6);
    assert Pow(2, h - 6) == 2 * Pow(2, h - 7) == 4 * Pow(2, h - 8);
  }

  lemma SmallPow(h: nat)
    requires h < 8
    ensures Pow(2, h) == [1, 2, 4, 8, 16, 32, 64, 128][h]
  {
    if h > 0 { assert Pow(2, h) == 2 * Pow(2, h - 1); }
    if h > 1 { assert Pow(2, h - 1) == 2 * Pow(2, h - 2); }
    if h > 2 { assert Pow(2, h - 2) == 2 * Pow(2, h - 3); }
    if h > 3 { assert Pow(2, h - 3) == 2 * Pow(2, h - 4); }
    if h > 4 { assert Pow(2, h - 4) == 2 * Pow(2, h - 5); }
    if h > 5 { assert Pow(2, h - 5) == 2 * Pow(2, h - 6); }
    if h > 6 { assert Pow(2, h - 6) == 2 * Pow(2, h - 7); }
  }

  lemma RoundWholeByte(v: nat, front: nat, last: Byte, size: nat, small: nat)
    requires v == front * 256 + last && small > 0 && size == 256 * small
    ensures v / size * size == front / small * small * 256
  {
    DivDiv(v, 256, small);
    DivIs(v, 256, front, last);
    assert v / size == front / small;
  }

  lemma SplitBySize(front: nat, last: Byte, size: nat, many: nat)
    requires size > 0 && size * many == 256
    ensures (front * many + last / size) * size == front * 256 + last / size * size
  {
    assert front * many * size == front * (size * many);
  }

  lemma RoundBy(v: nat, front: nat, last: Byte, size: nat, many: nat)
    requires v == front * 256 + last && size > 0 && size * many == 256
    ensures v / size * size == front * 256 + last / size * size
  {
    SplitBySize(front, last, size, many);
    DivIs(v, size, front * many + last / size, last % size);
  }

  lemma RoundPartOfByte(v: nat, front: nat, last: Byte, h: nat)
    requires v == front * 256 + last && h < 8
    ensures var size := Pow(2, h); v / size * size == front * 256 + ClearLow(last, h)
  {
    SmallPow(h);
    RoundBy(v, front, last, Pow(2, h), [256, 128, 64, 32, 16, 8, 4, 2][h]);
  }

  lemma ValueAppend(front: seq<Byte>, last: Byte)
    ensures Value(front + [last]) == Value(front) * 256 + last
  {
    assert (front + [last])[..|front|] == front;
  }

  // With more than a byte of host bits the mask clears the last byte.
  lemma MaskWholeByte(front: seq<Byte>, last: Byte, prefix: nat)
    requires prefix + 8 <= 8 * (|front| + 1)
    ensures Mask(front + [last], prefix) == Mask(front, prefix) + [0]
  {
  }

  // With less it clears part of the last byte only.
  lemma MaskPartOfByte(front: seq<Byte>, last: Byte, prefix: nat, h: nat)
    requires h < 8 && prefix + h == 8 * (|front| + 1)
    ensures Mask(front + [last], prefix) == front + [ClearLow(last, h)]
  {
  }

  lemma WholeByteRoundsDown(front: seq<Byte>, last: Byte, prefix: nat, h: nat)
    requires h >= 8 && prefix + h == 8 * (|front| + 1)
    requires Value(Mask(front, prefix)) == Value(front) / Pow(2, h - 8) * Pow(2, h - 8)
    ensures Value(Mask(front + [last], prefix)) == Value(front + [last]) / Pow(2, h) * Pow(2, h)
  {
    MaskWholeByte(front, last, prefix);
    ValueAppend(Mask(front, prefix), 0);
    ValueAppend(front, last);
    PowSplit(h);
    RoundWholeByte(Value(front + [last]), Value(front), last, Pow(2, h), Pow(2, h - 8));
  }

  lemma PartOfByteRoundsDown(front: seq<Byte>, last: Byte, prefix: nat, h: nat)
    requires h < 8 && prefix + h == 8 * (|front| + 1)
    ensures Value(Mask(front + [last], prefix)) == Value(front + [last]) / Pow(2, h) * Pow(2, h)
  {
    MaskPartOfByte(front, last, prefix, h);
    ValueAppend(front, ClearLow(last, h));
    ValueAppend(front, last);
    RoundPartOfByte(Value(front + [last]), Value(front), last, h);
  }

  /** Masking with a prefix rounds the number down to a multiple of two to the
      number of host bits. */
  lemma {:induction false} MaskRoundsDown(s: seq<Byte>, prefix: nat)
    requires prefix <= 8 * |s|
    ensures var size := Pow(2, 8 * |s| - prefix); Value(Mask(s, prefix)) == Value(s) / size * size
  {
    if s == [] {
    } else {
      var n := |s| - 1;
      var h := 8 * |s| - prefix;
      assert s == s[..n] + [s[n]];
      if h >= 8 {
        MaskRoundsDown(s[..n], prefix);
        WholeByteRoundsDown(s[..n], s[n], prefix, h);
      } else {
        PartOfByteRoundsDown(s[..n], s[n], prefix, h);
      }
    }
  }

  lemma SameMultiple(a: nat, b: nat, m: nat)
    requires m > 0
    ensures a * m == b * m <==> a == b
  {
    assert a * m - b * m == (a - b) * m;
    if a * m == b * m { NoMultipleBetween(a - b, m); }
  }

  lemma SameRounding(a: nat, b: nat, m: nat)
    requires m > 0
    ensures a / m * m == b / m * m <==> a / m == b / m
  {
    SameMultiple(a / m, b / m, m);
  }

  lemma ContainsIffMasksAgree(net: seq<Byte>, prefix: nat, s: seq<Byte>)
    requires |s| == |net|
    ensures Contains(net, prefix, s) <==> Mask(net, prefix) == Mask(s, prefix)
  {
    if Mask(net, prefix) == Mask(s, prefix) {
      forall i | 0 <= i < |s| ensures ClearLow(net[i], HostBits(i, prefix)) == ClearLow(s[i], HostBits(i, prefix)) {
        assert Mask(net, prefix)[i] == Mask(s, prefix)[i];
      }
    }
  }

  lemma MasksAgreeIff(a: seq<Byte>, b: seq<Byte>)
    requires |a| == |b|
    ensures a == b <==> Value(a) == Value(b)
  {
    if Value(a) == Value(b) {
      ValueIsInjective(a, b);
    }
  }

  /** Membership in a network is agreement of the numbers above the host bits. */
  lemma ContainsIff(net: seq<Byte>, prefix: nat, s: seq<Byte>)
    requires |s| == |net| && prefix <= 8 * |net|
    ensures var size := Pow(2, 8 * |net| - prefix); Contains(net, prefix, s) <==> Value(s) / size == Value(net) / size
  {
    ContainsIffMasksAgree(net, prefix, s);
    MasksAgreeIff(Mask(net, prefix), Mask(s, prefix));
    MaskRoundsDown(net, prefix);
    MaskRoundsDown(s, prefix);
    SameRounding(Value(s), Value(net), Pow(2, 8 * |net| - prefix));
  }
}
