// The stateless state token of the OIDC login: a timestamp and its MAC.
module OidcState {
  import opened Prelude

  type Byte = b: int | 0 <= b < 256
  type Sextet = v: int | 0 <= v < 64
  type Time = int                      // nanoseconds since the epoch

  const SECOND: int := 1_000_000_000
  const MAX_AGE: int := 10 * 60 * SECOND
  const MIN_INT64: int := -0x8000_0000_0000_0000
  const MAX_INT64: int := 0x7fff_ffff_ffff_ffff

  // --------------------------------------- base64url without padding (RFC 4648)

  function Symbol(v: Sextet): char {
    if v < 26 then ('A' as int + v) as char
    else if v < 52 then ('a' as int + (v - 26)) as char
    else if v < 62 then ('0' as int + (v - 52)) as char
    else if v == 62 then '-' else '_'
  }

  function SymbolValue(c: char): Option<Sextet> {
    if 'A' <= c <= 'Z' then Some(c as int - 'A' as int)
    else if 'a' <= c <= 'z' then Some(c as int - 'a' as int + 26)
    else if '0' <= c <= '9' then Some(c as int - '0' as int + 52)
    else if c == '-' then Some(62) else if c == '_' then Some(63) else None
  }

  lemma SymbolReadsBack(v: Sextet)
    ensures SymbolValue(Symbol(v)) == Some(v)
    ensures Symbol(v) != '.' && Symbol(v) != '\r' && Symbol(v) != '\n'
  {
  }

  // Table 2 of RFC 4648: A to Z, a to z, 0 to 9, and two more.
  lemma SymbolsAreTheAlphabet(v: Sextet, c: char)
    ensures Symbol(0) == 'A' && Symbol(25) == 'Z' && Symbol(26) == 'a' && Symbol(51) == 'z'
    ensures Symbol(52) == '0' && Symbol(61) == '9' && Symbol(62) == '-' && Symbol(63) == '_'
    ensures v !in {25, 51, 61, 62, 63} ==> Symbol(v + 1) as int == Symbol(v) as int + 1
    ensures SymbolValue(c) == Some(v) <==> c == Symbol(v)
  {
  }

  function OneByte(a: Byte): string { [Symbol(a / 4), Symbol(a % 4 * 16)] }

  function TwoBytes(a: Byte, b: Byte): string { [Symbol(a / 4), Symbol(a % 4 * 16 + b / 16), Symbol(b % 16 * 4)] }

  function ThreeBytes(a: Byte, b: Byte, c: Byte): string {
    [Symbol(a / 4), Symbol(a % 4 * 16 + b / 16), Symbol(b % 16 * 4 + c / 64), Symbol(c % 64)]
  }

  function Encode(s: seq<Byte>): string {
    if s == [] then ""
    else if |s| == 1 then OneByte(s[0])
    else if |s| == 2 then TwoBytes(s[0], s[1])
    else ThreeBytes(s[0], s[1], s[2]) + Encode(s[3..])
  }

  // The decoder skips line breaks and ignores the unused bits at the end.
  function WithoutBreaks(s: string): string {
    if s == "" then "" else (if s[0] == '\r' || s[0] == '\n' then "" else [s[0]]) + WithoutBreaks(s[1..])
  }

  predicate IsBreak(c: char) { c == '\r' || c == '\n' }

  /** Line breaks count for nothing, wherever they stand; nothing else is skipped. */
  lemma {:induction false} BreaksAreSkipped(a: string, b: string, c: char)
    ensures WithoutBreaks(a + b) == WithoutBreaks(a) + WithoutBreaks(b)
    ensures WithoutBreaks([c]) == if IsBreak(c) then "" else [c]
  {
    assert [c][1..] == "";
    if a == "" {
      assert a + b == b;
    } else {
      BreaksAreSkipped(a[1..], b, c);
      assert (a + b)[1..] == a[1..] + b;
    }
  }

  function DecodeSymbols(s: string): Option<seq<Byte>> {
    if s == "" then Some([])
    else if |s| == 1 then None
    else
      var a, b := SymbolValue(s[0]), SymbolValue(s[1]);
      if a.None? || b.None? then None
      else
        var first := a.value * 4 + b.value / 16;
        if |s| == 2 then Some([first])
        else
          var c := SymbolValue(s[2]);
          if c.None? then None
          else
            var second := b.value % 16 * 16 + c.value / 4;
            if |s| == 3 then Some([first, second])
            else
              var d := SymbolValue(s[3]);
              if d.None? then None
              else
                match DecodeSymbols(s[4..])
                case None => None
                case Some(rest) => Some([first, second, c.value % 4 * 64 + d.value] + rest)
  }

  function Decode(s: string): Option<seq<Byte>> { DecodeSymbols(WithoutBreaks(s)) }

  predicate AllSymbols(s: string) {
    forall i :: 0 <= i < |s| ==> SymbolValue(s[i]).Some?
  }

  predicate FourSymbols(s: string)
    requires |s| >= 4
  {
    SymbolValue(s[0]).Some? && SymbolValue(s[1]).Some? && SymbolValue(s[2]).Some? && SymbolValue(s[3]).Some?
  }

  lemma FourThenRest(s: string)
    requires |s| >= 4
    ensures AllSymbols(s) <==> FourSymbols(s) && AllSymbols(s[4..])
  {
    assert forall i :: 4 <= i < |s| ==> s[i] == s[4..][i - 4];
  }

  lemma FourDecode(s: string)
    requires |s| >= 4
    ensures DecodeSymbols(s).Some? <==> FourSymbols(s) && DecodeSymbols(s[4..]).Some?
  {
  }

  /** What the decoder takes: symbols of the alphabet, not one more than a
      multiple of four. */
  lemma {:induction false} DecodableIff(s: string)
    ensures DecodeSymbols(s).Some? <==> |s| % 4 != 1 && AllSymbols(s)
  {
    if |s| >= 4 {
      FourDecode(s);
      FourThenRest(s);
      DecodableIff(s[4..]);
      FourLess(|s|);
    } else {
      FewDecode(s);
    }
  }

  lemma FourLess(n: nat)
    requires n >= 4
    ensures (n - 4) % 4 == n % 4
  {
  }

  lemma FewDecode(s: string)
    requires |s| < 4
    ensures DecodeSymbols(s).Some? <==> |s| != 1 && AllSymbols(s)
  {
    assert |s| > 1 && DecodeSymbols(s).None? ==> !AllSymbols(s) by {
      assert |s| > 1 && AllSymbols(s) ==> SymbolValue(s[0]).Some? && SymbolValue(s[1]).Some?;
      assert |s| > 2 && AllSymbols(s) ==> SymbolValue(s[2]).Some?;
    }
  }

  /** Four symbols give three bytes, two or three at the end one or two. */
  lemma {:induction false} DecodedLength(s: string)
    requires DecodeSymbols(s).Some?
    ensures |DecodeSymbols(s).value| == |s| / 4 * 3 + (if |s| % 4 == 0 then 0 else |s| % 4 - 1)
  {
    if |s| >= 4 { DecodedLength(s[4..]); }
  }

  predicate Clean(s: string) {
    forall i :: 0 <= i < |s| ==> s[i] != '.' && s[i] != '\r' && s[i] != '\n'
  }

  /** The encoding contains no dot and no line break. */
  lemma {:induction false} EncodingIsClean(s: seq<Byte>)
    ensures Clean(Encode(s))
  {
    forall v: Sextet ensures Symbol(v) != '.' && Symbol(v) != '\r' && Symbol(v) != '\n' {
      SymbolReadsBack(v);
    }
    if |s| < 3 {
    } else {
      EncodingIsClean(s[3..]);
    }
  }

  lemma {:induction false} CleanStays(s: string)
    requires Clean(s)
    ensures WithoutBreaks(s) == s
  {
    if s == "" {
    } else {
      assert Clean(s[1..]);
      CleanStays(s[1..]);
      assert s == [s[0]] + s[1..];
    }
  }

  // The four sextets of three bytes, put together again.
  lemma SextetsFit(a: Byte, b: Byte, c: Byte)
    ensures a / 4 * 4 + (a % 4 * 16 + b / 16) / 16 == a
    ensures (a % 4 * 16 + b / 16) % 16 * 16 + (b % 16 * 4 + c / 64) / 4 == b
    ensures (b % 16 * 4 + c / 64) % 4 * 64 + c % 64 == c
  {
  }

  lemma DecodeShort(p: Sextet, q: Sextet, r: Sextet)
    ensures DecodeSymbols([Symbol(p), Symbol(q)]) == Some([p * 4 + q / 16])
    ensures DecodeSymbols([Symbol(p), Symbol(q), Symbol(r)]) == Some([p * 4 + q / 16, q % 16 * 16 + r / 4])
  {
    SymbolReadsBack(p);
    SymbolReadsBack(q);
    SymbolReadsBack(r);
  }

  lemma DecodeFour(p: Sextet, q: Sextet, r: Sextet, t: Sextet, rest: string, bytes: seq<Byte>)
    requires DecodeSymbols(rest) == Some(bytes)
    ensures DecodeSymbols([Symbol(p), Symbol(q), Symbol(r), Symbol(t)] + rest) ==
            Some([p * 4 + q / 16, q % 16 * 16 + r / 4, r % 4 * 64 + t] + bytes)
  {
    SymbolReadsBack(p);
    SymbolReadsBack(q);
    SymbolReadsBack(r);
    SymbolReadsBack(t);
    assert ([Symbol(p), Symbol(q), Symbol(r), Symbol(t)] + rest)[4..] == rest;
  }

  lemma OneReadsBack(a: Byte)
    ensures DecodeSymbols(OneByte(a)) == Some([a])
  {
    SextetsFit(a, 0, 0);
    DecodeShort(a / 4, a % 4 * 16, 0);
  }

  lemma TwoReadBack(a: Byte, b: Byte)
    ensures DecodeSymbols(TwoBytes(a, b)) == Some([a, b])
  {
    SextetsFit(a, b, 0);
    DecodeShort(a / 4, a % 4 * 16 + b / 16, b % 16 * 4);
  }

  lemma ThreeReadBack(a: Byte, b: Byte, c: Byte, rest: string, bytes: seq<Byte>)
    requires DecodeSymbols(rest) == Some(bytes)
    ensures DecodeSymbols(ThreeBytes(a, b, c) + rest) == Some([a, b, c] + bytes)
  {
    var p: Sextet, q: Sextet, r: Sextet, t: Sextet := a / 4, a % 4 * 16 + b / 16, b % 16 * 4 + c / 64, c % 64;
    assert [p * 4 + q / 16, q % 16 * 16 + r / 4, r % 4 * 64 + t] == [a, b, c] by { SextetsFit(a, b, c); }
    DecodeFour(p, q, r, t, rest, bytes);
  }

  lemma {:induction false} SymbolsReadBack(s: seq<Byte>)
    ensures DecodeSymbols(Encode(s)) == Some(s)
  {
    if |s| == 1 {
      OneReadsBack(s[0]);
      assert s == [s[0]];
    } else if |s| == 2 {
      TwoReadBack(s[0], s[1]);
      assert s == [s[0], s[1]];
    } else if |s| >= 3 {
      SymbolsReadBack(s[3..]);
      ThreeReadBack(s[0], s[1], s[2], Encode(s[3..]), s[3..]);
      assert s == [s[0], s[1], s[2]] + s[3..];
    }
  }

  /** Decoding inverts encoding on every byte string. */
  lemma EncodingReadsBack(s: seq<Byte>)
    ensures Decode(Encode(s)) == Some(s)
  {
    EncodingIsClean(s);
    CleanStays(Encode(s));
    SymbolsReadBack(s);
  }

  // ------------------------------------------------------------ decimal numbers

  function Digit(d: int): Byte
    requires 0 <= d < 10
  {
    48 + d
  }

  function FormatNat(n: nat): (s: seq<Byte>)
    ensures s != []
  {
    if n < 10 then [Digit(n)] else FormatNat(n / 10) + [Digit(n % 10)]
  }

  function FormatInt(n: int): seq<Byte> {
    if n < 0 then [45] + FormatNat(-n) else FormatNat(n)
  }

  function ParseDigits(s: seq<Byte>): Option<nat> {
    if s == [] then Some(0)
    else
      var last := s[|s| - 1];
      match ParseDigits(s[..|s| - 1])
      case None => None
      case Some(n) => if 48 <= last <= 57 then Some(n * 10 + (last - 48)) else None
  }

  // An optional sign, at least one digit, and a value that fits 64 bits.
  function ParseInt(s: seq<Byte>): Option<int> {
    if s == [] then None
    else
      var signed := s[0] == 45 || s[0] == 43;
      var digits := if signed then s[1..] else s;
      if digits == [] then None
      else
        match ParseDigits(digits)
        case None => None
        case Some(n) =>
          var v := if s[0] == 45 then 0 - n else n as int;
          if MIN_INT64 <= v <= MAX_INT64 then Some(v) else None
  }

  predicate IsDigit(b: Byte) { '0' as int <= b <= '9' as int }

  lemma {:induction false} DigitsIff(s: seq<Byte>)
    ensures ParseDigits(s).Some? <==> forall i :: 0 <= i < |s| ==> IsDigit(s[i])
  {
    if s != [] { DigitsIff(s[..|s| - 1]); }
  }

  /** What counts as a number: an optional sign, digits, and a value that fits. */
  lemma NumberIff(s: seq<Byte>)
    ensures var digits := if s != [] && (s[0] == '-' as int || s[0] == '+' as int) then s[1..] else s;
            ParseInt(s).Some? <==>
            && digits != [] && (forall i :: 0 <= i < |digits| ==> IsDigit(digits[i]))
            && exists n: nat ::
                 ParseDigits(digits) == Some(n) && if s[0] == '-' as int then 0 - n >= MIN_INT64 else n <= MAX_INT64
  {
    var digits := if s != [] && (s[0] == '-' as int || s[0] == '+' as int) then s[1..] else s;
    DigitsIff(digits);
  }

  lemma {:induction false} DigitsReadBack(n: nat)
    ensures ParseDigits(FormatNat(n)) == Some(n)
    ensures 48 <= FormatNat(n)[0] <= 57
  {
    var s := FormatNat(n);
    if n < 10 {
      assert s[..0] == [];
      assert ParseDigits([]) == Some(0);
    } else {
      DigitsReadBack(n / 10);
      assert s[..|s| - 1] == FormatNat(n / 10);
    }
  }

  /** Reading inverts printing on every 64 bit number. */
  lemma NumberReadsBack(n: int)
    requires MIN_INT64 <= n <= MAX_INT64
    ensures ParseInt(FormatInt(n)) == Some(n)
  {
    var digits := FormatNat(if n < 0 then -n else n);
    DigitsReadBack(if n < 0 then -n else n);
    if n < 0 {
      assert FormatInt(n)[1..] == digits;
    }
  }

  // ------------------------------------------------------------------- the token

  function HexDigit(d: int): char
    requires 0 <= d < 16
  {
    if d < 10 then ('0' as int + d) as char else ('a' as int + (d - 10)) as char
  }

  function Hex(s: seq<Byte>): string {
    if s == [] then "" else [HexDigit(s[0] / 16), HexDigit(s[0] % 16)] + Hex(s[1..])
  }

  lemma {:induction false} HexLength(s: seq<Byte>)
    ensures |Hex(s)| == 2 * |s|
  {
    if s != [] { HexLength(s[1..]); }
  }

  lemma HexDigitIs(d: int)
    requires 0 <= d < 16
    ensures HexDigit(d) == "0123456789abcdef"[d]
  {
  }

  /** Two digits for each byte, in order. */
  lemma {:induction false} HexAt(s: seq<Byte>, i: nat)
    requires i < |s| && |Hex(s)| == 2 * |s|
    ensures Hex(s)[2 * i] == HexDigit(s[i] / 16) && Hex(s)[2 * i + 1] == HexDigit(s[i] % 16)
  {
    if i > 0 {
      HexLength(s[1..]);
      HexAt(s[1..], i - 1);
      assert Hex(s)[2 * i] == Hex(s[1..])[2 * (i - 1)] && Hex(s)[2 * i + 1] == Hex(s[1..])[2 * (i - 1) + 1];
    }
  }

  // Seconds since the epoch, rounded down.
  function Unix(t: Time): (n: int)
    ensures n * SECOND <= t < (n + 1) * SECOND
  {
    t / SECOND
  }

  // A time value counts its seconds from the year 1 in 64 bits.
  const YEAR_ONE_TO_EPOCH: int := 62135596800

  function Wrap(n: int): (w: int)
    ensures MIN_INT64 <= w <= MAX_INT64
    ensures MIN_INT64 <= n <= MAX_INT64 ==> w == n
  {
    (n - MIN_INT64) % (MAX_INT64 - MIN_INT64 + 1) + MIN_INT64
  }

  // The time a number of seconds since the epoch stands for; close to the upper
  // end of 64 bits it wraps around.
  function FromUnix(n: int): Time {
    (Wrap(n + YEAR_ONE_TO_EPOCH) - YEAR_ONE_TO_EPOCH) * SECOND
  }

  /** The seconds come back modulo two to the 64th, counted from the year 1. */
  lemma FromUnixWraps(n: int)
    ensures var s := FromUnix(n) / SECOND;
            && FromUnix(n) == s * SECOND && MIN_INT64 <= s + YEAR_ONE_TO_EPOCH <= MAX_INT64
            && (s - n) % 0x1_0000_0000_0000_0000 == 0
  {
  }

  // A time that a time value can hold and whose seconds fit 64 bits.
  predicate Representable(t: Time) {
    MIN_INT64 <= Unix(t) && Unix(t) + YEAR_ONE_TO_EPOCH <= MAX_INT64
  }

  // The keyed hash is whatever the secret makes of the timestamp.
  type Mac = seq<Byte> -> seq<Byte>

  function SignState(mac: Mac, now: Time): string {
    var ts := FormatInt(Unix(now));
    Encode(ts) + "." + Hex(mac(ts))
  }

  // A duration saturates at the ends of its range.
  function Since(now: Time, then_: Time): (d: int)
    ensures MIN_INT64 <= d <= MAX_INT64
    ensures (d < now - then_ ==> d == MAX_INT64) && (d > now - then_ ==> d == MIN_INT64)
  {
    var d := now - then_;
    if d < MIN_INT64 then MIN_INT64 else if d > MAX_INT64 then MAX_INT64 else d
  }

  datatype Verdict = Accepted | Malformed | Mismatch | BadTimestamp | Expired

  function FirstDot(s: string, i: nat): int
    requires i <= |s|
    decreases |s| - i
  {
    if i == |s| then -1 else if s[i] == '.' then i else FirstDot(s, i + 1)
  }

  function VerifyState(mac: Mac, state: string, now: Time): Verdict {
    var dot := FirstDot(state, 0);
    if dot < 0 || dot >= |state| then Malformed
    else
      match Decode(state[..dot])
      case None => Malformed
      case Some(ts) =>
        if Hex(mac(ts)) != state[dot + 1..] then Mismatch
        else
          match ParseInt(ts)
          case None => BadTimestamp
          case Some(n) => if Since(now, FromUnix(n)) > MAX_AGE then Expired else Accepted
  }

  // The state is the payload p, a dot and the signature; p has no dot.
  predicate IsToken(state: string, p: string, signature: string) {
    '.' !in p && state == p + "." + signature
  }

  // A token with payload p that carries the right signature of timestamp ts.
  predicate IsSigned(mac: Mac, state: string, p: string, ts: seq<Byte>) {
    IsToken(state, p, Hex(mac(ts))) && Decode(p) == Some(ts)
  }

  predicate InTime(ts: seq<Byte>, now: Time) {
    ParseInt(ts).Some? && Since(now, FromUnix(ParseInt(ts).value)) <= MAX_AGE
  }

  lemma {:induction false} FirstDotIs(s: string, i: nat)
    requires i <= |s| && '.' !in s[..i]
    ensures var d := FirstDot(s, i);
            if '.' in s then i <= d < |s| && s[d] == '.' && '.' !in s[..d] else d == -1
    decreases |s| - i
  {
    if i < |s| && s[i] != '.' {
      assert s[..i + 1] == s[..i] + [s[i]];
      FirstDotIs(s, i + 1);
    }
    assert i == |s| ==> s[..i] == s;
  }

  lemma TokenHasDot(state: string, p: string, signature: string)
    requires IsToken(state, p, signature)
    ensures '.' in state
  {
    assert state[|p|] == '.';
  }

  lemma FirstDotEnds(state: string, p: string, a: string, q: string, b: string)
    requires IsToken(state, p, a) && IsToken(state, q, b)
    ensures |q| <= |p|
  {
    assert state[|p|] == '.';
    assert forall i :: 0 <= i < |q| ==> state[i] == q[i];
  }

  // There is one way to read a token.
  lemma TokenIsUnique(state: string, p: string, a: string, q: string, b: string)
    requires IsToken(state, p, a) && IsToken(state, q, b)
    ensures p == q && a == b
  {
    FirstDotEnds(state, p, a, q, b);
    FirstDotEnds(state, q, b, p, a);
    assert p == state[..|p|] && q == state[..|q|];
    assert a == state[|p| + 1..] && b == state[|q| + 1..];
  }

  // The check told from the one way to read the token.
  lemma VerdictOf(mac: Mac, state: string, now: Time, p: string, signature: string)
    requires IsToken(state, p, signature)
    ensures VerifyState(mac, state, now) ==
            match Decode(p)
            case None => Malformed
            case Some(ts) =>
              if signature != Hex(mac(ts)) then Mismatch
              else if ParseInt(ts).None? then BadTimestamp
              else if InTime(ts, now) then Accepted else Expired
  {
    var d := FirstDot(state, 0);
    FirstDotIs(state, 0);
    assert state[|p|] == '.';
    assert state == state[..d] + "." + state[d + 1..];
    TokenIsUnique(state, p, signature, state[..d], state[d + 1..]);
  }

  /** Which strings get which verdict, for every string, secret and time. */
  lemma VerdictIff(mac: Mac, state: string, now: Time)
    ensures var v := VerifyState(mac, state, now);
            && (v == Accepted <==> exists p, ts :: IsSigned(mac, state, p, ts) && InTime(ts, now))
            && (v == Expired <==>
                exists p, ts :: IsSigned(mac, state, p, ts) && ParseInt(ts).Some? && !InTime(ts, now))
            && (v == BadTimestamp <==> exists p, ts :: IsSigned(mac, state, p, ts) && ParseInt(ts).None?)
            && (v == Mismatch <==>
                exists p, ts, s :: IsToken(state, p, s) && Decode(p) == Some(ts) && s != Hex(mac(ts)))
            && (v == Malformed <==> '.' !in state || exists p, s :: IsToken(state, p, s) && Decode(p) == None)
  {
    FirstDotIs(state, 0);
    forall p, s | IsToken(state, p, s) ensures '.' in state { TokenHasDot(state, p, s); }
    if '.' in state {
      var d := FirstDot(state, 0);
      var p, s := state[..d], state[d + 1..];
      assert IsToken(state, p, s);
      VerdictOf(mac, state, now, p, s);
      forall q, t | IsToken(state, q, t) ensures q == p && t == s { TokenIsUnique(state, p, s, q, t); }
      if Decode(p).Some? && s == Hex(mac(Decode(p).value)) { assert IsSigned(mac, state, p, Decode(p).value); }
    }
  }

  /** The check as it runs, scanning for the dot. */
  method Verify(mac: Mac, state: string, now: Time) returns (v: Verdict)
    ensures v == VerifyState(mac, state, now)
    ensures v == Accepted <==> exists p, ts :: IsSigned(mac, state, p, ts) && InTime(ts, now)
    ensures v == Expired <==> exists p, ts :: IsSigned(mac, state, p, ts) && ParseInt(ts).Some? && !InTime(ts, now)
    ensures v == BadTimestamp <==> exists p, ts :: IsSigned(mac, state, p, ts) && ParseInt(ts).None?
    ensures v == Mismatch <==> exists p, ts, s :: IsToken(state, p, s) && Decode(p) == Some(ts) && s != Hex(mac(ts))
    ensures v == Malformed <==> '.' !in state || exists p, s :: IsToken(state, p, s) && Decode(p) == None
  {
    VerdictIff(mac, state, now);
    var dot := -1;
    for i := 0 to |state|
      invariant dot == -1 && FirstDot(state, 0) == FirstDot(state, i)
    {
      if state[i] == '.' {
        dot := i;
        break;
      }
    }
    if dot < 0 { return Malformed; }
    var ts := Decode(state[..dot]);
    if ts.None? { return Malformed; }
    var expected := Hex(mac(ts.value));
    if expected != state[dot + 1..] { return Mismatch; }
    var n := ParseInt(ts.value);
    if n.None? { return BadTimestamp; }
    if Since(now, FromUnix(n.value)) > MAX_AGE { return Expired; }
    v := Accepted;
  }

  lemma {:induction false} DotFound(s: string, rest: string, i: nat)
    requires Clean(s) && i <= |s|
    ensures FirstDot(s + "." + rest, i) == |s|
    decreases |s| - i
  {
    if i == |s| {
    } else {
      assert (s + "." + rest)[i] == s[i];
      DotFound(s, rest, i + 1);
    }
  }

  lemma FromUnixReadsBack(n: int)
    requires MIN_INT64 <= n && n + YEAR_ONE_TO_EPOCH <= MAX_INT64
    ensures FromUnix(n) == n * SECOND
  {
    assert Wrap(n + YEAR_ONE_TO_EPOCH) == n + YEAR_ONE_TO_EPOCH;
  }

  /** A token of this server is accepted exactly until ten minutes after its
      second, whatever the secret: nothing else about it can go wrong. */
  lemma OwnTokenIsAcceptedIff(mac: Mac, issued: Time, now: Time)
    requires Representable(issued)
    ensures VerifyState(mac, SignState(mac, issued), now) ==
            (if now - Unix(issued) * SECOND <= MAX_AGE then Accepted else Expired)
  {
    var ts := FormatInt(Unix(issued));
    var state := SignState(mac, issued);
    EncodingIsClean(ts);
    DotFound(Encode(ts), Hex(mac(ts)), 0);
    assert state[..|Encode(ts)|] == Encode(ts);
    assert state[|Encode(ts)| + 1..] == Hex(mac(ts));
    EncodingReadsBack(ts);
    NumberReadsBack(Unix(issued));
    FromUnixReadsBack(Unix(issued));
  }

  lemma HexDigitsDiffer(a: Byte, b: Byte)
    requires HexDigit(a / 16) == HexDigit(b / 16) && HexDigit(a % 16) == HexDigit(b % 16)
    ensures a == b
  {
  }

  lemma {:induction false} HexIsInjective(a: seq<Byte>, b: seq<Byte>)
    requires Hex(a) == Hex(b)
    ensures a == b
  {
    if a == [] || b == [] {
    } else {
      assert Hex(a)[0] == Hex(b)[0] && Hex(a)[1] == Hex(b)[1];
      HexDigitsDiffer(a[0], b[0]);
      assert Hex(a)[2..] == Hex(a[1..]) && Hex(b)[2..] == Hex(b[1..]);
      HexIsInjective(a[1..], b[1..]);
      assert a == [a[0]] + a[1..] && b == [b[0]] + b[1..];
    }
  }

  /** And a token made with another secret is accepted only if both secrets
      give the timestamp the same MAC. */
  lemma ForeignTokenNeedsSameMac(mac: Mac, other: Mac, issued: Time, now: Time)
    requires Representable(issued)
    ensures VerifyState(mac, SignState(other, issued), now) == Accepted <==>
            mac(FormatInt(Unix(issued))) == other(FormatInt(Unix(issued))) && now - Unix(issued) * SECOND <= MAX_AGE
  {
    var ts := FormatInt(Unix(issued));
    var state := SignState(other, issued);
    EncodingIsClean(ts);
    DotFound(Encode(ts), Hex(other(ts)), 0);
    assert state[..|Encode(ts)|] == Encode(ts);
    assert state[|Encode(ts)| + 1..] == Hex(other(ts));
    EncodingReadsBack(ts);
    NumberReadsBack(Unix(issued));
    FromUnixReadsBack(Unix(issued));
    if Hex(mac(ts)) == Hex(other(ts)) {
      HexIsInjective(mac(ts), other(ts));
    }
  }
}
