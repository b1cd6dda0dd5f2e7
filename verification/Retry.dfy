/** Retry scheduling: the exponential cap on a delay and the deterministic delay under it,
    and the seed that makes it deterministic. Durations are 64-bit nanosecond counts. */
module Retry {
  import opened Text
  import opened Binary

  datatype Policy = Policy(initialDelay: int, maxDelay: int)

  function Pow2(n: nat): (p: nat)
    ensures p > 0
  {
    if n == 0 then 1 else 2 * Pow2(n - 1)
  }

  function Min(a: int, b: int): int {
    if a < b then a else b
  }

  function Attempt(n: int): nat {
    if n < 0 then 0 else n
  }

  /** What the cap is meant to be. */
  function Cap(p: Policy, n: int): int {
    Min(p.initialDelay * Pow2(Attempt(n)), p.maxDelay)
  }

  const HALF_RANGE := 0x4000_0000_0000_0000

  /** The policies `validateRetryPolicy` accepts. */
  predicate Accepted(p: Policy) {
    SECOND <= p.initialDelay <= p.maxDelay <= 86_400 * SECOND
  }

  /** Doubling stays within 64 bits. */
  predicate Doubles(p: Policy) {
    0 <= p.initialDelay < HALF_RANGE && p.maxDelay <= HALF_RANGE
  }

  lemma AcceptedDoubles(p: Policy)
    requires Accepted(p)
    ensures Doubles(p)
  {
  }

  lemma {:induction false} Pow2Monotone(m: nat, n: nat)
    requires m <= n
    ensures Pow2(m) <= Pow2(n)
    decreases n
  {
    if m < n {
      Pow2Monotone(m, n - 1);
    }
  }

  lemma ScaledMonotone(x: int, m: nat, n: nat)
    requires 0 <= x && m <= n
    ensures x * Pow2(m) <= x * Pow2(n)
  {
    Pow2Monotone(m, n);
    assert x * (Pow2(n) - Pow2(m)) >= 0;
  }

  /** `delayCap`, with the doubling as 64 bits do it: where nothing overflows, the loop, which
      stops doubling at the maximum, computes the closed form. */
  method DelayCap(p: Policy, n: int) returns (cap: int)
    requires IsInt64(p.initialDelay) && IsInt64(p.maxDelay)
    ensures IsInt64(cap) && cap <= p.maxDelay
    ensures Doubles(p) ==> cap == Cap(p, n)
  {
    var attempt := n;
    if attempt < 0 {
      attempt := 0;
    }
    cap := p.initialDelay;
    var i := 0;
    while i < attempt
      invariant 0 <= i <= attempt && IsInt64(cap)
      invariant Doubles(p) ==> cap == p.initialDelay * Pow2(i) && 0 <= cap < HALF_RANGE
    {
      assert p.initialDelay * Pow2(i + 1) == 2 * (p.initialDelay * Pow2(i));
      cap := Wrap64(cap * 2);
      if cap >= p.maxDelay {
        if Doubles(p) {
          ScaledMonotone(p.initialDelay, i + 1, attempt);
        }
        cap := p.maxDelay;
        break;
      }
      i := i + 1;
    }
    cap := Min(cap, p.maxDelay);
  }

  lemma CapMonotone(p: Policy, m: int, n: int)
    requires 0 <= p.initialDelay && m <= n
    ensures Cap(p, m) <= Cap(p, n)
  {
    ScaledMonotone(p.initialDelay, Attempt(m), Attempt(n));
  }

  // ----- the deterministic delay -----

  /** SHA-256 and the reading of a digest as a number. */
  type Hash = seq<byte> -> seq<byte>
  type Reading = seq<byte> -> nat

  function DecimalBytes(n: nat): seq<byte> {
    Ascii(Itoa(n))
  }

  ghost predicate ZeroFree(b: seq<byte>) {
    forall i | 0 <= i < |b| :: b[i] != 0
  }

  lemma DecimalBytesPlain(n: nat)
    ensures IsAscii(Itoa(n)) && ZeroFree(DecimalBytes(n))
  {
    hide Itoa, Ascii;
    forall i | 0 <= i < |Itoa(n)|
      ensures 0 < Itoa(n)[i] as int < 128
    {
      assert Itoa(n)[i] in Itoa(n);
    }
  }

  /** What is hashed for one attempt. */
  function Material(seed: seq<byte>, n: int): seq<byte> {
    seed + [0] + DecimalBytes(Attempt(n))
  }

  function Delay(sha: Hash, number: Reading, p: Policy, n: int, seed: seq<byte>): (d: int)
    ensures d == 0 || 0 <= d <= Cap(p, n)
  {
    if Cap(p, n) <= 0 then 0
    else
      var used := if seed == [] then Seed(sha, [Ascii("empty")]) else seed;
      number(sha(Material(used, n))) % (Cap(p, n) + 1)
  }

  /** The smaller of the doubled initial delay and the maximum. */
  ghost predicate IsCap(p: Policy, n: int, cap: int) {
    var undamped := p.initialDelay * Pow2(if n < 0 then 0 else n);
    cap <= undamped && cap <= p.maxDelay && (cap == undamped || cap == p.maxDelay)
  }

  /** `NextDeterministicDelay`: nothing without a positive cap; else the digest of the seed, a
      zero byte and the attempt in decimals, as a number, modulo the cap plus one. An empty
      seed stands for that of "empty". */
  method NextDeterministicDelay(sha: Hash, number: Reading, p: Policy, n: int, seed: seq<byte>) returns (d: int)
    requires IsInt64(p.initialDelay) && IsInt64(p.maxDelay)
    ensures 0 <= d
    ensures Doubles(p) ==> d == Delay(sha, number, p, n, seed)
    ensures Doubles(p) ==>
              exists cap | IsCap(p, n, cap) ::
                d == if cap <= 0 then 0
                     else number(sha((if seed == [] then Seed(sha, [Ascii("empty")]) else seed) + [0] + Ascii(Itoa(if n < 0 then 0 else n)))) % (cap + 1)
  {
    hide Seed, Ascii, Itoa, Pow2;
    var cap := DelayCap(p, n);
    assert Doubles(p) ==> IsCap(p, n, cap);
    if cap <= 0 {
      return 0;
    }
    var used := seed;
    if used == [] {
      used := Seed(sha, [Ascii("empty")]);
    }
    var attempt := if n < 0 then 0 else n;
    var modulus := Wrap64(cap + 1);
    d := number(sha(used + [0] + Ascii(Itoa(attempt)))) % modulus;
  }

  /** Every delay up to the cap comes of some digest. */
  lemma EveryDelayOccurs(sha: Hash, p: Policy, n: int, seed: seq<byte>, d: nat)
    requires d <= Cap(p, n)
    ensures exists number: Reading :: Delay(sha, number, p, n, seed) == d
  {
    var number: Reading := _ => d;
    assert Cap(p, n) > 0 ==> d % (Cap(p, n) + 1) == d;
    assert Delay(sha, number, p, n, seed) == d;
  }

  /** The delays of the first k attempts together. */
  function Total(sha: Hash, number: Reading, p: Policy, k: nat, seed: seq<byte>): int {
    if k == 0 then 0 else Total(sha, number, p, k - 1, seed) + Delay(sha, number, p, k - 1, seed)
  }

  /** Retrying k times waits at most k maximal delays, and at most as long as undamped doubling
      from the initial delay would. */
  lemma {:induction false} TotalBound(sha: Hash, number: Reading, p: Policy, k: nat, seed: seq<byte>)
    requires 0 <= p.initialDelay && 0 <= p.maxDelay
    ensures 0 <= Total(sha, number, p, k, seed) <= Min(k * p.maxDelay, p.initialDelay * (Pow2(k) - 1))
    decreases k
  {
    if k > 0 {
      TotalBound(sha, number, p, k - 1, seed);
      CapBounds(p, k - 1);
      hide Delay, Cap;
      OneMore(p.maxDelay, p.initialDelay, k);
    }
  }

  lemma CapBounds(p: Policy, n: nat)
    requires 0 <= p.initialDelay && 0 <= p.maxDelay
    ensures 0 <= Cap(p, n) <= p.maxDelay && Cap(p, n) <= p.initialDelay * Pow2(n)
  {
    ScaledMonotone(p.initialDelay, 0, n);
  }

  lemma OneMore(longest: int, first: int, k: nat)
    requires k > 0
    ensures (k - 1) * longest + longest == k * longest
    ensures first * (Pow2(k - 1) - 1) + first * Pow2(k - 1) == first * (Pow2(k) - 1)
  {
  }

  // ----- seeds -----

  /** What `Seed` feeds to the hash: each part behind its length in eight bytes. */
  function Framed(parts: seq<seq<byte>>): seq<byte> {
    if parts == [] then [] else BigEndian(|parts[0]|, 8) + parts[0] + Framed(parts[1..])
  }

  const SEED_PREFIX := "retryseed:v1:"

  function Seed(sha: Hash, parts: seq<seq<byte>>): seq<byte> {
    Ascii(SEED_PREFIX + HexEncode(sha(Framed(parts))))
  }

  lemma FramedTail(parts: seq<seq<byte>>, k: nat)
    requires k < |parts|
    ensures Framed(parts[k..]) == BigEndian(|parts[k]|, 8) + parts[k] + Framed(parts[k + 1..])
  {
    assert parts[k..][0] == parts[k] && parts[k..][1..] == parts[k + 1..];
  }

  /** `Seed`, part by part. */
  method ComputeSeed(sha: Hash, parts: seq<seq<byte>>) returns (seed: seq<byte>)
    ensures seed == Seed(sha, parts) == Ascii("retryseed:v1:" + HexEncode(sha(Framed(parts))))
  {
    hide Framed, HexEncode, Ascii, BigEndian;
    var written: seq<byte> := [];
    assert parts[0..] == parts;
    for k := 0 to |parts|
      invariant written + Framed(parts[k..]) == Framed(parts)
    {
      FramedTail(parts, k);
      Regroup(written, BigEndian(|parts[k]|, 8), parts[k], Framed(parts[k + 1..]));
      written := written + BigEndian(|parts[k]|, 8);
      written := written + parts[k];
    }
    FramedNone(parts[|parts|..]);
    assert written == Framed(parts) by { assert written + [] == written; }
    seed := Ascii(SEED_PREFIX + HexEncode(sha(written)));
  }

  lemma Regroup(a: seq<byte>, b: seq<byte>, c: seq<byte>, d: seq<byte>)
    ensures a + (b + c + d) == a + b + c + d
  {
  }

  lemma FramedNone(parts: seq<seq<byte>>)
    requires parts == []
    ensures Framed(parts) == []
  {
  }

  ghost predicate Short(parts: seq<seq<byte>>) {
    forall i | 0 <= i < |parts| :: |parts[i]| < TWO_TO_64
  }

  lemma FramedHead(parts: seq<seq<byte>>)
    requires parts != []
    ensures |Framed(parts)| >= 8 + |parts[0]|
    ensures Framed(parts)[..8] == BigEndian(|parts[0]|, 8)
    ensures Framed(parts)[8..8 + |parts[0]|] == parts[0]
    ensures Framed(parts)[8 + |parts[0]|..] == Framed(parts[1..])
  {
  }

  /** The length prefixes keep the parts apart. */
  lemma {:induction false} FramedInjective(a: seq<seq<byte>>, b: seq<seq<byte>>)
    requires Short(a) && Short(b) && Framed(a) == Framed(b)
    ensures a == b
    decreases |a|
  {
    if a == [] {
      if b != [] {
        FramedHead(b);
      }
    } else {
      FramedHead(a);
      if b != [] {
        FramedHead(b);
        EightBytes();
        BigEndianInjective(|a[0]|, |b[0]|, 8);
        FramedInjective(a[1..], b[1..]);
        assert a == [a[0]] + a[1..] && b == [b[0]] + b[1..];
      }
    }
  }

  /** Two lists of parts with the same seed are the same list, or two different inputs of the
      hash with the same output. */
  lemma SeedBinds(sha: Hash, a: seq<seq<byte>>, b: seq<seq<byte>>)
    requires Short(a) && Short(b) && Seed(sha, a) == Seed(sha, b)
    ensures a == b || (Framed(a) != Framed(b) && sha(Framed(a)) == sha(Framed(b)))
  {
    var x, y := HexEncode(sha(Framed(a))), HexEncode(sha(Framed(b)));
    HexIsAscii(sha(Framed(a)));
    HexIsAscii(sha(Framed(b)));
    hide Framed, HexEncode, Ascii;
    AsciiInjective(SEED_PREFIX + x, SEED_PREFIX + y);
    assert x == (SEED_PREFIX + x)[|SEED_PREFIX|..] && y == (SEED_PREFIX + y)[|SEED_PREFIX|..];
    HexRoundTrip(sha(Framed(a)));
    HexRoundTrip(sha(Framed(b)));
    if Framed(a) == Framed(b) {
      FramedInjective(a, b);
    }
  }

  lemma SplitAtLastZero(s: seq<byte>, a: seq<byte>, t: seq<byte>, b: seq<byte>)
    requires ZeroFree(a) && ZeroFree(b) && s + [0] + a == t + [0] + b
    ensures s == t && a == b
  {
    var whole := s + [0] + a;
    assert forall k | |s| < k < |whole| :: whole[k] == a[k - |s| - 1];
    assert forall k | |t| < k < |whole| :: whole[k] == b[k - |t| - 1];
    assert whole[|s|] == 0 && whole[|t|] == 0;
    assert s == whole[..|s|] && t == whole[..|t|];
    assert a == whole[|s| + 1..] && b == whole[|t| + 1..];
  }

  /** The zero byte before the decimal attempt number keeps the two apart, whatever bytes the
      seed holds. */
  lemma MaterialInjective(s: seq<byte>, m: int, t: seq<byte>, n: int)
    ensures Material(s, m) == Material(t, n) <==> s == t && Attempt(m) == Attempt(n)
  {
    if Material(s, m) == Material(t, n) {
      DecimalBytesPlain(Attempt(m));
      DecimalBytesPlain(Attempt(n));
      SplitAtLastZero(s, DecimalBytes(Attempt(m)), t, DecimalBytes(Attempt(n)));
      AsciiInjective(Itoa(Attempt(m)), Itoa(Attempt(n)));
      ItoaInjective(Attempt(m), Attempt(n));
    }
  }
}
