/** The two Internet checksum functions (RFC 1071) and how they relate. A 16-bit result is a value of the
    little-endian host; storing it puts its low byte first. */
module Checksums {
  import opened Basics

  const MOD := 0xffff

  /** Longest data for which the deferred carries stay inside an int. */
  const MAX_LENGTH := 65536

  /** Sum of the 16-bit words, low byte first; an odd last byte is a low byte. */
  function LeSum(d: seq<byte>): nat {
    if d == [] then 0
    else if |d| == 1 then d[0] as int
    else d[0] as int + 256 * d[1] as int + LeSum(d[2..])
  }

  /** Sum of the 16-bit words, high byte first; an odd last byte is a high byte. */
  function BeSum(d: seq<byte>): nat {
    if d == [] then 0
    else if |d| == 1 then 256 * d[0] as int
    else 256 * d[0] as int + d[1] as int + BeSum(d[2..])
  }

  function Swap(x: int): int
    requires 0 <= x < 0x10000
  {
    x % 256 * 256 + x / 256
  }

  /** One's complement sum of a deferred total: zero only for zero. */
  function Folded(total: nat): (r: int)
    ensures 0 <= r <= MOD && (total - r) % MOD == 0 && (r == 0 <==> total == 0)
  {
    if total == 0 then 0 else (total - 1) % MOD + 1
  }

  /** What the deferred-carry function computes. */
  function Deferred(d: seq<byte>): int {
    MOD - Folded(LeSum(d))
  }

  /** One's complement sum that started from 0xffff: never zero. */
  function Accumulated(total: nat): (r: int)
    ensures 1 <= r <= MOD && (total - r) % MOD == 0
  {
    if total % MOD == 0 then MOD else total % MOD
  }

  /** What the immediate-carry function computes. */
  function Immediate(d: seq<byte>): int {
    Swap(MOD - Accumulated(BeSum(d)))
  }

  // The methods

  lemma {:induction false} LeSumConcat(x: seq<byte>, y: seq<byte>)
    requires |x| % 2 == 0
    ensures LeSum(x + y) == LeSum(x) + LeSum(y)
    ensures BeSum(x + y) == BeSum(x) + BeSum(y)
  {
    if x == [] {
      assert x + y == y;
    } else {
      LeSumConcat(x[2..], y);
      assert (x + y)[2..] == x[2..] + y;
    }
  }

  lemma SumStep(d: seq<byte>, i: nat)
    requires i % 2 == 0 && i + 1 < |d|
    ensures LeSum(d[..i + 2]) == LeSum(d[..i]) + d[i] as int + 256 * d[i + 1] as int
    ensures BeSum(d[..i + 2]) == BeSum(d[..i]) + 256 * d[i] as int + d[i + 1] as int
  {
    LeSumConcat(d[..i], d[i..i + 2]);
    assert d[..i + 2] == d[..i] + d[i..i + 2];
    assert d[i..i + 2][2..] == [];
  }

  lemma SumLast(d: seq<byte>)
    requires |d| % 2 == 1
    ensures LeSum(d) == LeSum(d[..|d| - 1]) + d[|d| - 1] as int
    ensures BeSum(d) == BeSum(d[..|d| - 1]) + 256 * d[|d| - 1] as int
  {
    var front, last := d[..|d| - 1], [d[|d| - 1]];
    assert d == front + last;
    LeSumConcat(front, last);
  }

  lemma AccumulatedStep(total: nat, word: int)
    requires 0 <= word <= MOD
    ensures var a := Accumulated(total) + word;
            Accumulated(total + word) == if a > MOD then a - MOD else a
  {
    var q := (total - Accumulated(total)) / MOD;
    assert total == MOD * q + Accumulated(total);
  }

  /** Adding carries twice is enough: the low 16 bits are the one's complement sum. */
  lemma TwoFolds(total: nat)
    requires total < 0x8000_0000
    ensures var once := total / 0x10000 + total % 0x10000;
            (once + once / 0x10000) % 0x10000 == Folded(total)
  {
    var once := total / 0x10000 + total % 0x10000;
    assert total == total / 0x10000 * 0x10000 + total % 0x10000;
    assert once <= 0x7fff + 0xffff;
    var twice := once + once / 0x10000;
    var low := twice % 0x10000;
    assert total - once == total / 0x10000 * MOD;
    assert once == 0 <==> total == 0;
    if once < 0x10000 {
      assert low == once;
    } else {
      assert low == once - MOD;
    }
    UniqueResidue(low, Folded(total), total);
  }

  /** Two values between 1 and 0xffff with the same residue are equal. */
  lemma UniqueResidue(a: int, b: int, total: nat)
    requires 0 <= a <= MOD && 0 <= b <= MOD
    requires (total - a) % MOD == 0 && (total - b) % MOD == 0
    requires (a == 0 <==> total == 0) && (b == 0 <==> total == 0)
    ensures a == b
  {
  }

  /** Little-endian words summed into an int, carries added at the end. */
  method IcmpHeaderChecksum(data: seq<byte>) returns (answer: int)
    requires |data| <= MAX_LENGTH
    ensures answer == Deferred(data)
  {
    var left := |data|;
    var w := 0;
    var sum := 0;
    while left > 1
      invariant 0 <= left && w + left == |data| && w % 2 == 0
      invariant sum == LeSum(data[..w])
      invariant 0 <= sum <= w / 2 * 0xffff
    {
      SumStep(data, w);
      sum := sum + (data[w] as int + 256 * data[w + 1] as int);
      w := w + 2;
      left := left - 2;
    }
    if left == 1 {
      SumLast(data);
      assert data[..w] == data[..|data| - 1];
      sum := sum + data[w] as int;
    } else {
      assert data[..w] == data;
    }
    answer := AddCarries(sum);
  }

  /** Adds the carries twice and complements; the sum fits into an int. */
  method AddCarries(total: nat) returns (answer: int)
    requires total < 0x8000_0000
    ensures answer == MOD - Folded(total)
  {
    TwoFolds(total);
    var sum := total / 0x10000 + total % 0x10000;
    sum := sum + sum / 0x10000;
    answer := 0xffff - sum % 0x10000;
  }

  /** Big-endian words summed with the carry added at once. */
  method IpHeaderChecksum(data: seq<byte>) returns (answer: int)
    ensures answer == Immediate(data)
  {
    hide LeSum;
    var acc := 0xffff;
    var i := 0;
    while i + 1 < |data|
      invariant 0 <= i <= |data| && i % 2 == 0
      invariant acc == Accumulated(BeSum(data[..i]))
    {
      var word := 256 * data[i] as int + data[i + 1] as int;
      SumStep(data, i);
      AccumulatedStep(BeSum(data[..i]), word);
      acc := acc + word;
      if acc > 0xffff {
        acc := acc - 0xffff;
      }
      i := i + 2;
    }
    if |data| % 2 == 1 {
      var word := 256 * data[|data| - 1] as int;
      SumLast(data);
      assert data[..i] == data[..|data| - 1];
      AccumulatedStep(BeSum(data[..i]), word);
      acc := acc + word;
      if acc > 0xffff {
        acc := acc - 0xffff;
      }
    } else {
      assert data[..i] == data;
    }
    answer := Swap(0xffff - acc);
  }

  // Byte order independence

  function HighSum(d: seq<byte>): nat {
    if |d| < 2 then 0 else d[1] as int + HighSum(d[2..])
  }

  lemma {:induction false} SumsRelated(d: seq<byte>)
    ensures 256 * LeSum(d) == BeSum(d) + MOD * HighSum(d)
  {
    if |d| >= 2 {
      SumsRelated(d[2..]);
    }
  }

  lemma {:induction false} SumZero(d: seq<byte>)
    ensures LeSum(d) == 0 <==> forall i :: 0 <= i < |d| ==> d[i] == 0
  {
    if |d| >= 2 {
      SumZero(d[2..]);
      assert forall i :: 2 <= i < |d| ==> d[i] == d[2..][i - 2];
    }
  }

  lemma SwapIsTimes256(c: int)
    requires 0 <= c < 0x10000
    ensures 256 * Swap(c) == c + MOD * (c % 256)
    ensures 0 <= Swap(c) < 0x10000 && (Swap(c) == 0 <==> c == 0)
    ensures Swap(MOD - c) == MOD - Swap(c)
  {
  }

  /** 256 is invertible modulo 0xffff, because its square is 1. */
  lemma Cancel256(a: int, b: int, k: int)
    requires 256 * a - 256 * b == MOD * k
    ensures (a - b) % MOD == 0
  {
    assert a - b == MOD * (256 * k - (a - b));
  }

  /** Byte order independence: the two functions give the same 16-bit value on every data of at most 65536 bytes,
      odd lengths included, except that they differ on data without a nonzero byte. */
  lemma ChecksumsAgree(d: seq<byte>)
    ensures Deferred(d) == Immediate(d) <==> exists i :: 0 <= i < |d| && d[i] != 0
  {
    var l, b := LeSum(d), BeSum(d);
    var c := Accumulated(b);
    SumsRelated(d);
    SumZero(d);
    SwapIsTimes256(c);
    if l != 0 {
      var q := (b - c) / MOD;
      assert b - c == MOD * q;
      Cancel256(l, Swap(c), q + HighSum(d) - c % 256);
      UniqueResidue(Swap(c), Folded(l), l);
    }
  }

  const SAMPLE: seq<byte> := [0x00, 0x01, 0xf2, 0x03, 0xf4, 0xf5, 0xf6, 0xf7]

  /** The numerical example of RFC 1071, section 3: the checksum is 0x220d in network order. */
  lemma SampleChecksum()
    ensures Deferred(SAMPLE) == Immediate(SAMPLE) == Swap(0x220d)
  {
    assert SAMPLE[2..] == [0xf2, 0x03, 0xf4, 0xf5, 0xf6, 0xf7];
    assert SAMPLE[2..][2..] == [0xf4, 0xf5, 0xf6, 0xf7];
    assert SAMPLE[2..][2..][2..] == [0xf6, 0xf7];
    assert SAMPLE[2..][2..][2..][2..] == [];
    assert BeSum(SAMPLE) == 0x2_ddf0;
  }

  // Verification by the receiver

  /** The data with a 16-bit value stored at an offset, low byte first. */
  function Store(d: seq<byte>, at: nat, value: int): (r: seq<byte>)
    requires at + 1 < |d| && 0 <= value < 0x10000
    ensures |r| == |d|
  {
    d[at := value % 256][at + 1 := value / 256]
  }

  /** The 16-bit word at an offset, low byte first. */
  function Word(d: seq<byte>, at: nat): int
    requires at + 1 < |d|
  {
    d[at] as int + 256 * d[at + 1] as int
  }

  lemma StoreTail(d: seq<byte>, at: nat, value: int)
    requires 2 <= at && at + 1 < |d| && 0 <= value < 0x10000
    ensures Store(d, at, value)[2..] == Store(d[2..], at - 2, value)
    ensures Store(d, at, value)[0] == d[0] && Store(d, at, value)[1] == d[1]
    ensures Word(d, at) == Word(d[2..], at - 2)
  {
  }

  lemma {:induction false} StoreLeSum(d: seq<byte>, at: nat, value: int)
    requires at % 2 == 0 && at + 1 < |d| && 0 <= value < 0x10000
    ensures LeSum(Store(d, at, value)) == LeSum(d) - Word(d, at) + value
  {
    if at == 0 {
      assert Store(d, at, value)[2..] == d[2..];
    } else {
      StoreTail(d, at, value);
      StoreLeSum(d[2..], at - 2, value);
    }
  }

  lemma {:induction false} StoreBeSum(d: seq<byte>, at: nat, value: int)
    requires at % 2 == 0 && at + 1 < |d| && 0 <= value < 0x10000
    ensures BeSum(Store(d, at, value)) == BeSum(d) - Swap(Word(d, at)) + Swap(value)
  {
    if at == 0 {
      assert Store(d, at, value)[2..] == d[2..];
    } else {
      StoreTail(d, at, value);
      StoreBeSum(d[2..], at - 2, value);
    }
  }

  lemma DeferredZero(d: seq<byte>)
    ensures Deferred(d) == 0 <==> LeSum(d) > 0 && LeSum(d) % MOD == 0
  {
  }

  lemma ImmediateZero(d: seq<byte>)
    ensures Immediate(d) == 0 <==> BeSum(d) % MOD == 0
  {
    SwapIsTimes256(MOD - Accumulated(BeSum(d)));
  }

  lemma SwapTwice(x: int)
    requires 0 <= x < 0x10000
    ensures 0 <= Swap(x) < 0x10000 && Swap(Swap(x)) == x
  {
  }

  /** Storing the checksum in its zeroed field makes the same function give 0. */
  lemma StoredChecksumVerifies(d: seq<byte>, at: nat)
    requires at % 2 == 0 && at + 1 < |d| && d[at] == 0 && d[at + 1] == 0
    ensures 0 <= Deferred(d) < 0x10000 && Deferred(Store(d, at, Deferred(d))) == 0
    ensures 0 <= Immediate(d) < 0x10000 && Immediate(Store(d, at, Immediate(d))) == 0
  {
    DeferredStored(d, at);
    ImmediateStored(d, at);
  }

  lemma ComplementAdded(total: int, r: int)
    requires (total - r) % MOD == 0
    ensures (total + (MOD - r)) % MOD == 0
  {
  }

  lemma DeferredStored(d: seq<byte>, at: nat)
    requires at % 2 == 0 && at + 1 < |d| && d[at] == 0 && d[at + 1] == 0
    ensures Deferred(Store(d, at, Deferred(d))) == 0
  {
    StoreLeSum(d, at, Deferred(d));
    assert Word(d, at) == 0;
    ComplementAdded(LeSum(d), Folded(LeSum(d)));
    DeferredZero(Store(d, at, Deferred(d)));
  }

  lemma ImmediateStored(d: seq<byte>, at: nat)
    requires at % 2 == 0 && at + 1 < |d| && d[at] == 0 && d[at + 1] == 0
    ensures 0 <= Immediate(d) < 0x10000 && Immediate(Store(d, at, Immediate(d))) == 0
  {
    hide Store, BeSum, Accumulated;
    var complement := MOD - Accumulated(BeSum(d));
    SwapTwice(complement);
    StoreBeSum(d, at, Immediate(d));
    assert Word(d, at) == 0;
    ComplementAdded(BeSum(d), Accumulated(BeSum(d)));
    ImmediateZero(Store(d, at, Immediate(d)));
  }

  lemma SwapKeepsCongruence(v: int, w: int)
    requires 0 <= v < 0x10000 && 0 <= w < 0x10000
    ensures (Swap(v) - Swap(w)) % MOD == 0 <==> (v - w) % MOD == 0
  {
    SwapIsTimes256(v);
    SwapIsTimes256(w);
    TimesKeepsCongruence(v, w, Swap(v), Swap(w), v % 256 - w % 256);
  }

  lemma TimesKeepsCongruence(v: int, w: int, x: int, y: int, k: int)
    requires 256 * x - 256 * y == v - w + MOD * k
    ensures (x - y) % MOD == 0 <==> (v - w) % MOD == 0
  {
    if (v - w) % MOD == 0 {
      Cancel256(x, y, (v - w) / MOD + k);
    }
    if (x - y) % MOD == 0 {
      assert v - w == MOD * (256 * ((x - y) / MOD) - k);
    }
  }

  /** A change of one 16-bit word of verified data to a value not congruent modulo 0xffff is always detected; a
      congruent change never is, unless one of the two data has no nonzero byte elsewhere. */
  lemma ChangedWordDetected(d: seq<byte>, at: nat, value: int)
    requires at % 2 == 0 && at + 1 < |d| && 0 <= value < 0x10000
    ensures Deferred(d) == 0 && (value - Word(d, at)) % MOD != 0 ==> Deferred(Store(d, at, value)) != 0
    ensures Immediate(d) == 0 ==> (Immediate(Store(d, at, value)) != 0 <==> (value - Word(d, at)) % MOD != 0)
    ensures (exists i :: 0 <= i < |d| && i != at && i != at + 1 && d[i] != 0) ==>
              Deferred(d) == 0 && (value - Word(d, at)) % MOD == 0 ==> Deferred(Store(d, at, value)) == 0
  {
    hide Store, LeSum, BeSum, Swap, Word, Deferred, Immediate;
    var s := Store(d, at, value);
    StoreLeSum(d, at, value);
    StoreBeSum(d, at, value);
    DeferredZero(d);
    DeferredZero(s);
    ImmediateZero(d);
    ImmediateZero(s);
    WordInRange(d, at);
    SwapKeepsCongruence(value, Word(d, at));
    NonzeroElsewhere(d, at, value);
    SumChanged(LeSum(d), value, Word(d, at));
    SumChanged(BeSum(d), Swap(value), Swap(Word(d, at)));
  }

  lemma WordInRange(d: seq<byte>, at: nat)
    requires at + 1 < |d|
    ensures 0 <= Word(d, at) < 0x10000
  {
  }

  lemma NonzeroElsewhere(d: seq<byte>, at: nat, value: int)
    requires at + 1 < |d| && 0 <= value < 0x10000
    ensures (exists i :: 0 <= i < |d| && i != at && i != at + 1 && d[i] != 0) ==> LeSum(Store(d, at, value)) > 0
  {
    if exists i :: 0 <= i < |d| && i != at && i != at + 1 && d[i] != 0 {
      var i :| 0 <= i < |d| && i != at && i != at + 1 && d[i] != 0;
      assert Store(d, at, value)[i] != 0;
      SumZero(Store(d, at, value));
    }
  }

  lemma SumChanged(total: int, value: int, word: int)
    ensures total % MOD == 0 ==> ((total - word + value) % MOD == 0 <==> (value - word) % MOD == 0)
  {
  }
}
