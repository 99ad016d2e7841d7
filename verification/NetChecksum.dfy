/** The Internet checksum: a plain one's-complement sum as section 1 of RFC 1071
    defines it, and the fast routine that must agree with it. */
module NetChecksum {
  import opened Division

  const M: nat := 65535
  const W16: nat := 0x1_0000
  const W32: nat := 0x1_0000_0000
  const W64: nat := 0x1_0000_0000_0000_0000

  predicate Bytes(s: seq<nat>) {
    forall i | 0 <= i < |s| :: s[i] < 256
  }

  // ------------------------------------------------------- the reference sum

  /** Addition with end-around carry in words of size w. */
  function AddCarry(w: nat, a: nat, b: nat): nat
    requires w > 0
  {
    if a + b < w then a + b else a + b - w + 1
  }

  /** One's-complement sum of consecutive 16-bit words in the machine's byte order;
      an odd byte at the end is padded with a zero byte. */
  function OnesSum(s: seq<nat>): nat {
    if s == [] then 0
    else if |s| == 1 then s[0]
    else AddCarry(W16, s[0] + 256 * s[1], OnesSum(s[2..]))
  }

  /** The same words added as natural numbers, starting at a byte of the given
      parity. */
  function Sum(s: seq<nat>, parity: nat): nat {
    if s == [] then 0
    else (if parity % 2 == 0 then s[0] else 256 * s[0]) + Sum(s[1..], parity + 1)
  }

  /** The residue modulo 2^16 - 1. */
  function Res(x: nat): (r: nat)
    ensures r < M
  {
    if x < M then x else Res(x - M)
  }

  lemma {:induction false} ResParts(x: nat) returns (q: nat)
    ensures x == q * M + Res(x)
  {
    if x < M {
      q := 0;
    } else {
      q := ResParts(x - M);
      q := q + 1;
    }
  }

  lemma {:induction false} ResShift(x: nat, k: nat)
    ensures Res(x + k * M) == Res(x)
    decreases k
  {
    if k > 0 {
      ResShift(x, k - 1);
      assert x + k * M - M == x + (k - 1) * M;
    }
  }

  lemma ResAdd(a: nat, b: nat, c: nat)
    requires Res(a) == Res(b)
    ensures Res(a + c) == Res(b + c)
  {
    var p := ResParts(a);
    var q := ResParts(b);
    ResShift(Res(a) + c, p);
    ResShift(Res(b) + c, q);
    assert a + c == (Res(a) + c) + p * M && b + c == (Res(b) + c) + q * M;
  }

  lemma ResScale(a: nat, b: nat)
    requires Res(a) == Res(b)
    ensures Res(256 * a) == Res(256 * b)
  {
    var p := ResParts(a);
    var q := ResParts(b);
    ResShift(256 * Res(a), 256 * p);
    ResShift(256 * Res(b), 256 * q);
    assert 256 * a == 256 * Res(a) + 256 * p * M && 256 * b == 256 * Res(b) + 256 * q * M;
  }

  /** r stands for the sum t: congruent modulo 2^16 - 1, and zero only for zero. */
  predicate Stands(r: nat, t: nat) {
    Res(r) == Res(t) && (r == 0 <==> t == 0)
  }

  lemma StandsAdd(a: nat, b: nat, s: nat, t: nat)
    requires Stands(a, s) && Stands(b, t)
    ensures Stands(a + b, s + t)
  {
    ResAdd(a, s, b);
    ResAdd(b, t, s);
  }

  lemma StandsTrans(a: nat, b: nat, t: nat)
    requires Stands(a, b) && Stands(b, t)
    ensures Stands(a, t)
  {
  }

  /** Taking off a multiple of the modulus, short of everything. */
  lemma StandsLess(r: nat, k: nat)
    requires r > 0
    ensures Stands(r, r + k * M)
  {
    ResShift(r, k);
  }

  lemma {:induction false} SumConcat(a: seq<nat>, b: seq<nat>, parity: nat)
    ensures Sum(a + b, parity) == Sum(a, parity) + Sum(b, parity + |a|)
  {
    if a == [] {
      assert a + b == b;
    } else {
      assert (a + b)[1..] == a[1..] + b;
      SumConcat(a[1..], b, parity + 1);
    }
  }

  lemma {:induction false} SumParity(s: seq<nat>, p: nat, q: nat)
    requires p % 2 == q % 2
    ensures Sum(s, p) == Sum(s, q)
  {
    if s != [] {
      SumParity(s[1..], p + 1, q + 1);
    }
  }

  /** Starting one byte later multiplies the sum by 256, that is, swaps bytes. */
  lemma {:induction false} SumShift(s: seq<nat>, parity: nat)
    ensures Res(256 * Sum(s, parity)) == Res(Sum(s, parity + 1))
    ensures Sum(s, parity) == 0 <==> Sum(s, parity + 1) == 0
  {
    if s != [] {
      SumShift(s[1..], parity + 1);
      assert parity % 2 == 0 <==> (parity + 1) % 2 == 1;
      ShiftStep(s[0], Sum(s[1..], parity + 1), Sum(s[1..], parity + 2));
    }
  }

  lemma ShiftStep(b: nat, a: nat, c: nat)
    requires Res(256 * a) == Res(c)
    ensures Res(256 * (b + a)) == Res(256 * b + c)
    ensures Res(256 * (256 * b + a)) == Res(b + c)
  {
    ResAdd(256 * a, c, 256 * b);
    ResAdd(256 * a, c, 65536 * b);
    ResShift(b + c, b);
    assert 65536 * b + c == (b + c) + b * M;
  }

  lemma {:induction false} OnesSumStands(s: seq<nat>)
    requires Bytes(s)
    ensures OnesSum(s) < W16 && Stands(OnesSum(s), Sum(s, 0))
  {
    if |s| >= 2 {
      OnesSumStands(s[2..]);
      SumParity(s[2..], 0, 2);
      assert s[1..][1..] == s[2..];
      var w := s[0] + 256 * s[1];
      assert Sum(s, 0) == w + Sum(s[2..], 2);
      AddCarryStands(W16, w, OnesSum(s[2..]), w, Sum(s[2..], 0));
    }
  }

  /** 16-bit values that stand for the same sum are equal. */
  lemma StandsUnique(a: nat, b: nat, t: nat)
    requires a < W16 && b < W16 && Stands(a, t) && Stands(b, t)
    ensures a == b
  {
  }

  // ------------------------------------------------------------ the fast parts

  lemma AddCarryStands(w: nat, a: nat, b: nat, s: nat, t: nat)
    requires w == W16 || w == W32 || w == W64
    requires a < w && b < w && Stands(a, s) && Stands(b, t)
    ensures AddCarry(w, a, b) < w && Stands(AddCarry(w, a, b), s + t)
  {
    StandsAdd(a, b, s, t);
    if a + b >= w {
      var r := a + b - w + 1;
      var k := if w == W16 then 1 else if w == W32 then 65537 else 65537 * 0x1_0000_0001;
      assert w == k * M + 1;
      StandsLess(r, k);
      StandsTrans(r, a + b, s + t);
    }
  }

  /** addl, adcl $0 on 32-bit registers. */
  function Add32WithCarry(a: nat, b: nat): nat {
    var s := a + b;
    (s % W32 + s / W32) % W32
  }

  lemma Add32Meaning(a: nat, b: nat)
    requires a < W32 && b < W32
    ensures Add32WithCarry(a, b) == AddCarry(W32, a, b)
  {
    CarryBack(a + b, W32);
  }

  /** addw, adcw $0 on the two halves of a 32-bit value. */
  function From32To16(val: nat): nat {
    var s := val / W16 % W16 + val % W16;
    (s % W16 + s / W16) % W16
  }

  lemma From32To16Meaning(h: nat, l: nat)
    requires h < W16 && l < W16
    ensures (h * W16 + l) / W16 == h && (h * W16 + l) % W16 == l
    ensures From32To16(h * W16 + l) == AddCarry(W16, h, l)
  {
    DivUnique(h * W16 + l, W16, h, l);
    DivUnique(h, W16, 0, h);
    CarryBack(h + l, W16);
  }

  lemma From32To16Stands(val: nat, t: nat)
    requires val < W32 && Stands(val, t)
    ensures From32To16(val) < W16 && Stands(From32To16(val), t)
  {
    var h, l := val / W16, val % W16;
    assert val == h * W16 + l && h < W16;
    From32To16Meaning(h, l);
    AddCarryStands(W16, h, l, h, l);
    assert val == (h + l) + h * M;
    ResShift(h + l, h);
    StandsTrans(From32To16(val), h + l, t);
  }

  /** The two halves added in the upper half of a register, so that adding 0xffff
      and the carry leaves the end-around sum there; then inverted. */
  function CsumFold(sum: nat): nat {
    var lower := sum % W16 * W16;
    var upper := sum - sum % W16;
    var s := upper + lower;
    var folded := (s % W32 + 0xffff + s / W32) % W32;
    M - folded / W16
  }

  lemma CsumFoldMeaning(sum: nat)
    requires sum < W32
    ensures CsumFold(sum) == M - From32To16(sum)
  {
    var h, l := sum / W16, sum % W16;
    assert sum == h * W16 + l && h < W16;
    From32To16Meaning(h, l);
    var s := (h + l) * W16;
    var c := if h + l < W16 then 0 else 1;
    DivUnique(s, W32, c, s - c * W32);
    var folded := s - c * W32 + 0xffff + c;
    DivUnique(folded, W32, 0, folded);
    if c == 0 {
      DivUnique(folded, W16, h + l, 0xffff);
    } else {
      DivUnique(folded, W16, h + l - W16 + 1, 0);
    }
  }

  /** A chain of add-with-carry instructions on registers of size w, ended by an
      adc of zero whose own carry is dropped. */
  function AdcChain(w: nat, res: nat, carry: nat, words: seq<nat>): nat
    requires w > 0
    decreases |words|
  {
    if words == [] then (res + carry) % w
    else
      var s := res + words[0] + carry;
      AdcChain(w, s % w, s / w, words[1..])
  }

  function FoldCarry(w: nat, res: nat, words: seq<nat>): nat
    requires w > 0
    decreases |words|
  {
    if words == [] then res else FoldCarry(w, AddCarry(w, res, words[0]), words[1..])
  }

  /** No carry is lost: a chain that starts without one never reaches the all-ones
      register with a carry pending, so the last adc cannot overflow. */
  lemma {:induction false} AdcChainKeepsCarry(w: nat, res: nat, carry: nat, words: seq<nat>)
    requires w > 1 && res < w && carry <= 1 && res + carry < w
    requires forall i | 0 <= i < |words| :: words[i] < w
    ensures AdcChain(w, res, carry, words) == FoldCarry(w, res + carry, words)
    decreases |words|
  {
    if words == [] {
      ModSmall(res + carry, w);
    } else {
      var s := res + words[0] + carry;
      CarryBack(s, w);
      var low, high := s % w, s / w;
      AdcChainKeepsCarry(w, low, high, words[1..]);
      assert AdcChain(w, res, carry, words) == AdcChain(w, low, high, words[1..]);
      assert AddCarry(w, res + carry, words[0]) == low + high;
    }
  }

  lemma ModSmall(a: nat, w: nat)
    requires a < w
    ensures a % w == a
  {
    DivUnique(a, w, 0, a);
  }

  function Total(words: seq<nat>): nat {
    if words == [] then 0 else words[0] + Total(words[1..])
  }

  lemma {:induction false} FoldStandsTotal(w: nat, res: nat, words: seq<nat>, t: nat)
    requires w == W16 || w == W32 || w == W64
    requires res < w && Stands(res, t) && forall i | 0 <= i < |words| :: words[i] < w
    ensures FoldCarry(w, res, words) < w && Stands(FoldCarry(w, res, words), t + Total(words))
    decreases |words|
  {
    if words != [] {
      AddCarryStands(w, res, words[0], t, words[0]);
      FoldStandsTotal(w, AddCarry(w, res, words[0]), words[1..], t + words[0]);
    }
  }

  // ------------------------------------------------------- the fast routine

  function Word16(s: seq<nat>, i: nat): nat
    requires i + 2 <= |s|
  {
    s[i] + 256 * s[i + 1]
  }

  function Word32(s: seq<nat>, i: nat): nat
    requires i + 4 <= |s|
  {
    Word16(s, i) + W16 * Word16(s, i + 2)
  }

  function Word64(s: seq<nat>, i: nat): nat
    requires i + 8 <= |s|
  {
    Word32(s, i) + W32 * Word32(s, i + 4)
  }

  /** The first i bytes are in the running result, weighted as the pointer's own
      parity has it. */
  predicate Summed(s: seq<nat>, i: nat, odd: nat, result: nat) {
    i <= |s| && (i + odd) % 2 == 0 && Stands(result, Sum(s[..i], odd))
  }

  lemma SumAppend(s: seq<nat>, i: nat, n: nat, odd: nat)
    requires i + n <= |s| && (i + odd) % 2 == 0
    ensures Sum(s[..i + n], odd) == Sum(s[..i], odd) + Sum(s[i..i + n], 0)
  {
    assert s[..i + n] == s[..i] + s[i..i + n];
    SumConcat(s[..i], s[i..i + n], odd);
    SumParity(s[i..i + n], odd + i, 0);
  }

  lemma Sum16(s: seq<nat>, i: nat)
    requires Bytes(s) && i + 2 <= |s|
    ensures Sum(s[i..i + 2], 0) == Word16(s, i) < W16
  {
    var w := s[i..i + 2];
    assert w[1..][1..] == [];
    assert Sum(w[1..], 1) == 256 * w[1] + Sum(w[1..][1..], 2);
  }

  lemma Sum32(s: seq<nat>, i: nat)
    requires Bytes(s) && i + 4 <= |s|
    ensures Stands(Word32(s, i), Sum(s[i..i + 4], 0)) && Word32(s, i) < W32
  {
    Sum16(s, i);
    Sum16(s, i + 2);
    assert s[i..i + 4] == s[i..i + 2] + s[i + 2..i + 4];
    SumConcat(s[i..i + 2], s[i + 2..i + 4], 0);
    SumParity(s[i + 2..i + 4], 2, 0);
    var low, high := Word16(s, i), Word16(s, i + 2);
    assert low + W16 * high == (low + high) + high * M;
    ResShift(low + high, high);
  }

  lemma Sum64(s: seq<nat>, i: nat)
    requires Bytes(s) && i + 8 <= |s|
    ensures Stands(Word64(s, i), Sum(s[i..i + 8], 0)) && Word64(s, i) < W64
  {
    Sum32(s, i);
    Sum32(s, i + 4);
    assert s[i..i + 8] == s[i..i + 4] + s[i + 4..i + 8];
    SumConcat(s[i..i + 4], s[i + 4..i + 8], 0);
    SumParity(s[i + 4..i + 8], 4, 0);
    var low, high := Word32(s, i), Word32(s, i + 4);
    HighWord(low, high);
    StandsAdd(low, high, Sum(s[i..i + 4], 0), Sum(s[i + 4..i + 8], 0));
    StandsTrans(low + W32 * high, low + high, Sum(s[i..i + 8], 0));
  }

  lemma HighWord(low: nat, high: nat)
    requires low < W32 && high < W32
    ensures Stands(low + W32 * high, low + high) && low + W32 * high < W64
  {
    assert low + W32 * high == (low + high) + 65537 * high * M;
    ResShift(low + high, 65537 * high);
  }

  lemma Add16(s: seq<nat>, i: nat, odd: nat, result: nat)
    requires Bytes(s) && i + 2 <= |s| && Summed(s, i, odd, result)
    ensures Summed(s, i + 2, odd, result + Word16(s, i)) && Word16(s, i) < W16
  {
    Sum16(s, i);
    SumAppend(s, i, 2, odd);
    StandsAdd(result, Word16(s, i), Sum(s[..i], odd), Word16(s, i));
  }

  lemma Add32(s: seq<nat>, i: nat, odd: nat, result: nat)
    requires Bytes(s) && i + 4 <= |s| && Summed(s, i, odd, result)
    ensures Summed(s, i + 4, odd, result + Word32(s, i)) && Word32(s, i) < W32
  {
    Sum32(s, i);
    SumAppend(s, i, 4, odd);
    StandsAdd(result, Word32(s, i), Sum(s[..i], odd), Sum(s[i..i + 4], 0));
  }

  /** The 64-bit words of a block. */
  function Words64(b: seq<nat>): seq<nat> {
    if |b| < 8 then [] else [Word64(b, 0)] + Words64(b[8..])
  }

  lemma {:induction false} TotalWords64(b: seq<nat>)
    requires Bytes(b) && |b| % 8 == 0
    ensures Stands(Total(Words64(b)), Sum(b, 0))
    ensures forall k | 0 <= k < |Words64(b)| :: Words64(b)[k] < W64
  {
    if |b| >= 8 {
      var head, rest, ws := b[0..8], b[8..], Words64(b);
      Sum64(b, 0);
      TotalWords64(rest);
      assert ws[0] == Word64(b, 0) && ws[1..] == Words64(rest);
      assert b == head + rest;
      SumConcat(head, rest, 0);
      SumParity(rest, 8, 0);
      StandsAdd(ws[0], Total(ws[1..]), Sum(head, 0), Sum(rest, 0));
    }
  }

  /** One asm block over the 64-bit words of b. */
  lemma BlockStands(b: seq<nat>, result: nat, t: nat)
    requires Bytes(b) && |b| % 8 == 0 && result < W64 && Stands(result, t)
    ensures AdcChain(W64, result, 0, Words64(b)) < W64
    ensures Stands(AdcChain(W64, result, 0, Words64(b)), t + Sum(b, 0))
  {
    TotalWords64(b);
    var ws := Words64(b);
    AdcChainKeepsCarry(W64, result, 0, ws);
    FoldStandsTotal(W64, result, ws, t);
    StandsAdd(t, Total(ws), t, Sum(b, 0));
    StandsTrans(FoldCarry(W64, result, ws), t + Total(ws), t + Sum(b, 0));
  }

  lemma AddBlock(s: seq<nat>, i: nat, n: nat, odd: nat, result: nat)
    requires Bytes(s) && i + n <= |s| && n % 8 == 0 && Summed(s, i, odd, result) && result < W64
    ensures AdcChain(W64, result, 0, Words64(s[i..i + n])) < W64
    ensures Summed(s, i + n, odd, AdcChain(W64, result, 0, Words64(s[i..i + n])))
  {
    BlockStands(s[i..i + n], result, Sum(s[..i], odd));
    SumAppend(s, i, n, odd);
    StillEven(i + odd, n);
  }

  lemma StillEven(a: nat, n: nat)
    requires a % 2 == 0 && n % 8 == 0
    ensures (a + n) % 2 == 0
  {
  }

  /** The two halves of a 64-bit result added with carry stand for the same sum. */
  lemma HalvesStand(result: nat, t: nat)
    requires result < W64 && Stands(result, t)
    ensures Add32WithCarry(result / W32, result % W32) < W32
    ensures Stands(Add32WithCarry(result / W32, result % W32), t)
  {
    var h, l := result / W32, result % W32;
    assert result == h * W32 + l && h < W32;
    HighWord(l, h);
    Add32Meaning(h, l);
    AddCarryStands(W32, h, l, h, l);
  }

  /** Cache lines first, eight words to a block, then single words. */
  method SumWords(s: seq<nat>, start: nat, count: nat, odd: nat, initial: nat) returns (result: nat, i: nat)
    requires Bytes(s) && start + 8 * count <= |s| && Summed(s, start, odd, initial) && initial < W64
    ensures i == start + 8 * count && Summed(s, i, odd, result) && result < W64
  {
    result, i := initial, start;
    var count64 := count / 8;
    while count64 > 0
      invariant count64 >= 0 && i + 64 * count64 + 8 * (count % 8) == start + 8 * count
      invariant Summed(s, i, odd, result) && result < W64
    {
      AddBlock(s, i, 64, odd, result);
      result := AdcChain(W64, result, 0, Words64(s[i..i + 64]));
      i := i + 64;
      count64 := count64 - 1;
    }
    var rest := count % 8;
    while rest > 0
      invariant rest >= 0 && i + 8 * rest == start + 8 * count
      invariant Summed(s, i, odd, result) && result < W64
    {
      AddBlock(s, i, 8, odd, result);
      result := AdcChain(W64, result, 0, Words64(s[i..i + 8]));
      rest := rest - 1;
      i := i + 8;
    }
  }

  lemma Counts(len: nat)
    ensures 8 * (len / 4 / 2) + len % 8 == len
    ensures len / 4 % 2 == 1 ==> len % 8 == 4 + len % 4
    ensures len / 4 % 2 != 1 ==> len % 8 == len % 4
    ensures len >= 4 ==> (len - 4) / 4 == len / 4 - 1
  {
  }

  /** The 32-bit word that may remain after the 64-bit ones. */
  method SumTail(s: seq<nat>, from: nat, odd: nat, initial: nat, len: nat) returns (result: nat, i: nat)
    requires Bytes(s) && Summed(s, from, odd, initial) && initial < W32 && from + len % 8 == |s|
    ensures i + len % 4 == |s| && Summed(s, i, odd, result) && result < 2 * W32
  {
    result, i := initial, from;
    Counts(len);
    if len / 4 % 2 == 1 {
      Add32(s, i, odd, result);
      result := result + Word32(s, i);
      i := i + 4;
    }
  }

  /** From a four-byte aligned address on, when at least one 32-bit word is left:
      an odd 32-bit word, 64-bit words, and the 32-bit word that may remain. */
  method SumWide(s: seq<nat>, address: nat, from: nat, odd: nat, initial: nat) returns (result: nat, i: nat, len: nat)
    requires Bytes(s) && Summed(s, from, odd, initial) && initial < 2 * W16 && from + 4 <= |s|
    ensures i + len % 4 == |s| && Summed(s, i, odd, result) && result < 2 * W32
  {
    result, i, len := initial, from, |s| - from;
    var count := len / 4;
    if (address + i) / 4 % 2 == 1 {
      Add32(s, i, odd, result);
      Counts(len);
      result := result + Word32(s, i);
      count, len, i := count - 1, len - 4, i + 4;
    }
    count := count / 2;
    Counts(len);
    result, i := SumWords(s, i, count, odd, result);
    HalvesStand(result, Sum(s[..i], odd));
    result := Add32WithCarry(result / W32, result % W32);
    result, i := SumTail(s, i, odd, result, len);
  }

  /** All the 16-bit words; the odd byte at the end, if any, is not touched. */
  method SumEven(s: seq<nat>, address: nat, from: nat, odd: nat, initial: nat) returns (result: nat, i: nat)
    requires Bytes(s) && Summed(s, from, odd, initial) && initial < W16
    ensures |s| - 1 <= i <= |s| && Summed(s, i, odd, result) && result < 4 * W32
  {
    result, i := initial, from;
    var len := |s| - i;
    var count := len / 2;
    if count > 0 {
      if (address + i) / 2 % 2 == 1 {
        Add16(s, i, odd, result);
        result := result + Word16(s, i);
        count, len, i := count - 1, len - 2, i + 2;
      }
      count := count / 2;
      if count > 0 {
        result, i, len := SumWide(s, address, i, odd, result);
      }
      if len / 2 % 2 == 1 {
        Add16(s, i, odd, result);
        result := result + Word16(s, i);
        i := i + 2;
      }
    }
  }

  function SwapBytes(v: nat): nat {
    v / 256 % 256 + v % 256 * 256
  }

  lemma SwapStands(v: nat, t: nat)
    requires v < W16 && Stands(v, t)
    ensures SwapBytes(v) < W16 && Res(SwapBytes(v)) == Res(256 * t) && (SwapBytes(v) == 0 <==> t == 0)
  {
    var h, l := v / 256, v % 256;
    assert v == h * 256 + l && h < 256 && h % 256 == h;
    ResShift(h + l * 256, h);
    assert 256 * v == (h + l * 256) + h * M;
    ResScale(v, t);
  }

  /** At an odd address the first byte is the high one of its word. */
  lemma {:induction false} FirstByte(s: seq<nat>)
    requires Bytes(s) && s != []
    ensures Summed(s, 1, 1, s[0] * 256)
  {
    assert s[..1] == [s[0]] && [s[0]][1..] == [];
    assert Sum([s[0]], 1) == 256 * s[0] + Sum([s[0]][1..], 2);
  }

  /** Checksum of one contiguous region, for any address, length and position of
      the region in the message. */
  method Csum(s: seq<nat>, address: nat, offset: nat) returns (result: nat)
    requires Bytes(s)
    ensures result < W32 && Stands(result, Sum(s, offset))
  {
    if |s| == 0 {
      return 0;
    }
    var odd := address % 2;
    var i := 0;
    result := 0;
    if odd == 1 {
      result := s[0] * 256;
      i := 1;
      FirstByte(s);
    } else {
      assert s[..0] == [];
    }
    result, i := SumEven(s, address, i, odd, result);
    LastByte(s, i, odd, result);
    if (|s| - i) % 2 == 1 {
      result := result + s[i];
    }
    HalvesStand(result, Sum(s, odd));
    result := Add32WithCarry(result / W32, result % W32);
    result := Place(s, odd, offset, result);
  }

  /** Bytes are swapped when the parity of the address is not that of the position. */
  method Place(s: seq<nat>, odd: nat, offset: nat, sum: nat) returns (result: nat)
    requires odd <= 1 && sum < W32 && Stands(sum, Sum(s, odd))
    ensures result < W32 && Stands(result, Sum(s, offset))
  {
    result := sum;
    if odd != offset % 2 {
      From32To16Stands(result, Sum(s, odd));
      result := From32To16(result);
      SwapStands(result, Sum(s, odd));
      SumShift(s, odd);
      SumParity(s, odd + 1, offset);
      result := SwapBytes(result);
    } else {
      SumParity(s, odd, offset);
    }
  }

  lemma {:induction false} LastByte(s: seq<nat>, i: nat, odd: nat, result: nat)
    requires Bytes(s) && |s| - 1 <= i <= |s| && Summed(s, i, odd, result)
    ensures Stands(if i < |s| then result + s[i] else result, Sum(s, odd))
  {
    if i < |s| {
      SumAppend(s, i, 1, odd);
      assert s[..i + 1] == s && s[i..i + 1] == [s[i]];
      assert Sum([s[i]], 0) == s[i] + Sum([s[i]][1..], 1);
      StandsAdd(result, s[i], Sum(s[..i], odd), s[i]);
    } else {
      assert s[..i] == s;
    }
  }
}
