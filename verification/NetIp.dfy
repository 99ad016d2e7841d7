/** Checksums of whole packets: buffer chains, the pseudo header, the IPv4 header
    and the ICMP echo reply. */
module NetIp {
  import opened Division
  import opened NetChecksum

  datatype Buffer = Buffer(data: seq<nat>, address: nat)

  function Flatten(chain: seq<Buffer>): seq<nat> {
    if chain == [] then [] else Flatten(chain[..|chain| - 1]) + chain[|chain| - 1].data
  }

  predicate ChainBytes(chain: seq<Buffer>) {
    forall i | 0 <= i < |chain| :: Bytes(chain[i].data)
  }

  lemma {:induction false} FlattenBytes(chain: seq<Buffer>)
    requires ChainBytes(chain)
    ensures Bytes(Flatten(chain))
    decreases |chain|
  {
    if chain != [] {
      FlattenBytes(chain[..|chain| - 1]);
      var a, b := Flatten(chain[..|chain| - 1]), chain[|chain| - 1].data;
      assert forall i | 0 <= i < |a + b| :: (a + b)[i] == if i < |a| then a[i] else b[i - |a|];
    }
  }

  /** Every buffer of the chain, each at its own address, as if it were one. */
  method IpCsumNoFold(chain: seq<Buffer>) returns (ret: nat)
    requires ChainBytes(chain)
    ensures ret < W32 && Stands(ret, Sum(Flatten(chain), 0))
  {
    ret := 0;
    var offset := 0;
    for i := 0 to |chain|
      invariant offset == |Flatten(chain[..i])| && ret < W32 && Stands(ret, Sum(Flatten(chain[..i]), 0))
    {
      var part := Csum(chain[i].data, chain[i].address, offset);
      assert chain[..i + 1][..i] == chain[..i];
      SumConcat(Flatten(chain[..i]), chain[i].data, 0);
      Add32Meaning(ret, part);
      AddCarryStands(W32, ret, part, Sum(Flatten(chain[..i]), 0), Sum(chain[i].data, offset));
      ret := Add32WithCarry(ret, part);
      offset := offset + |chain[i].data|;
    }
    assert chain[..|chain|] == chain;
  }

  /** A folded 32-bit sum is the complement of the one's-complement sum. */
  lemma FoldIsComplement(sum: nat, s: seq<nat>)
    requires sum < W32 && Bytes(s) && Stands(sum, Sum(s, 0))
    ensures From32To16(sum) == OnesSum(s) && CsumFold(sum) == M - OnesSum(s)
  {
    From32To16Stands(sum, Sum(s, 0));
    OnesSumStands(s);
    StandsUnique(From32To16(sum), OnesSum(s), Sum(s, 0));
    CsumFoldMeaning(sum);
  }

  /** For every cut into buffers, every address and every length: the complement
      of the one's-complement sum of the bytes. */
  method IpCsum(chain: seq<Buffer>) returns (r: nat)
    requires ChainBytes(chain)
    ensures r == M - OnesSum(Flatten(chain))
  {
    var sum := IpCsumNoFold(chain);
    FlattenBytes(chain);
    FoldIsComplement(sum, Flatten(chain));
    r := CsumFold(sum);
  }

  method IpCsumRegion(s: seq<nat>, address: nat) returns (r: nat)
    requires Bytes(s)
    ensures r == M - OnesSum(s)
  {
    var sum := Csum(s, address, 0);
    FoldIsComplement(sum, s);
    r := CsumFold(sum);
  }

  // ------------------------------------------------------- the pseudo header

  /** Source and destination address, a zero byte, the protocol and the length,
      as section 3.1 of RFC 793 lays them out. */
  function PseudoHeader(src: seq<nat>, dst: seq<nat>, proto: nat, len: nat): seq<nat> {
    src + dst + [0, proto, len / 256, len % 256]
  }

  /** ntohs(len) << 16 plus proto << 8. */
  function LenProto(len: nat, proto: nat): nat {
    SwapBytes(len) * W16 + proto * 256
  }

  function PseudoCsum(len: nat, proto: nat, src: seq<nat>, dst: seq<nat>): nat
    requires |src| == 4 && |dst| == 4
  {
    AdcChain(W32, 0, 0, [Word32(dst, 0), Word32(src, 0), LenProto(len, proto)])
  }

  lemma Word32Alone(s: seq<nat>)
    requires Bytes(s) && |s| == 4
    ensures Stands(Word32(s, 0), Sum(s, 0)) && Word32(s, 0) < W32
  {
    Sum32(s, 0);
    assert s[0..4] == s;
  }

  lemma Total3(a: nat, b: nat, c: nat)
    ensures Total([a, b, c]) == a + (b + c)
  {
    assert [a, b, c][1..] == [b, c] && [b, c][1..] == [c] && [c][1..] == [];
    assert Total([c]) == c && Total([b, c]) == b + Total([c]);
  }

  lemma PseudoHeaderSum(src: seq<nat>, dst: seq<nat>, proto: nat, len: nat)
    requires |src| == 4 && |dst| == 4
    ensures Sum(PseudoHeader(src, dst, proto, len), 0)
            == Sum(dst, 0) + (Sum(src, 0) + Sum([0, proto, len / 256, len % 256], 0))
  {
    var tail := [0, proto, len / 256, len % 256];
    SumConcat(src + dst, tail, 0);
    SumConcat(src, dst, 0);
    SumParity(dst, 4, 0);
    SumParity(tail, 8, 0);
  }

  /** The three words of the pseudo header, added up. */
  lemma PseudoTotal(len: nat, proto: nat, src: seq<nat>, dst: seq<nat>)
    requires |src| == 4 && |dst| == 4 && Bytes(src) && Bytes(dst) && proto < 256 && len < W16
    ensures Word32(dst, 0) < W32 && Word32(src, 0) < W32 && LenProto(len, proto) < W32
    ensures Stands(Word32(dst, 0) + (Word32(src, 0) + LenProto(len, proto)), Sum(PseudoHeader(src, dst, proto, len), 0))
  {
    var tail := [0, proto, len / 256, len % 256];
    Word32Alone(src);
    Word32Alone(dst);
    Word32Alone(tail);
    var a, b, c := Word32(dst, 0), Word32(src, 0), Word32(tail, 0);
    assert c == LenProto(len, proto);
    PseudoHeaderSum(src, dst, proto, len);
    StandsAdd(b, c, Sum(src, 0), Sum(tail, 0));
    StandsAdd(a, b + c, Sum(dst, 0), Sum(src, 0) + Sum(tail, 0));
  }

  lemma PseudoCsumStands(len: nat, proto: nat, src: seq<nat>, dst: seq<nat>)
    requires |src| == 4 && |dst| == 4 && Bytes(src) && Bytes(dst) && proto < 256 && len < W16
    ensures PseudoCsum(len, proto, src, dst) < W32
    ensures Stands(PseudoCsum(len, proto, src, dst), Sum(PseudoHeader(src, dst, proto, len), 0))
  {
    var a, b, c := Word32(dst, 0), Word32(src, 0), LenProto(len, proto);
    PseudoTotal(len, proto, src, dst);
    AdcChainKeepsCarry(W32, 0, 0, [a, b, c]);
    FoldStandsTotal(W32, 0, [a, b, c], 0);
    Total3(a, b, c);
    StandsTrans(PseudoCsum(len, proto, src, dst), a + (b + c), Sum(PseudoHeader(src, dst, proto, len), 0));
  }

  /** The message together with its pseudo header; the length field is 16 bits. */
  method IpPseudoCsum(chain: seq<Buffer>, proto: nat, src: seq<nat>, dst: seq<nat>) returns (r: nat)
    requires ChainBytes(chain) && |src| == 4 && |dst| == 4 && Bytes(src) && Bytes(dst) && proto < 256
    ensures r == M - OnesSum(PseudoHeader(src, dst, proto, |Flatten(chain)| % W16) + Flatten(chain))
  {
    var sum := IpCsumNoFold(chain);
    var len := |Flatten(chain)| % W16;
    var headerSum := PseudoCsum(len, proto, src, dst);
    ghost var header, body := PseudoHeader(src, dst, proto, len), Flatten(chain);
    PseudoCsumStands(len, proto, src, dst);
    FlattenBytes(chain);
    SumConcat(header, body, 0);
    SumParity(body, 12, 0);
    Add32Meaning(sum, headerSum);
    AddCarryStands(W32, sum, headerSum, Sum(body, 0), Sum(header, 0));
    assert Bytes(header + body) by {
      assert forall i | 0 <= i < |header + body| ::
        (header + body)[i] ==
          if i < 4 then src[i] else if i < 8 then dst[i - 4] else if i < 12 then header[i] else body[i - 12];
      assert header[8] == 0 && header[9] == proto && header[10] == len / 256 && header[11] == len % 256;
    }
    FoldIsComplement(Add32WithCarry(sum, headerSum), header + body);
    r := CsumFold(Add32WithCarry(sum, headerSum));
  }

  // ------------------------------------------------------- the IPv4 header

  /** The number of 32-bit words in the header, from its first byte. */
  function HeaderWords(h: seq<nat>): nat
    requires |h| > 0
  {
    h[0] % 16
  }

  predicate Header(h: seq<nat>) {
    |h| > 0 && Bytes(h) && 5 <= HeaderWords(h) && 4 * HeaderWords(h) <= |h|
  }

  /** The register and carry flag after the first i bytes stand for those bytes, and
      the flag can still be added without overflow. */
  predicate Running(h: seq<nat>, i: nat, sum: nat, carry: nat) {
    i <= |h| && i % 2 == 0 && carry <= 1 && sum + carry < W32 && Stands(sum + carry, Sum(h[..i], 0))
  }

  lemma AdclRuns(h: seq<nat>, i: nat, sum: nat, carry: nat)
    requires Bytes(h) && Running(h, i, sum, carry) && i + 4 <= |h|
    ensures Word32(h, i) < W32 && AddCarry(W32, sum + carry, Word32(h, i)) < W32
    ensures Stands(AddCarry(W32, sum + carry, Word32(h, i)), Sum(h[..i + 4], 0))
  {
    Sum32(h, i);
    SumAppend(h, i, 4, 0);
    AddCarryStands(W32, sum + carry, Word32(h, i), Sum(h[..i], 0), Sum(h[i..i + 4], 0));
  }

  /** One adcl of the next word. */
  method Adcl(h: seq<nat>, i: nat, sum: nat, carry: nat) returns (s: nat, c: nat)
    requires Bytes(h) && Running(h, i, sum, carry) && i + 4 <= |h|
    ensures Running(h, i + 4, s, c)
  {
    var w := Word32(h, i);
    AdclRuns(h, i, sum, carry);
    CarryBack(sum + w + carry, W32);
    s, c := (sum + w + carry) % W32, (sum + w + carry) / W32;
  }

  /** The header checksum, computed by one chain of adds with carry. */
  method ComputeChecksum(h: seq<nat>) returns (r: nat)
    requires Header(h)
    ensures r == M - OnesSum(h[..4 * HeaderWords(h)])
  {
    var words := HeaderWords(h) - 4;
    var sum: nat, carry: nat := Word32(h, 0), 0;
    Sum32(h, 0);
    assert h[0..4] == h[..4];
    sum, carry := Adcl(h, 4, sum, carry);
    sum, carry := Adcl(h, 8, sum, carry);
    sum, carry := Adcl(h, 12, sum, carry);
    sum, carry := Adcl(h, 16, sum, carry);
    var i := 20;
    words := words - 1;
    while words != 0
      invariant words >= 0 && i + 4 * words == 4 * HeaderWords(h) && Running(h, i, sum, carry)
    {
      sum, carry := Adcl(h, i, sum, carry);
      i, words := i + 4, words - 1;
    }
    ModSmall(sum + carry, W32);
    sum := (sum + carry) % W32;
    FoldIsComplement(sum, h[..i]);
    r := M - From32To16(sum);
  }

  lemma {:induction false} SumUpdate(s: seq<nat>, i: nat, v: nat, parity: nat)
    requires i < |s|
    ensures var w := if (parity + i) % 2 == 0 then 1 else 256;
            Sum(s[i := v], parity) + w * s[i] == Sum(s, parity) + w * v
  {
    if i > 0 {
      assert s[i := v][1..] == s[1..][i - 1 := v];
      SumUpdate(s[1..], i - 1, v, parity + 1);
    }
  }

  lemma {:induction false} SumZero(s: seq<nat>, parity: nat)
    ensures Sum(s, parity) == 0 <==> forall i | 0 <= i < |s| :: s[i] == 0
  {
    if s != [] {
      SumZero(s[1..], parity + 1);
      assert forall i | 0 < i < |s| :: s[i] == s[1..][i - 1];
    }
  }

  /** A 16-bit field in the machine's byte order, at an even position. */
  function SetField(s: seq<nat>, i: nat, v: nat): seq<nat>
    requires i + 2 <= |s|
  {
    s[i := v % 256][i + 1 := v / 256]
  }

  lemma SetFieldSum(s: seq<nat>, i: nat, v: nat)
    requires i + 2 <= |s| && i % 2 == 0
    ensures Sum(SetField(s, i, v), 0) + Word16(s, i) == Sum(s, 0) + v
  {
    SetPairSum(s, i, v % 256, v / 256);
  }

  lemma SetPairSum(s: seq<nat>, i: nat, low: nat, high: nat)
    requires i + 2 <= |s| && i % 2 == 0
    ensures Sum(s[i := low][i + 1 := high], 0) + Word16(s, i) == Sum(s, 0) + low + 256 * high
  {
    var t := s[i := low];
    assert (0 + i) % 2 == 0 && (0 + (i + 1)) % 2 == 1;
    SumUpdate(s, i, low, 0);
    assert t[i + 1] == s[i + 1];
    SumUpdate(t, i + 1, high, 0);
  }

  lemma SetFieldBytes(s: seq<nat>, i: nat, v: nat)
    requires Bytes(s) && i + 2 <= |s| && v < W16
    ensures Bytes(SetField(s, i, v))
  {
  }

  function HeaderChecksum(h: seq<nat>): int
    requires Header(h)
  {
    M - OnesSum(h[..4 * HeaderWords(h)])
  }

  /** Storing the checksum of a header whose checksum field is zero makes the
      header verify: its checksum is then zero. */
  lemma HeaderRoundTrip(h: seq<nat>)
    requires Header(h) && Word16(h, 10) == 0
    ensures var c := HeaderChecksum(h);
            0 <= c < W16 && Header(SetField(h, 10, c)) && HeaderChecksum(SetField(h, 10, c)) == 0
  {
    var n := 4 * HeaderWords(h);
    var g := h[..n];
    OnesSumStands(g);
    var c := M - OnesSum(g);
    SetFieldBytes(h, 10, c);
    assert SetField(h, 10, c)[..n] == SetField(g, 10, c);
    assert Word16(g, 10) == Word16(h, 10);
    ComplementVerifies(g, 10, c);
  }

  /** A field at an even position that held zero and now holds the complement of
      the sum makes the sum all ones, unless every byte is zero. */
  lemma {:induction false} ComplementVerifies(g: seq<nat>, i: nat, c: nat)
    requires Bytes(g) && i + 2 <= |g| && i % 2 == 0 && Word16(g, i) == 0
    requires c + OnesSum(g) == M
    requires exists k :: 0 <= k < |g| && k != i && k != i + 1 && g[k] != 0
    ensures OnesSum(SetField(g, i, c)) == M
  {
    var g' := SetField(g, i, c);
    SetFieldBytes(g, i, c);
    ComplementCompletes(g, i, c);
    StaysNonZero(g, i, c);
    OnesSumStands(g');
    CompleteOnes(OnesSum(g'), Sum(g', 0));
  }

  lemma {:induction false} ComplementCompletes(g: seq<nat>, i: nat, c: nat)
    requires Bytes(g) && i + 2 <= |g| && i % 2 == 0 && Word16(g, i) == 0 && c + OnesSum(g) == M
    ensures Res(Sum(SetField(g, i, c), 0)) == 0
  {
    OnesSumStands(g);
    SetFieldSum(g, i, c);
    MultipleOfM(Sum(g, 0), OnesSum(g), c);
  }

  lemma {:induction false} StaysNonZero(g: seq<nat>, i: nat, c: nat)
    requires Bytes(g) && i + 2 <= |g| && exists k :: 0 <= k < |g| && k != i && k != i + 1 && g[k] != 0
    ensures Sum(SetField(g, i, c), 0) != 0
  {
    var k :| 0 <= k < |g| && k != i && k != i + 1 && g[k] != 0;
    var g' := SetField(g, i, c);
    assert g'[k] == g[k];
    SumZero(g', 0);
  }

  lemma MultipleOfM(t: nat, r: nat, c: nat)
    requires Res(r) == Res(t) && c + r == M
    ensures Res(t + c) == 0
  {
    ResAdd(r, t, c);
  }

  // ------------------------------------------------------------ ICMP echo

  const ECHO_REQUEST: nat := 8
  const ECHO_REPLY: nat := 0

  /** The checksum field after the type byte has dropped by eight: htons(0x0800)
      is 0x0008 and htons(0xffff - 0x0800) is 0xfff7 in memory. */
  function AdjustChecksum(c: nat): nat {
    if c >= 0xfff7 then (c + 8 + 1) % W16 else (c + 8) % W16
  }

  function EchoReply(m: seq<nat>): seq<nat>
    requires |m| >= 8
  {
    SetField(m[0 := ECHO_REPLY], 2, AdjustChecksum(Word16(m, 2)))
  }

  /** The rewrite keeps the message total the same modulo 2^16 - 1. */
  lemma ReplyCongruent(m: seq<nat>)
    requires |m| >= 8 && Bytes(m) && m[0] == ECHO_REQUEST
    ensures Bytes(EchoReply(m)) && Res(Sum(EchoReply(m), 0)) == Res(Sum(m, 0))
  {
    var c := Word16(m, 2);
    var t := m[0 := ECHO_REPLY];
    SumUpdate(m, 0, ECHO_REPLY, 0);
    assert Word16(t, 2) == c < W16;
    AdjustedBy(c);
    SetFieldSum(t, 2, AdjustChecksum(c));
    SetFieldBytes(t, 2, AdjustChecksum(c));
    SameResidue(Sum(m, 0), Sum(EchoReply(m), 0));
  }

  lemma SameResidue(a: nat, b: nat)
    requires a == b || a == b + M
    ensures Res(a) == Res(b)
  {
  }

  lemma AdjustedBy(c: nat)
    requires c < W16
    ensures AdjustChecksum(c) < W16 && (AdjustChecksum(c) == c + 8 || AdjustChecksum(c) == c + 8 - M)
  {
  }

  /** Bytes of the message other than its type and checksum are all zero. */
  predicate BlankRest(m: seq<nat>)
    requires |m| >= 8
  {
    m[1] == 0 && forall i | 4 <= i < |m| :: m[i] == 0
  }

  /** The reply to an accepted echo request verifies exactly when some byte besides
      the type and the checksum is not zero. */
  lemma ReplyVerifiesIff(m: seq<nat>)
    requires |m| >= 8 && Bytes(m) && m[0] == ECHO_REQUEST
    requires M - OnesSum(m) == 0
    ensures M - OnesSum(EchoReply(m)) == 0 <==> !BlankRest(m)
  {
    var r := EchoReply(m);
    ReplyCongruent(m);
    OnesSumStands(m);
    OnesSumStands(r);
    SumZero(r, 0);
    CompleteOnes(OnesSum(r), Sum(r, 0));
    if BlankRest(m) {
      BlankSum(m);
    } else {
      assert exists i | 0 <= i < |m| :: r[i] != 0 by {
        if m[1] != 0 {
          assert r[1] != 0;
        } else {
          var i :| 4 <= i < |m| && m[i] != 0;
          assert r[i] == m[i];
        }
      }
    }
  }

  /** An accepted request that is otherwise blank carries the one checksum whose
      adjustment wraps to zero. */
  lemma BlankSum(m: seq<nat>)
    requires |m| >= 8 && Bytes(m) && m[0] == ECHO_REQUEST && BlankRest(m) && Res(Sum(m, 0)) == 0
    ensures Word16(m, 2) == 0xfff7 && forall i | 0 <= i < |m| :: EchoReply(m)[i] == 0
  {
    var z := SetField(m, 2, 0);
    SetFieldSum(m, 2, 0);
    SumUpdate(z, 0, 0, 0);
    SumZero(z[0 := 0], 0);
    assert Sum(m, 0) == 8 + Word16(m, 2);
  }

  /** The smallest such request: echo with identifier, sequence number and payload
      all zero. The reply is all zeros and its checksum test gives 0xffff. */
  lemma BlankReplyRejected()
    ensures var m := [8, 0, 0xf7, 0xff, 0, 0, 0, 0];
            M - OnesSum(m) == 0 && M - OnesSum(EchoReply(m)) == M
  {
    var m := [8, 0, 0xf7, 0xff, 0, 0, 0, 0];
    assert Bytes(m) && BlankRest(m) && Word16(m, 2) == 0xfff7;
    var z := SetField(m, 2, 0);
    SetFieldSum(m, 2, 0);
    SumUpdate(z, 0, 0, 0);
    SumZero(z[0 := 0], 0);
    assert Sum(m, 0) == M;
    OnesSumStands(m);
    ReplyVerifiesIff(m);
    ReplyCongruent(m);
    OnesSumStands(EchoReply(m));
    CompleteOnes(OnesSum(EchoReply(m)), Sum(EchoReply(m), 0));
  }

  /** The reply is made in place of the request. Only the type and the checksum change;
      for a request that was accepted the total stays zero modulo 2^16 - 1, and the reply
      verifies exactly when something else in it is not zero. */
  method ReplyInPlace(m: array<nat>)
    requires m.Length >= 8 && Bytes(m[..]) && m[0] == ECHO_REQUEST
    modifies m
    ensures m[..] == EchoReply(old(m[..])) && m[0] == ECHO_REPLY
    ensures m[1] == old(m[1]) && m[4..] == old(m[4..])
    ensures Bytes(m[..]) && Res(Sum(m[..], 0)) == Res(Sum(old(m[..]), 0))
    ensures M - OnesSum(old(m[..])) == 0 ==> (M - OnesSum(m[..]) == 0 <==> !BlankRest(old(m[..])))
  {
    ghost var was := m[..];
    m[0] := ECHO_REPLY;
    var checksum := AdjustChecksum(m[2] + 256 * m[3]);
    m[2], m[3] := checksum % 256, checksum / 256;
    assert m[..] == EchoReply(was);
    ReplyCongruent(was);
    if M - OnesSum(was) == 0 {
      ReplyVerifiesIff(was);
    }
  }

  lemma CompleteOnes(r: nat, t: nat)
    requires r < W16 && Stands(r, t) && Res(t) == 0
    ensures r == 0 || r == M
  {
  }
}
