/** The two segment queues together are a gap-free tiling of sequence space. */
module TcpQueue {
  import opened TcpSeq
  import opened Tcp

  predicate Sound(s: Segment) {
    s.tcpLen == |Octets(s)| && |s.data| <= MAX_SEGMENT && !(s.syn && s.fin)
  }

  /** From offset `off` on, the octets sent are those of the segments, each at its
      sequence number, one after the other up to the last octet. */
  predicate Tiles(q: seq<Segment>, iss: nat, off: nat, sent: seq<Octet>) {
    if q == [] then off == |sent|
    else
      var end := off + q[0].tcpLen;
      && Sound(q[0]) && q[0].seqno == Wrap(iss + off)
      && end <= |sent| && sent[off..end] == Octets(q[0])
      && Tiles(q[1..], iss, end, sent)
  }

  /** Something acknowledged reaches into the first segment at most. */
  predicate Reaches(q: seq<Segment>, into: nat) {
    into == 0 || (q != [] && into < q[0].tcpLen)
  }

  /** Of everything sent, what is queued is the end, and all before it is
      acknowledged. */
  predicate Tiling(q: seq<Segment>, iss: nat, sent: seq<Octet>, acked: nat) {
    var base := |sent| - Len(q);
    0 <= base <= acked <= |sent| && Len(q) < H && Tiles(q, iss, base, sent) && Reaches(q, acked - base)
  }

  lemma {:induction false} TilesLen(q: seq<Segment>, iss: nat, off: nat, sent: seq<Octet>)
    requires Tiles(q, iss, off, sent)
    ensures off + Len(q) == |sent|
  {
    if q != [] {
      TilesLen(q[1..], iss, off + q[0].tcpLen, sent);
    }
  }

  lemma {:induction false} LenConcat(q: seq<Segment>, r: seq<Segment>)
    ensures Len(q + r) == Len(q) + Len(r)
  {
    if q == [] {
      assert q + r == r;
    } else {
      assert (q + r)[1..] == q[1..] + r;
      LenConcat(q[1..], r);
    }
  }

  lemma SliceOfPrefix(sent: seq<Octet>, more: seq<Octet>, i: nat, j: nat)
    requires i <= j <= |sent|
    ensures (sent + more)[i..j] == sent[i..j]
  {
  }

  lemma SliceExtended(sent: seq<Octet>, more: seq<Octet>, i: nat)
    requires i <= |sent|
    ensures (sent + more)[i..|sent| + |more|] == sent[i..|sent|] + more
  {
  }

  lemma {:induction false} EnqueueTiles(q: seq<Segment>, iss: nat, off: nat, sent: seq<Octet>, s: Segment)
    requires Tiles(q, iss, off, sent) && Sound(s) && s.seqno == Wrap(iss + |sent|)
    ensures Tiles(q + [s], iss, off, sent + Octets(s))
  {
    if q == [] {
      assert (q + [s])[0] == s && (q + [s])[1..] == [];
      SliceExtended(sent, Octets(s), off);
    } else {
      assert (q + [s])[0] == q[0] && (q + [s])[1..] == q[1..] + [s];
      SliceOfPrefix(sent, Octets(s), off, off + q[0].tcpLen);
      EnqueueTiles(q[1..], iss, off + q[0].tcpLen, sent, s);
    }
  }

  lemma WithFinSound(s: Segment)
    requires Sound(s) && Plain(s)
    ensures var f := WithFin(s); Sound(f) && Octets(f) == Octets(s) + [Fin] && f.tcpLen == s.tcpLen + 1
  {
  }

  lemma ExtendLast(s: Segment, iss: nat, off: nat, sent: seq<Octet>)
    requires Tiles([s], iss, off, sent) && Plain(s)
    ensures Sound(s) && Tiles([WithFin(s)], iss, off, sent + [Fin])
  {
    assert [s][1..] == [] && [WithFin(s)][1..] == [];
    WithFinSound(s);
    SliceExtended(sent, [Fin], off);
  }

  /** A FIN put on the last segment. */
  lemma {:induction false} ExtendTiles(q: seq<Segment>, s: Segment, iss: nat, off: nat, sent: seq<Octet>)
    requires Tiles(q + [s], iss, off, sent) && Plain(s)
    ensures Sound(s) && Tiles(q + [WithFin(s)], iss, off, sent + [Fin])
  {
    var f := WithFin(s);
    if q == [] {
      assert q + [s] == [s] && q + [f] == [f];
      ExtendLast(s, iss, off, sent);
    } else {
      assert (q + [s])[0] == (q + [f])[0] == q[0];
      assert (q + [s])[1..] == q[1..] + [s] && (q + [f])[1..] == q[1..] + [f];
      SliceOfPrefix(sent, [Fin], off, off + q[0].tcpLen);
      ExtendTiles(q[1..], s, iss, off + q[0].tcpLen, sent);
    }
  }

  lemma ReachesStill(q: seq<Segment>, s: Segment, f: Segment, into: nat)
    requires (Reaches(q, into) || Reaches(q + [s], into)) && s.tcpLen <= f.tcpLen
    ensures Reaches(q + [f], into)
  {
    if q != [] {
      assert (q + [s])[0] == (q + [f])[0] == q[0];
    } else {
      assert (q + [s])[0] == s && (q + [f])[0] == f;
    }
  }

  lemma EnqueueTiling(q: seq<Segment>, iss: nat, sent: seq<Octet>, acked: nat, s: Segment)
    requires Tiling(q, iss, sent, acked)
    requires Sound(s) && s.seqno == Wrap(iss + |sent|) && Len(q) + s.tcpLen < H
    ensures Tiling(q + [s], iss, sent + Octets(s), acked) && Len(q + [s]) == Len(q) + s.tcpLen
  {
    var base := |sent| - Len(q);
    EnqueueTiles(q, iss, base, sent, s);
    LenConcat(q, [s]);
    ReachesStill(q, s, s, acked - base);
  }

  lemma ExtendTiling(q: seq<Segment>, s: Segment, iss: nat, sent: seq<Octet>, acked: nat)
    requires Tiling(q + [s], iss, sent, acked) && Plain(s) && Len(q + [s]) + 1 < H
    ensures Tiling(q + [WithFin(s)], iss, sent + [Fin], acked)
  {
    var f, base := WithFin(s), |sent| - Len(q + [s]);
    ExtendTiles(q, s, iss, base, sent);
    WithFinSound(s);
    LenConcat(q, [s]);
    LenConcat(q, [f]);
    ReachesStill(q, s, f, acked - base);
  }

  // ---------------------------------------------------------- acknowledgement

  /** The test that clearing makes on a segment asks whether it ends beyond k. */
  lemma EndBeyond(q: seq<Segment>, iss: nat, off: nat, sent: seq<Octet>, k: nat)
    requires q != [] && Tiles(q, iss, off, sent) && k < off + H && |sent| < k + H
    ensures GT(EndOf(q[0]), Wrap(iss + k)) <==> off + q[0].tcpLen > k
  {
    SubWrap(iss + off, q[0].tcpLen);
    CompareMeaning(iss + off + q[0].tcpLen, iss + k);
  }

  /** Clearing against an acknowledged position k: what stays tiles the rest, its first
      segment ends beyond k, and nothing above k went. */
  lemma {:induction false} DropTiles(q: seq<Segment>, iss: nat, off: nat, sent: seq<Octet>, k: nat) returns (to: nat)
    requires Tiles(q, iss, off, sent) && k < off + H && |sent| < k + H
    ensures off <= to && (to == off || to <= k)
    ensures Tiles(DropAcked(q, Wrap(iss + k)), iss, to, sent)
    ensures DropAcked(q, Wrap(iss + k)) != [] ==> k < to + DropAcked(q, Wrap(iss + k))[0].tcpLen
  {
    to := off;
    if q != [] {
      EndBeyond(q, iss, off, sent, k);
      if off + q[0].tcpLen <= k {
        to := DropTiles(q[1..], iss, off + q[0].tcpLen, sent, k);
      }
    }
  }

  lemma {:induction false} DropSuffix(q: seq<Segment>, ackno: nat)
    ensures var r := DropAcked(q, ackno); |r| <= |q| && r == q[|q| - |r|..]
  {
    var r := DropAcked(q, ackno);
    if q == [] || GT(EndOf(q[0]), ackno) {
      assert q[|q| - |q|..] == q;
    } else {
      DropSuffix(q[1..], ackno);
      assert q[1..][|q| - 1 - |r|..] == q[|q| - |r|..];
    }
  }

  lemma {:induction false} TilesSuffix(u: seq<Segment>, p: seq<Segment>, iss: nat, off: nat, sent: seq<Octet>)
    requires Tiles(u + p, iss, off, sent)
    ensures Tiles(p, iss, off + Len(u), sent)
  {
    if u == [] {
      assert u + p == p;
    } else {
      assert (u + p)[0] == u[0] && (u + p)[1..] == u[1..] + p;
      TilesSuffix(u[1..], p, iss, off + u[0].tcpLen, sent);
    }
  }

  /** Clearing one queue after the other is clearing the two together. */
  lemma {:induction false} DropConcat(u: seq<Segment>, p: seq<Segment>, iss: nat, off: nat, sent: seq<Octet>, k: nat)
    requires Tiles(u + p, iss, off, sent) && k < off + H && |sent| < k + H
    ensures DropAcked(u + p, Wrap(iss + k)) == DropAcked(u, Wrap(iss + k)) + DropAcked(p, Wrap(iss + k))
  {
    if u == [] {
      assert u + p == p;
    } else {
      EndBeyond(u + p, iss, off, sent, k);
      assert (u + p)[0] == u[0] && (u + p)[1..] == u[1..] + p;
      if off + u[0].tcpLen <= k {
        DropConcat(u[1..], p, iss, off + u[0].tcpLen, sent, k);
      } else {
        TilesSuffix(u, p, iss, off, sent);
        if p != [] {
          EndBeyond(p, iss, off + Len(u), sent, k);
        }
      }
    }
  }

  lemma AckTiling(q: seq<Segment>, iss: nat, sent: seq<Octet>, acked: nat, k: nat)
    requires Tiling(q, iss, sent, acked) && acked <= k <= |sent|
    ensures Tiling(DropAcked(q, Wrap(iss + k)), iss, sent, k)
    ensures k == |sent| ==> DropAcked(q, Wrap(iss + k)) == []
  {
    var to := DropTiles(q, iss, |sent| - Len(q), sent, k);
    TilesLen(DropAcked(q, Wrap(iss + k)), iss, to, sent);
  }

  // ---------------------------------------------------------------- the stream

  function Stream(q: seq<Segment>): seq<Octet> {
    if q == [] then [] else Octets(q[0]) + Stream(q[1..])
  }

  /** The octets of the queues are the octets sent after those they start behind. */
  lemma {:induction false} StreamConcat(q: seq<Segment>, r: seq<Segment>)
    ensures Stream(q + r) == Stream(q) + Stream(r)
  {
    if q == [] {
      assert q + r == r;
    } else {
      assert (q + r)[0] == q[0] && (q + r)[1..] == q[1..] + r;
      StreamConcat(q[1..], r);
      assert Octets(q[0]) + (Stream(q[1..]) + Stream(r)) == (Octets(q[0]) + Stream(q[1..])) + Stream(r);
    }
  }

  lemma {:induction false} TilesStream(q: seq<Segment>, iss: nat, off: nat, sent: seq<Octet>)
    requires Tiles(q, iss, off, sent)
    ensures off <= |sent| && Stream(q) == sent[off..]
  {
    if q != [] {
      var end := off + q[0].tcpLen;
      TilesStream(q[1..], iss, end, sent);
      assert sent[off..] == sent[off..end] + sent[end..];
    }
  }

  /** A segment carries, at its own number, the octets of that place in the stream. */
  predicate Carries(g: Segment, iss: nat, sent: seq<Octet>, at: int) {
    0 <= at <= at + g.tcpLen <= |sent| && Sound(g)
    && g.seqno == Wrap(iss + at) && Octets(g) == sent[at..at + g.tcpLen]
  }

  lemma {:induction false} TilesAt(q: seq<Segment>, iss: nat, off: nat, sent: seq<Octet>, i: nat)
    requires Tiles(q, iss, off, sent) && i < |q|
    ensures Carries(q[i], iss, sent, |sent| - Len(q[i..]))
  {
    if i == 0 {
      TilesLen(q, iss, off, sent);
      assert q[0..] == q;
    } else {
      TilesAt(q[1..], iss, off + q[0].tcpLen, sent, i - 1);
      assert q[1..][i - 1..] == q[i..];
    }
  }
}
