/** Messages cut out of a byte stream that arrives in arbitrary chunks. */
module Messenger {
  import B = IOBuf
  import C = ChainSplit

  const HEADER := 24
  const PREALLOCATE_CHAIN_LEN := 100
  const U32 := 0x1_0000_0000

  /** The length field: eight bytes, the low one first. */
  function Little(bytes: seq<nat>): nat {
    if bytes == [] then 0 else bytes[0] + 256 * Little(bytes[1..])
  }

  /** The header's own account of how long the message is. */
  function MessageLen(bytes: seq<nat>): nat
    requires |bytes| >= HEADER
  {
    HEADER + Little(bytes[..8])
  }

  predicate Framed(m: seq<nat>) {
    |m| >= HEADER && |m| == MessageLen(m)
  }

  predicate AllFramed(ms: seq<seq<nat>>) {
    forall i | 0 <= i < |ms| :: Framed(ms[i])
  }

  /** Not yet a whole message. */
  predicate Incomplete(bytes: seq<nat>) {
    |bytes| < HEADER || |bytes| < MessageLen(bytes)
  }

  lemma SameHeader(x: seq<nat>, y: seq<nat>)
    requires |x| >= HEADER && |y| >= HEADER && x[..HEADER] == y[..HEADER]
    ensures MessageLen(x) == MessageLen(y)
  {
    assert x[..8] == x[..HEADER][..8] && y[..8] == y[..HEADER][..8];
  }

  // ----------------------------------------------------------------- the header

  function Pow256(n: nat): (r: nat)
    ensures r > 0
  {
    if n == 0 then 1 else 256 * Pow256(n - 1)
  }

  /** A field of so many bytes, the low one first. */
  function Field(value: nat, width: nat): (r: seq<nat>)
    ensures |r| == width && forall i | 0 <= i < width :: r[i] < 256
  {
    if width == 0 then [] else [value % 256] + Field(value / 256, width - 1)
  }

  lemma {:induction false} FieldRoundTrip(value: nat, width: nat)
    requires value < Pow256(width)
    ensures Little(Field(value, width)) == value
  {
    if width > 0 {
      FieldRoundTrip(value / 256, width - 1);
      assert Field(value, width)[1..] == Field(value / 256, width - 1);
    }
  }

  /** What Send is asked to send. */
  datatype Post = Post(data: seq<nat>, typeCode: nat, id: nat)

  predicate Sendable(p: Post) {
    |p.data| < Pow256(8) && p.typeCode < Pow256(8) && p.id < Pow256(4)
  }

  /** The header that Send puts in front: length, type and id, padded to its size. */
  function Header(length: nat, typeCode: nat, id: nat, padding: seq<nat>): (r: seq<nat>)
    requires |padding| == 4
    ensures |r| == HEADER
  {
    Field(length, 8) + Field(typeCode, 8) + Field(id, 4) + padding
  }

  function Message(p: Post, padding: seq<nat>): seq<nat>
    requires |padding| == 4
  {
    Header(|p.data|, p.typeCode, p.id, padding) + p.data
  }

  /** What the receiving object is given, and how it is found. */
  function Opened(m: seq<nat>): Post
    requires |m| >= HEADER
  {
    Post(m[HEADER..], Little(m[8..16]), Little(m[16..20]))
  }

  /** A message that was sent is framed, its header says 24 bytes more than its data, and
      opening it gives back what was sent. */
  lemma MessageRoundTrip(p: Post, padding: seq<nat>)
    requires Sendable(p) && |padding| == 4
    ensures var m := Message(p, padding); Framed(m) && MessageLen(m) == 24 + |p.data| && Opened(m) == p
  {
    var m := Message(p, padding);
    FieldRoundTrip(|p.data|, 8);
    FieldRoundTrip(p.typeCode, 8);
    FieldRoundTrip(p.id, 4);
    assert m[..8] == Field(|p.data|, 8) && m[8..16] == Field(p.typeCode, 8) && m[16..20] == Field(p.id, 4);
    assert m[HEADER..] == p.data;
  }

  // ---------------------------------------------------------------- reframing

  /** However it was cut: bytes taken apart into whole messages and an incomplete rest
      are the messages that were sent, once each and in order, and the rest is the
      beginning of the next one. */
  lemma {:induction false} Reframed(sent: seq<seq<nat>>, got: seq<seq<nat>>, rest: seq<nat>)
    requires AllFramed(sent) && AllFramed(got) && Incomplete(rest)
    requires B.Join(got) + rest <= B.Join(sent)
    ensures got <= sent
    ensures |got| < |sent| ==> rest < sent[|got|]
    ensures |got| == |sent| ==> rest == []
    ensures B.Join(got) + rest == B.Join(sent) ==> got == sent
  {
    if got == [] {
      assert B.Join(got) + rest == rest;
      if sent != [] {
        RestIsShort(sent[0], B.Join(sent[1..]), rest);
        assert |rest| < |B.Join(sent)|;
      }
    } else {
      assert B.Join(got) + rest == got[0] + (B.Join(got[1..]) + rest);
      assert sent != [];
      FirstIsSame(sent[0], B.Join(sent[1..]), got[0], B.Join(got[1..]) + rest);
      Reframed(sent[1..], got[1..], rest);
      assert got == [got[0]] + got[1..] && sent == [sent[0]] + sent[1..];
    }
  }

  lemma RestIsShort(m: seq<nat>, more: seq<nat>, rest: seq<nat>)
    requires Framed(m) && Incomplete(rest) && rest <= m + more
    ensures rest < m
  {
    if |rest| >= |m| {
      assert rest[..HEADER] == (m + more)[..HEADER] == m[..HEADER];
      SameHeader(rest, m);
    } else {
      assert rest == (m + more)[..|rest|] == m[..|rest|];
    }
  }

  lemma FirstIsSame(m: seq<nat>, more: seq<nat>, g: seq<nat>, rest: seq<nat>)
    requires Framed(m) && Framed(g) && g + rest <= m + more
    ensures g == m && rest <= more
  {
    var x, y := g + rest, m + more;
    assert g[..HEADER] == x[..HEADER] == y[..HEADER] == m[..HEADER];
    SameHeader(g, m);
    assert g == x[..|g|] == y[..|g|] == m;
    assert rest == x[|g|..] && more == y[|g|..];
  }

  // --------------------------------------------------------------- connection

  class Connection {
    /** The chain held back; the empty sequence is the null pointer. */
    var buf: seq<seq<nat>>
    /** When preallocate is not 0, the buffer for the whole message and how much of it is
        filled. */
    var area: array<nat>
    var preallocate: nat
    /** Messages handed on, header and all. */
    var delivered: seq<seq<nat>>

    ghost var received: seq<nat>

    ghost function Pending(): seq<nat>
      reads this, area
    {
      if 0 < preallocate <= area.Length then area[..preallocate] else B.Join(buf)
    }

    ghost predicate Valid()
      reads this, area
    {
      && B.Join(delivered) + Pending() == received
      && AllFramed(delivered) && Incomplete(Pending())
      && (preallocate > 0 ==> HEADER <= preallocate <= area.Length == MessageLen(area[..preallocate]) && buf == [])
    }

    constructor ()
      ensures Valid() && received == [] && delivered == [] && fresh(area)
    {
      buf, preallocate, delivered, received := [], 0, [], [];
      area := new nat[0];
    }

    /** Hands a whole message to its object. */
    method ProcessMessage(m: seq<nat>)
      modifies this`delivered
      ensures delivered == old(delivered) + [m] && B.Join(delivered) == B.Join(old(delivered)) + m
    {
      B.JoinConcat(delivered, [m]);
      assert [m][1..] == [];
      delivered := delivered + [m];
    }

    /** memcpy of the links behind what the area holds. */
    method CopyIn(chunk: seq<seq<nat>>)
      requires preallocate + |B.Join(chunk)| <= area.Length
      modifies this`preallocate, area
      ensures preallocate == old(preallocate) + |B.Join(chunk)|
      ensures area[..preallocate] == old(area[..preallocate]) + B.Join(chunk)
    {
      var i := 0;
      ghost var was := area[..preallocate];
      assert chunk[..0] == [];
      while i < |chunk|
        invariant 0 <= i <= |chunk| && preallocate == |was| + |B.Join(chunk[..i])| <= area.Length
        invariant area[..preallocate] == was + B.Join(chunk[..i])
      {
        B.JoinOne(chunk, i);
        JoinPrefix(chunk, i + 1);
        CopyLink(chunk[i]);
        i := i + 1;
      }
      assert chunk[..i] == chunk;
    }

    method CopyLink(link: seq<nat>)
      requires preallocate + |link| <= area.Length
      modifies this`preallocate, area
      ensures preallocate == old(preallocate) + |link|
      ensures area[..preallocate] == old(area[..preallocate]) + link
    {
      forall i | 0 <= i < |link| {
        area[preallocate + i] := link[i];
      }
      preallocate := preallocate + |link|;
    }

    /** A chunk while the buffer for the message is there already. */
    method Preallocated(chunk: seq<seq<nat>>)
      requires Valid() && preallocate > 0 && preallocate + |B.Join(chunk)| <= area.Length
      modifies this, area
      ensures Valid() && received == old(received) + B.Join(chunk) && area == old(area)
    {
      ghost var was := area[..preallocate];
      CopyIn(chunk);
      ghost var m := area[..preallocate];
      Filled(m, was, B.Join(chunk), area.Length);
      Longer(B.Join(delivered), was, B.Join(chunk));
      received := received + B.Join(chunk);
      if preallocate == area.Length {
        assert area[..] == m;
        preallocate := 0;
        ProcessMessage(area[..]);
      }
    }

    /** A long message in a thinly filled chain is moved to a buffer of its own size;
        how thinly filled is for the caller to know. */
    method CheckPreallocate(sparse: bool)
      requires Valid() && preallocate == 0 && |B.Join(buf)| >= HEADER
      modifies this
      ensures Valid() && received == old(received) && delivered == old(delivered)
      ensures sparse ==> fresh(area)
      ensures !sparse ==> unchanged(this)
    {
      if sparse {
        area := new nat[MessageLen(B.Join(buf))];
        ghost var chain := B.Join(buf);
        CopyIn(buf);
        assert area[..preallocate] == chain;
        buf := [];
      }
    }

    /** Cuts whole messages off the chain until less than one is left. */
    method ProcessChain(sparse: bool)
      requires preallocate == 0 && buf != [] && |B.Join(buf)| < U32
      requires B.Join(delivered) + B.Join(buf) == received && AllFramed(delivered)
      modifies this
      ensures Valid() && received == old(received) && (area == old(area) || fresh(area))
    {
      while buf != []
        invariant preallocate == 0 && area == old(area) && received == old(received)
        invariant B.Join(delivered) + B.Join(buf) == received && AllFramed(delivered)
        decreases |B.Join(buf)|, |buf|
      {
        var chain := B.Join(buf);
        if |chain| < HEADER {
          return;
        }
        var messageLen := MessageLen(chain);
        if |chain| == messageLen {
          buf := [];
          ProcessMessage(chain);
          return;
        } else if |chain| < messageLen {
          if |buf| % PREALLOCATE_CHAIN_LEN == 0 {
            CheckPreallocate(sparse);
          }
          return;
        } else {
          var front, back := C.SplitChain(buf, messageLen);
          buf := back;
          TakeFirst(chain, messageLen);
          ProcessMessage(B.Join(front));
        }
      }
    }

    /** A chunk arrives. While a preallocated message is being filled it must not reach
        beyond that message; what is held stays below the range of the 32-bit counters. */
    method Receive(chunk: seq<seq<nat>>, sparse: bool)
      requires Valid() && chunk != [] && chunk[0] != []
      requires preallocate > 0 ==> preallocate + |B.Join(chunk)| <= area.Length
      requires |Pending()| + |B.Join(chunk)| < U32
      modifies this, area
      ensures Valid() && received == old(received) + B.Join(chunk) && (area == old(area) || fresh(area))
    {
      if preallocate > 0 {
        Preallocated(chunk);
        return;
      }
      B.JoinConcat(buf, chunk);
      Longer(B.Join(delivered), B.Join(buf), B.Join(chunk));
      buf := buf + chunk;
      received := received + B.Join(chunk);
      ProcessChain(sparse);
    }

    /** What this connection has handed on, at any time, are the messages the peer sent. */
    lemma DeliversWhatWasSent(sent: seq<seq<nat>>)
      requires Valid() && AllFramed(sent) && received <= B.Join(sent)
      ensures delivered <= sent
      ensures |delivered| < |sent| ==> Pending() < sent[|delivered|]
      ensures |delivered| == |sent| ==> Pending() == []
      ensures received == B.Join(sent) ==> delivered == sent
    {
      Reframed(sent, delivered, Pending());
    }
  }

  /** What was sent, as it goes on the wire. */
  function Messages(ps: seq<Post>, padding: seq<nat>): (r: seq<seq<nat>>)
    requires |padding| == 4
    ensures |r| == |ps| && forall i | 0 <= i < |r| :: r[i] == Message(ps[i], padding)
  {
    seq(|ps|, i requires 0 <= i < |ps| => Message(ps[i], padding))
  }

  lemma PostsAreFramed(ps: seq<Post>, padding: seq<nat>)
    requires |padding| == 4 && (forall i | 0 <= i < |ps| :: Sendable(ps[i]))
    ensures var sent := Messages(ps, padding);
      AllFramed(sent) && forall i | 0 <= i < |sent| :: |sent[i]| >= HEADER && Opened(sent[i]) == ps[i]
  {
    var sent := Messages(ps, padding);
    forall i | 0 <= i < |sent|
      ensures Framed(sent[i]) && Opened(sent[i]) == ps[i]
    {
      MessageRoundTrip(ps[i], padding);
    }
  }

  /** From Send to the receiving object: whatever the chunks, what a connection has handed
      on are the first of the posts, each with its data, type and id. */
  lemma PostsArrive(c: Connection, ps: seq<Post>, padding: seq<nat>)
    requires |padding| == 4 && (forall i | 0 <= i < |ps| :: Sendable(ps[i]))
    requires c.Valid() && c.received <= B.Join(Messages(ps, padding))
    ensures |c.delivered| <= |ps|
    ensures forall i | 0 <= i < |c.delivered| :: |c.delivered[i]| >= HEADER && Opened(c.delivered[i]) == ps[i]
    ensures c.received == B.Join(Messages(ps, padding)) ==> |c.delivered| == |ps|
  {
    var sent := Messages(ps, padding);
    PostsAreFramed(ps, padding);
    c.DeliversWhatWasSent(sent);
  }

  lemma Filled(m: seq<nat>, was: seq<nat>, more: seq<nat>, len: nat)
    requires |was| >= HEADER && m == was + more && len == MessageLen(was) && |m| <= len
    ensures MessageLen(m) == len && (|m| == len ==> Framed(m)) && (|m| < len ==> Incomplete(m))
  {
    assert m[..HEADER] == was[..HEADER];
    SameHeader(m, was);
  }

  lemma Longer(done: seq<nat>, was: seq<nat>, more: seq<nat>)
    ensures done + (was + more) == done + was + more
  {
  }

  lemma JoinPrefix(chunk: seq<seq<nat>>, i: nat)
    requires i <= |chunk|
    ensures |B.Join(chunk[..i])| <= |B.Join(chunk)|
  {
    B.JoinConcat(chunk[..i], chunk[i..]);
    assert chunk[..i] + chunk[i..] == chunk;
  }

  lemma TakeFirst(chain: seq<nat>, n: nat)
    requires |chain| >= HEADER && n == MessageLen(chain) < |chain|
    ensures Framed(chain[..n]) && chain[..n] + chain[n..] == chain
  {
    assert chain[..n][..HEADER] == chain[..HEADER];
    SameHeader(chain[..n], chain);
  }
}
