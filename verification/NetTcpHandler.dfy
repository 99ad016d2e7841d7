/** A handler above a connection that sends as much as the peer's window allows and
    queues the rest. */
module NetTcpHandler {
  import opened TcpSeq
  import B = IOBuf
  import C = ChainSplit
  import Q = TcpQueue
  import T = Tcp
  import N = NetTcp
  import P = TcpProofs

  function Min(a: nat, b: nat): nat {
    if a < b then a else b
  }

  /** As much of n bytes as the window lets out can be outstanding. */
  predicate Room(s: T.Sender, n: nat) {
    T.Len(s.Queue()) + Min(n, T.SendWindowRemaining(s)) + 1 < H
  }

  /** The window is computed modulo 2^32, and so is what a send takes off it. */
  lemma WindowAfter(wnd: nat, nxt: nat, una: nat, n: nat)
    requires n <= Sub(wnd, Sub(nxt, una))
    ensures Sub(wnd, Sub(Wrap(nxt + n), una)) == Sub(wnd, Sub(nxt, una)) - n
  {
    SubWrap(nxt + n, 0 - una);
    SubRight(wnd, nxt + n - una);
    SubRight(wnd, nxt - una);
    SubWrap(wnd - (nxt - una), 0 - n);
    WrapCase(Sub(wnd, Sub(nxt, una)) - n, 0);
  }

  lemma QueueAfter(s: T.Sender, data: seq<nat>)
    requires |data| <= T.MAX_SEGMENT
    ensures var r := T.EnqueueSegment(s, false, false, data);
      r.sent == s.sent + T.Bytes(data) && T.Len(r.Queue()) == T.Len(s.Queue()) + |data|
  {
    var g, r := T.Segment(s.nxt, false, false, data, |data|), T.EnqueueSegment(s, false, false, data);
    assert r.Queue() == s.Queue() + [g];
    Q.LenConcat(s.Queue(), [g]);
    assert [g][1..] == [] && T.Octets(g) == T.Bytes(data);
  }

  /** A send within the window and the largest segment takes that much off the window
      and off the room, */
  lemma RoomAfter(s: T.Sender, data: seq<nat>, n: nat)
    requires Room(s, n) && |data| <= n && |data| <= T.SendWindowRemaining(s) && |data| <= T.MAX_SEGMENT
    ensures var r := T.EnqueueSegment(s, false, false, data);
      && r.sent == s.sent + T.Bytes(data)
      && Room(r, n - |data|) && T.SendWindowRemaining(r) == T.SendWindowRemaining(s) - |data|
  {
    QueueAfter(s, data);
    WindowAfter(s.wnd, s.nxt, s.una, |data|);
  }

  /** and goes through. */
  lemma SendGoesThrough(p: T.Tcb, data: seq<nat>)
    requires Room(p.snd, |data|) && |data| <= T.SendWindowRemaining(p.snd) && |data| <= T.MAX_SEGMENT
    ensures T.SendStep(p, data) == p.(snd := T.EnqueueSegment(p.snd, false, false, data))
  {
  }

  lemma BytesConcat(x: seq<nat>, y: seq<nat>)
    ensures T.Bytes(x) + T.Bytes(y) == T.Bytes(x + y)
  {
  }

  lemma PassWorks(p: T.Tcb, data: seq<nat>, n: nat, before: seq<T.Octet>, passed: seq<nat>)
    requires Room(p.snd, n) && |data| <= n && |data| <= T.SendWindowRemaining(p.snd) && |data| <= T.MAX_SEGMENT
    requires p.snd.sent == before + T.Bytes(passed)
    ensures var q := T.SendStep(p, data);
      && q == p.(snd := q.snd) && q.snd.sent == before + T.Bytes(passed + data)
      && Room(q.snd, n - |data|) && T.SendWindowRemaining(q.snd) == T.SendWindowRemaining(p.snd) - |data|
  {
    SendGoesThrough(p, data);
    RoomAfter(p.snd, data, n);
    BytesConcat(passed, data);
  }

  /** What the application says about its windows does not touch the queues. */
  lemma WindowKeeps(t: T.Tcb, notify: bool, closing: bool, wnd: nat)
    ensures P.Good(t) && (wnd == t.rcv.wnd || wnd <= T.TCP_WND) ==>
      P.Good(t.(notify := notify, rcv := t.rcv.(closing := closing, wnd := wnd)))
  {
  }

  /** What was sent and has left the queues: all of it is acknowledged. */
  function Dropped(s: T.Sender): seq<T.Octet> {
    if T.Len(s.Queue()) <= |s.sent| then s.sent[..|s.sent| - T.Len(s.Queue())] else []
  }

  lemma QueuedPlaces(s: T.Sender)
    requires P.Tiled(s)
    ensures P.Conserved(s) && s.sent == Dropped(s) + Q.Stream(s.unacked) + Q.Stream(s.pending)
  {
    P.TiledConserves(s);
    Q.StreamConcat(s.unacked, s.pending);
    Regroup(Dropped(s), Q.Stream(s.unacked), Q.Stream(s.pending));
  }

  lemma Regroup(x: seq<T.Octet>, y: seq<T.Octet>, z: seq<T.Octet>)
    ensures x + (y + z) == x + y + z
  {
  }

  /** What is held follows what was passed, and a FIN only comes when nothing is. */
  lemma HeldLast(before: seq<T.Octet>, passed: seq<nat>, held: seq<nat>, gone: bool)
    requires gone ==> held == []
    ensures var fin: seq<T.Octet> := if gone then [T.Fin] else [];
      before + T.Bytes(passed + held) + fin == before + T.Bytes(passed) + fin + T.Bytes(held)
  {
    BytesConcat(passed, held);
    assert T.Bytes([]) == [];
    if gone {
      assert passed + held == passed;
    } else {
      Regroup(before, T.Bytes(passed), T.Bytes(held));
    }
  }

  lemma Places(s: T.Sender, before: seq<T.Octet>, passed: seq<nat>, held: seq<nat>, gone: bool)
    requires P.Tiled(s) && (gone ==> held == [])
    requires s.sent == before + T.Bytes(passed) + if gone then [T.Fin] else []
    ensures P.Conserved(s)
    ensures before + T.Bytes(passed + held) + (if gone then [T.Fin] else [])
      == Dropped(s) + Q.Stream(s.unacked) + Q.Stream(s.pending) + T.Bytes(held)
  {
    QueuedPlaces(s);
    HeldLast(before, passed, held, gone);
  }

  lemma SplitAt(done: seq<nat>, rest: seq<nat>, n: nat)
    requires n <= |rest|
    ensures done + rest[..n] + rest[n..] == done + rest
  {
  }

  /** What happens to a handler and its connection. */
  datatype Call = Sending(chain: seq<seq<nat>>) | Grown(now: nat) | Closing(now: nat)
                | Arriving(a: T.Arrival, now: nat) | Ticking(now: nat)

  class TcpHandler {
    /** The queued chain; the empty sequence is the null pointer. */
    var buf: seq<seq<nat>>
    var shutdown: bool
    const pcb: N.TcpEntry

    /** The pcb has been let go of. */
    var gone: bool

    /** Everything accepted from the application, what of it the pcb has been given, and
        what the pcb had sent before. */
    ghost var accepted: seq<nat>
    ghost var passed: seq<nat>
    ghost const before: seq<T.Octet>

    /** The pcb has been given exactly these bytes, in this order. */
    ghost predicate Linked()
      reads this, pcb
    {
      pcb.sent == before + T.Bytes(passed) + if gone then [T.Fin] else []
    }

    ghost predicate Valid()
      reads this, pcb
    {
      && Linked()
      && accepted == passed + B.Join(buf)
      && (buf != [] <==> B.Join(buf) != [])
      && (pcb.windowNotify <==> buf != [])
      && (gone ==> buf == [])
    }

    constructor (entry: N.TcpEntry)
      requires !entry.windowNotify
      ensures Valid() && buf == [] && accepted == [] && !shutdown && !gone && pcb == entry
    {
      pcb, buf, shutdown, accepted, passed, gone, before := entry, [], false, [], [], false, entry.sent;
    }

    /** How much the peer can still take. */
    ghost function Window(): nat
      reads pcb
    {
      T.SendWindowRemaining(pcb.Snd())
    }

    /** The pcb can be sent n bytes. */
    ghost predicate Open(n: nat)
      reads this, pcb
    {
      !gone && pcb.life == T.Alive && T.Held(pcb.state) && Room(pcb.Snd(), n)
    }

    /** What sending leaves alone. */
    ghost function Flags(): (bool, bool, T.State)
      reads pcb
    {
      (pcb.windowNotify, pcb.closeWindow, pcb.state)
    }

    /** Gives the pcb one segment. */
    method Pass(data: seq<nat>, ghost n: nat)
      requires Linked() && Open(n) && |data| <= n && |data| <= Window() && |data| <= T.MAX_SEGMENT
      modifies pcb, this`passed
      ensures Linked() && Open(n - |data|) && Window() == old(Window()) - |data|
      ensures passed == old(passed) + data
      ensures Flags() == old(Flags())
      ensures old(pcb.Valid()) ==> pcb.Valid()
    {
      PassWorks(pcb.Value(), data, n, before, passed);
      if pcb.Valid() { P.SendStepKeeps(pcb.Value(), data); }
      pcb.Send(data);
      passed := passed + data;
    }

    /** The first n bytes go out, the rest is in buf. */
    method PassFront(chain: seq<seq<nat>>, n: nat) returns (left: nat)
      requires Linked() && Open(|B.Join(chain)|)
      requires n < |B.Join(chain)| && n <= Window() && n <= T.MAX_SEGMENT
      modifies pcb, this`passed, this`buf
      ensures Linked() && Open(|B.Join(chain)| - n) && Window() == old(Window()) - n
      ensures passed == old(passed) + B.Join(chain)[..n] && B.Join(buf) == B.Join(chain)[n..] && buf != []
      ensures Flags() == old(Flags())
      ensures old(pcb.Valid()) ==> pcb.Valid()
      ensures left <= n
    {
      var front, back;
      front, back, left := C.CutChain(chain, n);
      buf := back;
      if front != [] {
        Pass(B.Join(front), |B.Join(chain)|);
      }
    }

    /** One round: the first n bytes, as many as fit, go out and the rest is in buf;
        `again` when the size of a segment may have been in the way. */
    method Round(chain: seq<seq<nat>>) returns (again: bool, ghost n: nat)
      requires Linked() && Open(|B.Join(chain)|) && chain != []
      modifies pcb, this`passed, this`buf
      ensures n <= |B.Join(chain)| && Linked() && Open(|B.Join(chain)| - n)
      ensures Window() == old(Window()) - n && Flags() == old(Flags())
      ensures passed == old(passed) + B.Join(chain)[..n] && B.Join(buf) == B.Join(chain)[n..]
      ensures buf == [] <==> n == |B.Join(chain)|
      ensures n <= T.MAX_SEGMENT
      ensures old(pcb.Valid()) ==> pcb.Valid()
      ensures again ==> buf != [] && n > 0
      ensures buf != [] && !again ==> n == old(Window())
    {
      var len, window := |B.Join(chain)|, pcb.SendWindowRemaining();
      var sendSize := if window < T.MAX_SEGMENT then window else T.MAX_SEGMENT;
      if len <= sendSize {
        Pass(B.Join(chain), len);
        buf := [];
        assert B.Join(chain)[..len] == B.Join(chain);
        return false, len;
      }
      var left := PassFront(chain, sendSize);
      again, n := len > T.MAX_SEGMENT && left < window, sendSize;
    }

    /** Nothing is queued: send, as often as it takes, and queue what the window does
        not hold. */
    method SendNow(chain: seq<seq<nat>>)
      requires Linked() && Open(|B.Join(chain)|) && chain != []
      modifies this`buf, this`passed, pcb
      ensures Linked() && Open(|B.Join(buf)|)
      ensures Flags() == old(Flags())
      ensures old(passed) <= passed && passed + B.Join(buf) == old(passed) + B.Join(chain)
      ensures buf == [] <==> B.Join(buf) == []
      ensures buf != [] ==> Window() == 0
      ensures old(pcb.Valid()) ==> pcb.Valid()
    {
      ghost var all := old(passed) + B.Join(chain);
      var again, n := Round(chain);
      SplitAt(old(passed), B.Join(chain), n);
      while again
        invariant Linked() && Open(|B.Join(buf)|)
        invariant Flags() == old(Flags())
        invariant old(passed) <= passed && passed + B.Join(buf) == all
        invariant buf == [] <==> B.Join(buf) == []
        invariant again ==> buf != []
        invariant buf != [] && !again ==> Window() == 0
        invariant old(pcb.Valid()) ==> pcb.Valid()
        decreases |B.Join(buf)|, again
      {
        ghost var done, rest := passed, B.Join(buf);
        again, n := Round(buf);
        SplitAt(done, rest, n);
      }
    }

    /** Sends what the window holds, queues the rest and asks to be told when it has
        grown; the receive window closes meanwhile. */
    method SendOrQueue(chain: seq<seq<nat>>)
      requires Linked() && Open(|B.Join(chain)|) && chain != []
      modifies this`buf, this`passed, pcb
      ensures Linked() && Open(|B.Join(buf)|)
      ensures old(passed) <= passed && passed + B.Join(buf) == old(passed) + B.Join(chain)
      ensures buf == [] <==> B.Join(buf) == []
      ensures buf != [] ==> Window() == 0
      ensures Flags() == (old(pcb.windowNotify) || buf != [], old(pcb.closeWindow) || buf != [], old(pcb.state))
      ensures old(pcb.Valid()) ==> pcb.Valid()
    {
      SendNow(chain);
      if buf != [] {
        HoldBack();
      }
    }

    /** Wants to be told of a larger window, and closes its own. */
    method HoldBack()
      modifies pcb`windowNotify, pcb`closeWindow
      ensures pcb.Value() == old(pcb.Value()).(notify := true, rcv := old(pcb.Rcv()).(closing := true))
      ensures old(pcb.Valid()) ==> pcb.Valid()
    {
      WindowKeeps(pcb.Value(), true, true, pcb.rcvWnd);
      pcb.windowNotify := true;
      pcb.closeWindow := true;
    }

    /** Sends, or queues behind what is queued already. What is accepted is what went to
        the pcb and what is queued, in order; something is held back only if the window
        is used up or something was queued before. */
    method Send(chain: seq<seq<nat>>)
      requires Valid() && chain != [] && (buf == [] ==> Open(|B.Join(chain)|))
      modifies this`buf, this`passed, this`accepted, pcb
      ensures Valid()
      ensures accepted == old(accepted) + B.Join(chain) && old(passed) <= passed
      ensures old(buf) == [] ==> Open(|B.Join(buf)|) && (buf != [] ==> Window() == 0)
      ensures old(buf) != [] ==> passed == old(passed) && buf == old(buf) + chain && pcb.Value() == old(pcb.Value())
      ensures old(pcb.Valid()) ==> pcb.Valid()
    {
      accepted := accepted + B.Join(chain);
      if buf == [] {
        SendOrQueue(chain);
      } else {
        B.JoinConcat(buf, chain);
        buf := buf + chain;
      }
    }

    /** Lets go of the pcb: the FIN follows everything that was accepted. */
    method LetGo(now: nat)
      requires Valid() && buf == [] && Open(0) && pcb.state != T.SynSent
      modifies pcb, this`gone
      ensures Valid() && gone
      ensures pcb.sent == before + T.Bytes(accepted) + [T.Fin]
      ensures old(pcb.Valid()) ==> pcb.Valid()
    {
      ghost var t := pcb.Value();
      CloseAppendsFin(t, now);
      pcb.Do(T.Close(now));
      assert pcb.Value().notify == t.notify && pcb.Value().snd.sent == t.snd.sent + [T.Fin];
      gone := true;
    }

    /** With nothing queued the pcb goes at once, else when the queue is empty. */
    method Shutdown(now: nat)
      requires Valid() && (buf == [] ==> Open(0) && pcb.state != T.SynSent)
      modifies this`shutdown, this`gone, pcb
      ensures Valid()
      ensures buf != [] ==> shutdown && gone == old(gone) && pcb.Value() == old(pcb.Value())
      ensures buf == [] ==> gone && pcb.sent == before + T.Bytes(accepted) + [T.Fin]
      ensures old(pcb.Valid()) ==> pcb.Valid()
    {
      if buf != [] {
        shutdown := true;
      } else {
        LetGo(now);
      }
    }

    method OpenUp()
      requires Linked() && Open(0)
      modifies pcb`windowNotify, pcb`closeWindow, pcb`rcvWnd
      ensures Linked() && Open(0) && !pcb.windowNotify && !pcb.closeWindow && pcb.rcvWnd == T.TCP_WND
      ensures pcb.state == old(pcb.state)
      ensures old(pcb.Valid()) ==> pcb.Valid()
    {
      WindowKeeps(pcb.Value(), false, false, T.TCP_WND);
      pcb.windowNotify := false;
      pcb.closeWindow, pcb.rcvWnd := false, T.TCP_WND;
    }

    /** The peer's window has grown: what is queued goes first. Afterwards something is
        queued only if the window is used up again. When nothing is, notification stops,
        the receive window opens, and a shutdown that waited happens. */
    method SendWindowIncrease(now: nat)
      requires Valid() && buf != [] && Open(|B.Join(buf)|) && pcb.state != T.SynSent
      modifies this`buf, this`passed, this`gone, pcb
      ensures Valid() && old(passed) <= passed && gone == (buf == [] && shutdown)
      ensures buf != [] ==> Open(|B.Join(buf)|) && Window() == 0
      ensures buf == [] && !shutdown ==> Open(0) && !pcb.closeWindow && pcb.rcvWnd == T.TCP_WND
      ensures gone ==> pcb.sent == before + T.Bytes(accepted) + [T.Fin]
      ensures old(pcb.Valid()) ==> pcb.Valid()
    {
      var chain := buf;
      buf := [];
      SendOrQueue(chain);
      if buf == [] {
        Emptied(now);
      }
    }

    /** Nothing is queued any more. */
    method Emptied(now: nat)
      requires Linked() && Open(0) && pcb.state != T.SynSent && buf == [] && accepted == passed
      modifies pcb, this`gone
      ensures Valid() && gone == shutdown
      ensures !shutdown ==> Open(0) && !pcb.closeWindow && pcb.rcvWnd == T.TCP_WND
      ensures gone ==> pcb.sent == before + T.Bytes(accepted) + [T.Fin]
      ensures old(pcb.Valid()) ==> pcb.Valid()
    {
      OpenUp();
      if shutdown {
        LetGo(now);
      }
    }

    /** Between calls of the handler segments arrive, */
    method Arrive(a: T.Arrival, now: nat)
      requires Valid()
      modifies pcb
      ensures Valid()
      ensures old(pcb.Valid() && pcb.life == T.Alive) && P.WellFormed(a) ==> pcb.Valid()
    {
      InputQuiet(pcb.Value(), a, now);
      pcb.Input(a, now, NoUpcalls());
    }

    /** and the timer fires. */
    method Tick(now: nat)
      requires Valid()
      modifies pcb
      ensures Valid()
      ensures old(pcb.Valid() && pcb.life == T.Alive) ==> pcb.Valid()
    {
      FireQuiet(pcb.Value(), now);
      pcb.Fire(now);
    }

    /** The pcb can be sent n bytes. */
    method Check(n: nat) returns (open: bool)
      ensures open == Open(n)
    {
      open := !gone && pcb.life == T.Alive && T.Held(pcb.state)
        && T.Len(pcb.unacked + pcb.pending) + Min(n, pcb.SendWindowRemaining()) + 1 < H;
    }

    /** One call, where it may be made. */
    method Serve(c: Call)
      requires Valid()
      modifies this, pcb
      ensures Valid()
      ensures old(accepted) <= accepted && old(passed) <= passed && (old(gone) ==> gone)
      ensures accepted == old(accepted) || (c.Sending? && accepted == old(accepted) + B.Join(c.chain))
      ensures old(pcb.Valid()) ==> pcb.Valid()
    {
      var nothing := Check(0);
      match c {
        case Sending(chain) =>
          var open := Check(|B.Join(chain)|);
          if chain != [] && (buf != [] || open) { Send(chain); }
        case Grown(now) =>
          var open := Check(|B.Join(buf)|);
          if buf != [] && open && pcb.state != T.SynSent { SendWindowIncrease(now); }
        case Closing(now) =>
          if buf != [] || (nothing && pcb.state != T.SynSent) { Shutdown(now); }
        case Arriving(a, now) =>
          if pcb.life == T.Alive && P.WellFormed(a) { Arrive(a, now); }
        case Ticking(now) =>
          if pcb.life == T.Alive { Tick(now); }
      }
    }

    /** Whatever the order of calls, arrivals and timer events: what was accepted is what
        the pcb has been given and what is queued, and nothing of it is taken back. */
    method ServeAll(calls: seq<Call>)
      requires Valid()
      modifies this, pcb
      ensures Valid() && old(accepted) <= accepted && old(passed) <= passed
      ensures pcb.sent == before + T.Bytes(passed) + if gone then [T.Fin] else []
      ensures accepted == passed + B.Join(buf) && (gone ==> passed == accepted)
      ensures old(pcb.Valid()) ==> pcb.Valid() && (pcb.life == T.Alive ==> InPlaces())
    {
      for i := 0 to |calls|
        invariant Valid() && old(accepted) <= accepted && old(passed) <= passed
        invariant old(pcb.Valid()) ==> pcb.Valid()
      {
        Serve(calls[i]);
      }
      if pcb.Valid() && pcb.life == T.Alive {
        Places(pcb.Snd(), before, passed, B.Join(buf), gone);
      }
    }

    /** Where everything that was accepted is, in order: acknowledged, in flight, pending
        with the pcb, and held here. */
    ghost predicate InPlaces()
      reads this, pcb
    {
      P.Conserved(pcb.Snd())
      && before + T.Bytes(accepted) + (if gone then [T.Fin] else [])
        == Dropped(pcb.Snd()) + Q.Stream(pcb.unacked) + Q.Stream(pcb.pending) + T.Bytes(B.Join(buf))
    }
  }

  function NoUpcalls(): T.Upcalls {
    T.Upcalls([], [], [], [])
  }

  /** Nothing changes what has been sent, or whether the application is told. */
  predicate Quiet(t: T.Tcb, r: T.Tcb) {
    r.snd.sent == t.snd.sent && r.notify == t.notify
  }

  lemma PushQuiet(t: T.Tcb, now: nat)
    ensures Quiet(t, T.Push(t, now))
  {
  }

  lemma FireQuiet(t: T.Tcb, now: nat)
    ensures Quiet(t, T.FireStep(t, now))
  {
    var m := t.timers.(armed := false);
    PushQuiet(t.(timers := m.(retransmit := 0), snd := T.Retreat(t.snd)), now);
    PushQuiet(t.(timers := m), now);
  }

  lemma AckConnectedQuiet(t: T.Tcb, a: T.Arrival, now: nat)
    ensures Quiet(t, T.AckConnected(t, a, now, NoUpcalls()).t)
  {
    assert Quiet(t, T.Acknowledge(t, a, NoUpcalls()));
  }

  lemma AckQuiet(t: T.Tcb, a: T.Arrival, now: nat)
    ensures Quiet(t, T.AckPhase(t, a, now, NoUpcalls()).t)
  {
    AckConnectedQuiet(t, a, now);
    AckConnectedQuiet(t.(state := T.Established, snd := T.TakeWindow(t.snd, a)), a, now);
  }

  lemma SeqQuiet(t: T.Tcb, a: T.Arrival, now: nat)
    ensures Quiet(t, T.SeqPhase(t, a, now, NoUpcalls()))
  {
  }

  lemma InputQuiet(t: T.Tcb, a: T.Arrival, now: nat)
    ensures Quiet(t, T.InputStep(t, a, now, NoUpcalls()))
  {
    AckQuiet(t, a, now);
    SeqQuiet(T.AckPhase(t, a, now, NoUpcalls()).t, a, now);
    PushQuiet(T.Receive(t, a, now, NoUpcalls()), now);
  }

  lemma CloseAppendsFin(t: T.Tcb, now: nat)
    requires t.life == T.Alive && T.Held(t.state) && t.state != T.SynSent
    ensures T.UserStep(t, T.Close(now)).snd.sent == t.snd.sent + [T.Fin]
    ensures T.UserStep(t, T.Close(now)).notify == t.notify
  {
    assert T.Octets(T.Segment(t.snd.nxt, false, true, [], T.Short(1))) == [T.Fin];
  }
}
