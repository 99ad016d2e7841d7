/** A FIN and the data before it. A FIN that comes early without data of its own is taken
    in at once, and so is one whose data the window cuts short; what is missing before it
    is lost. Exactly when, and a run. */
module TcpFin {
  import opened TcpSeq
  import opened Tcp
  import opened TcpProofs
  import opened TcpDelivery
  import opened TcpInput
  import opened TcpTrimming

  /** The FIN follows the last byte of the stream. */
  predicate EndsStream(a: Arrival, irs: nat, stream: seq<nat>) {
    a.fin && a.seqno + |a.payload| == irs + 1 + |stream|
  }

  lemma NothingFollows(r: Receiver, a: Arrival, irs: nat, stream: seq<nat>)
    requires Ordered(r, irs, stream) && EndsStream(a, irs, stream) && a.seqno == r.nxt
    ensures Next(r, a) == []
  {
    DrainedIsNext(r.stash, irs, stream, r.nxt + |a.payload|);
  }

  /** What an ordered receiver has been given once the FIN is in. */
  lemma FinCompletes(s: State, r: Receiver, a: Arrival, irs: nat, stream: seq<nat>, r': Receiver)
    requires FromPeer(a, irs, stream) && EndsStream(a, irs, stream) && Ordered(r, irs, stream) && Takes(s, r, a, r')
    requires if TakesData(s, r, a) then a.seqno == r.nxt else a.payload == []
    ensures r'.given == stream <==> a.seqno == r.nxt && |a.payload| <= r.wnd
  {
    if TakesData(s, r, a) {
      NothingFollows(r, a, irs, stream);
      if |a.payload| <= r.wnd {
        assert r'.given == r.given + (a.payload + []) == r.given + a.payload;
        assert stream == stream[..|r.given|] + stream[|r.given|..];
      }
    }
  }

  lemma SpeaksInside(t: Tcb, a: Arrival, w: nat)
    requires a.ack && !a.rst && !a.syn && w <= TCP_WND && Inside(w, Offset(t.rcv, a), a.TcpLen())
    ensures Speaks(t, a)
  {
  }

  lemma StateBeforeFin(t: Tcb, a: Arrival, up: Upcalls)
    requires Good(t) && t.life == Alive && !t.rcv.finIn && t.state != SynSent && Speaks(t, a) && !Refused(t, a)
    ensures var s := StateNow(t, a, up); s == Established || s == FinWait1 || s == FinWait2
  {
    assert t.state == SynReceived || t.state == Established || t.state == FinWait1 || t.state == FinWait2;
  }

  /** Before a FIN is in, an arrival that gets so far finds the connection established, or
      let go of, when it has no data. */
  lemma FindsEstablished(t: Tcb, a: Arrival, up: Upcalls)
    requires Good(t) && t.life == Alive && WellFormed(a) && !t.rcv.finIn && t.state != SynSent
    requires a.ack && !a.rst && !a.syn && Inside(WindowNow(t, a, up), Offset(t.rcv, a), a.TcpLen()) && a.TcpLen() > 0
    requires !Refused(t, a) && !TooLate(StateNow(t, a, up), a)
    ensures a.payload != [] ==> StateNow(t, a, up) == Established
  {
    SpeaksInside(t, a, WindowNow(t, a, up));
    StateBeforeFin(t, a, up);
  }

  lemma TakenStartsNext(t: Tcb, a: Arrival, w: nat, irs: nat, stream: seq<nat>)
    requires Good(t) && t.life == Alive && NoWrap(irs, stream) && FromPeer(a, irs, stream) && a.payload != []
    requires Ordered(t.rcv, irs, stream) && w <= TCP_WND && Inside(w, Offset(t.rcv, a), a.TcpLen())
    requires !GT(a.seqno, t.rcv.nxt)
    ensures a.seqno == t.rcv.nxt
  {
    InWindowIff(t.rcv.(wnd := w), a);
    InWindowMeans(t.rcv.(wnd := w), a, irs, stream);
  }

  /** A FIN is taken in. */
  lemma FinTakenIff(t: Tcb, a: Arrival, now: nat, up: Upcalls, irs: nat, stream: seq<nat>)
    requires Good(t) && t.life == Alive && !t.rcv.finIn && Delivering(t, irs, stream) && NoWrap(irs, stream)
    requires FromPeer(a, irs, stream) && EndsStream(a, irs, stream)
    requires var r := InputStep(t, a, now, up); r.life == Alive && r.rcv.finIn
    ensures InputStep(t, a, now, up).rcv.given == stream <==>
      a.seqno == t.rcv.nxt && |a.payload| <= WindowNow(t, a, up)
  {
    var r, s, w := InputStep(t, a, now, up), StateNow(t, a, up), WindowNow(t, a, up);
    InputDecides(t, a, now, up);
    FindsEstablished(t, a, up);
    if a.payload != [] && !GT(a.seqno, t.rcv.nxt) { TakenStartsNext(t, a, w, irs, stream); }
    FinCompletes(s, t.rcv.(wnd := w), a, irs, stream, r.rcv);
  }

  /** In every run, when the FIN that ends the peer's stream is taken in, the application has
      been given the whole stream exactly when the segment with the FIN starts at the next
      byte expected and the window holds its data. */
  lemma FinIsCompleteIff(r: Run, k: nat, irs: nat, stream: seq<nat>)
    requires DecentRun(r, irs, stream) && NoWrap(irs, stream) && k < |r.events| && r.events[k].Input?
    requires r.states[k].life == Alive && !r.states[k].rcv.finIn
    requires r.states[k + 1].life == Alive && r.states[k + 1].rcv.finIn && EndsStream(r.events[k].a, irs, stream)
    ensures var t, e := r.states[k], r.events[k];
      r.states[k + 1].rcv.given == stream <==> e.a.seqno == t.rcv.nxt && |e.a.payload| <= WindowNow(t, e.a, e.up)
  {
    RunDelivers(r, k, irs, stream);
    assert Follows(r, k + 1) && DecentAt(r, k, irs, stream);
    FinTakenIff(r.states[k], r.events[k].a, r.events[k].now, r.events[k].up, irs, stream);
  }

  // ----------------------------------------------------------------- a run that loses data

  /** The peer's FIN, after one byte that has not arrived. */
  function EarlyFin(): Event {
    Input(Arrival(2, 1, false, true, true, false, false, 65535, []), 0, Upcalls([], [], [], []))
  }

  /** The peer has closed: its FIN is acknowledged, and nothing was given. */
  function ClosedEmpty(told: seq<nat>): Tcb {
    Tcb(Alive, CloseWait, Silent(2), Receiver(3, TCP_WND, 3, true, [], [], true, told), NoTimers(), false)
  }

  /** A FIN without data, one byte behind the next expected. */
  lemma FinIsTaken(p: Tcb, e: Event)
    requires e.Input? && e.a == EarlyFin().a && e.up.close == []
    requires p.life == Alive && p.state == Established && p.rcv.nxt == 1 && p.rcv.wnd == TCP_WND
    ensures SeqPhase(p, e.a, e.now, e.up) == p.(state := CloseWait, rcv := p.rcv.(nxt := 3, finIn := true))
  {
    assert InWindow(p.rcv, e.a) && e.a.TcpLen() == 1;
    assert TakeIn(p, e.a, e.now, e.up) == FinPhase(p, e.a, 1, e.now, e.up);
  }

  lemma FinIsAcked(r: Tcb)
    requires r.life == Alive && r.snd == Silent(2) && r.timers == NoTimers() && r.rcv.nxt == 3 && r.rcv.lastAcked == 1
    ensures Push(r, 0) == r.(rcv := SendEmptyAck(r.rcv))
  {
  }

  lemma FinGoesThrough(t: Tcb, e: Event, p: Tcb, r: Tcb)
    requires t == Answering() && e == EarlyFin() && p == Having([], [], 2, [1])
    requires r == p.(state := CloseWait, rcv := p.rcv.(nxt := 3, finIn := true))
    ensures Step(t, e) == Push(r, 0)
  {
    HeardFirst(t, e, p);
    FinIsTaken(p, e);
    Through(t, e, p, r);
  }

  lemma FinComesEarly(t: Tcb, e: Event)
    requires t == Answering() && e == EarlyFin()
    ensures Step(t, e) == ClosedEmpty([1] + [3])
  {
    var p := Having([], [], 2, [1]);
    var r := p.(state := CloseWait, rcv := p.rcv.(nxt := 3, finIn := true));
    FinGoesThrough(t, e, p, r);
    FinIsAcked(r);
  }

  lemma DataComesLate(told: seq<nat>, e: Event)
    requires e == Plainly(1, [7])
    ensures Step(ClosedEmpty(told), e) == ClosedEmpty(told + [3])
  {
    var t := ClosedEmpty(told);
    assert AckPhase(t, e.a, e.now, e.up) == Go(t);
    Through(t, e, t, t.(rcv := SendEmptyAck(t.rcv)));
  }

  lemma PiecesOfOne(stream: seq<nat>)
    requires stream == [7]
    ensures FromPeer(EarlyFin().a, 0, stream) && FromPeer(Plainly(1, stream).a, 0, stream)
    ensures EndsStream(EarlyFin().a, 0, stream)
  {
    assert stream == stream[0..1];
  }

  lemma FinFirst(stream: seq<nat>) returns (r: Run)
    requires stream == [7]
    ensures IsRun(r) && AllFromPeer(r, stream) && r.events == [EarlyFin()] && r.states[1] == ClosedEmpty([1] + [3])
  {
    r := StartRun(stream);
    PiecesOfOne(stream);
    FinComesEarly(r.states[0], EarlyFin());
    r := Extend(r, EarlyFin(), ClosedEmpty([1] + [3]));
  }

  /** The peer sends one byte and closes; the segments arrive in the other order. Both are
      acknowledged, and the application is never given the byte. */
  lemma EarlyFinLosesData() returns (r: Run, stream: seq<nat>)
    ensures IsRun(r) && AllFromPeer(r, stream) && stream == [7]
    ensures r.events == [EarlyFin(), Plainly(1, stream)] && EndsStream(EarlyFin().a, 0, stream)
    ensures var t := r.states[2];
      t.rcv.finIn && t.rcv.given == [] && t.rcv.told != [] && t.rcv.told[|t.rcv.told| - 1] == 1 + |stream| + 1
  {
    stream := [7];
    PiecesOfOne(stream);
    r := FinFirst(stream);
    var told := r.states[1].rcv.told;
    DataComesLate(told, Plainly(1, stream));
    r := Extend(r, Plainly(1, stream), ClosedEmpty(told + [3]));
  }
}
