/** Two runs about the peer's window: one in which it is taken from an older segment, and
    one in which a send passes although the window has shrunk to nothing. */
module TcpWindows {
  import opened TcpSeq
  import opened Tcp
  import opened TcpQueue
  import opened TcpProofs
  import opened TcpOutput
  import opened TcpInput
  import opened TcpTrimming

  /** A segment without data that acknowledges our SYN and says this window. */
  function Saying(seqno: nat, wnd: nat): Event {
    Input(Arrival(seqno, 1, false, true, false, false, false, wnd, []), 0, Upcalls([], [], [], []))
  }

  /** Nothing is taken in from such a segment. */
  lemma NothingTaken(p: Tcb, e: Event)
    requires e.Input? && e == Saying(e.a.seqno, e.a.wnd) && p.life == Alive && p.rcv.nxt == e.a.seqno
    ensures SeqPhase(p, e.a, e.now, e.up) == p
  {
    assert InWindow(p.rcv, e.a) && e.a.TcpLen() == 0;
  }

  lemma Silence(p: Tcb)
    requires p.life == Alive && p.snd.pending == [] && p.timers == NoTimers() && p.rcv.lastAcked == p.rcv.nxt
    ensures Push(p, 0) == p
  {
  }

  lemma Passes(t: Tcb, e: Event, p: Tcb)
    requires e.Input? && e == Saying(e.a.seqno, e.a.wnd) && t.life == Alive && t.state != SynSent
    requires AckPhase(t, e.a, e.now, e.up) == Go(p) && p.life == Alive && p.rcv.nxt == p.rcv.lastAcked == e.a.seqno
    requires p.snd.pending == [] && p.timers == NoTimers()
    ensures Step(t, e) == p
  {
    NothingTaken(p, e);
    Through(t, e, p, p);
    Silence(p);
  }

  lemma ConnectsBy(t: Tcb, e: Event, p: Tcb)
    requires t == Answering() && e == Saying(1, 65535) && p == Having([], [], 1, [1])
    ensures Step(t, e) == p
  {
    HeardFirst(t, e, p);
    Passes(t, e, p);
  }

  /** The peer has opened, and acknowledged our SYN. */
  lemma Connects() returns (r: Run)
    ensures IsRun(r) && r.opening == PeerOpens() && |r.events| == 1 && r.states[1] == Having([], [], 1, [1])
  {
    r := StartRun([]);
    ConnectsBy(r.states[0], Saying(1, 65535), Having([], [], 1, [1]));
    r := Extend(r, Saying(1, 65535), Having([], [], 1, [1]));
  }

  // ------------------------------------------------------------------- an older segment

  lemma OlderIsTaken(t: Tcb, f: Event)
    requires Good(t) && t.life == Alive && t.state == Established && t.rcv.nxt == 1
    requires t.snd.una == 1 && t.snd.acked == 1 && |t.snd.sent| == 1
    requires f.Input? && f == Saying(f.a.seqno, f.a.wnd) && 1 < f.a.seqno < 101 && f.a.wnd < 65536
    ensures Step(t, f).snd.wnd == f.a.wnd * 128
  {
    assert AckAt(t.snd, f.a.ackno) == 1 && Speaks(t, f.a);
    InputHears(t, f.a, f.now, f.up);
  }

  lemma EarlyComesFirst() returns (r: Run, e: Event)
    ensures IsRun(r) && |r.events| == 2 && e.Input? && e.a.seqno == 101 && r.events[1] == e
    ensures var t := r.states[2];
      t.life == Alive && t.state == Established && t.snd == Silent(101) && t.rcv.nxt == 1
  {
    r := Connects();
    e := Plainly(101, [5]);
    EarlyPiece([], 1, [1], e);
    r := Extend(r, e, Step(r.states[1], e));
  }

  /** A segment of number 101 comes first and one of number 51 after it; the window is the
      one that the older says. */
  lemma OldSegmentSetsWindow() returns (r: Run)
    ensures IsRun(r) && |r.events| == 3 && r.events[1].Input? && r.events[2].Input?
    ensures r.events[1].a.seqno == 101 && r.events[2].a.seqno == 51 && r.events[2].a.wnd == 7
    ensures r.states[2].snd.wl1 == 101 && r.states[2].snd.wnd == 65535 * 128 && r.states[3].snd.wnd == 7 * 128
  {
    var e;
    r, e := EarlyComesFirst();
    RunGood(r, 2);
    OlderIsTaken(r.states[2], Saying(51, 7));
    r := Extend(r, Saying(51, 7), Step(r.states[2], Saying(51, 7)));
  }

  // -------------------------------------------------------------------- a shrunk window

  /** Connected, with one byte sent that is not acknowledged. */
  predicate OneOut(t: Tcb) {
    t.life == Alive && t.state == Established && !t.notify && t.rcv.nxt == 1 && t.rcv.lastAcked == 1
    && t.snd.una == 1 && t.snd.nxt == 2 && t.snd.acked == 1 && |t.snd.sent| == 2 && t.snd.wl1 == 1 && t.snd.wl2 == 1
  }

  /** Connected, with nothing sent but the SYN. */
  predicate NoneOut(t: Tcb) {
    t.life == Alive && t.state == Established && !t.notify && t.rcv.nxt == 1 && t.rcv.lastAcked == 1
    && t.snd.una == 1 && t.snd.nxt == 1 && t.snd.acked == 1 && |t.snd.sent| == 1 && t.snd.wl1 == 1 && t.snd.wl2 == 1
    && t.snd.unacked == [] && t.snd.pending == [] && t.snd.wnd == 65535 * 128
  }

  lemma SendsOne(t: Tcb, data: seq<nat>)
    requires NoneOut(t) && |data| == 1
    ensures var s := Step(t, App(Send(data))); OneOut(s) && |s.snd.pending| == 1 && s.snd.wnd == 65535 * 128
  {
    assert SendWindowRemaining(t.snd) == 65535 * 128;
    assert Len(t.snd.Queue()) == 0;
  }

  lemma OutputsOne(t: Tcb)
    requires Good(t) && OneOut(t) && |t.snd.pending| == 1 && t.snd.wnd == 65535 * 128
    ensures var o := Push(t, 0); OneOut(o) && o.snd.pending == [] && o.snd.unacked != []
  {
    var n := PushMeaning(t, 0);
    assert t.snd.pending[1..] == [] && EndPosition(t.snd.pending, t.snd, 0) == 2;
    assert n == 1;
    PushHeard(t, 0);
    PushLeads(t, 0);
  }

  /** A segment that acknowledges nothing new keeps the connection going. */
  lemma GoesOn(t: Tcb, e: Event)
    requires Good(t) && OneOut(t) && t.snd.pending == [] && e == Saying(1, 0)
    ensures var r := Step(t, e); r.life == Alive && r.state == Established && |r.snd.sent| == 2
  {
    var c := Acknowledge(t, e.a, e.up);
    assert c.life == Alive && c.state == Established && c.snd.pending == [] && c.rcv == t.rcv;
    assert AckPhase(t, e.a, e.now, e.up) == Go(c);
    NothingTaken(c, e);
    Through(t, e, c, c);
  }

  lemma Shrinks(t: Tcb, e: Event)
    requires Good(t) && OneOut(t) && t.snd.pending == [] && e == Saying(1, 0)
    ensures var r := Step(t, e);
      r.life == Alive && r.state == Established && |r.snd.sent| == 2 && r.snd.acked == 1 && r.snd.wnd == 0
  {
    GoesOn(t, e);
    assert AckAt(t.snd, 1) == 1 && WindowTaken(t, e.a);
    InputHears(t, e.a, e.now, e.up);
  }

  lemma Then(r: Run, e: Event) returns (r': Run)
    requires IsRun(r) && Proper(e)
    ensures IsRun(r') && r'.opening == r.opening && |r'.events| == |r.events| + 1
    ensures r'.states[|r'.events|] == Step(r.states[|r.events|], e)
  {
    r' := Extend(r, e, Step(r.states[|r.events|], e));
  }

  lemma WithNoneOut() returns (r: Run)
    ensures IsRun(r) && FromWire(r.opening) && |r.events| == 1 && NoneOut(r.states[1])
  {
    r := Connects();
  }

  lemma WithOneSent(data: seq<nat>) returns (r: Run)
    requires |data| == 1
    ensures IsRun(r) && FromWire(r.opening) && |r.events| == 2
    ensures var t := r.states[2]; OneOut(t) && |t.snd.pending| == 1 && t.snd.wnd == 65535 * 128
  {
    r := WithNoneOut();
    SendsOne(r.states[1], data);
    r := Then(r, App(Send(data)));
  }

  lemma WithOneOut() returns (r: Run)
    ensures IsRun(r) && FromWire(r.opening) && |r.events| == 3
    ensures OneOut(r.states[3]) && r.states[3].snd.pending == []
  {
    r := WithOneSent([9]);
    assert Good(r.states[2]) by { RunGood(r, 2); }
    OutputsOne(r.states[2]);
    r := Extend(r, App(Output(0)), Step(r.states[2], App(Output(0))));
  }

  lemma LittleQueued(s: Sender)
    requires Tiled(s)
    ensures Len(s.Queue()) <= |s.sent|
  {
  }

  /** One byte is out when the peer says a window of 0; the largest segment is accepted. */
  lemma ShrunkWindowLetsThrough() returns (r: Run, data: seq<nat>)
    ensures IsRun(r) && |r.events| == 5 && |data| == MAX_SEGMENT && r.events[4] == App(Send(data))
    ensures r.states[4].life == Alive && r.states[4].snd.wnd == 0 && Outstanding(r.states[4].snd) == 1
    ensures r.states[5].life == Alive
  {
    r := WithOneOut();
    RunGood(r, 3);
    Shrinks(r.states[3], Saying(1, 0));
    r := Extend(r, Saying(1, 0), Step(r.states[3], Saying(1, 0)));
    data := Zeros(MAX_SEGMENT);
    r := Extend(r, App(Send(data)), Step(r.states[4], App(Send(data))));
    RunGood(r, 4);
    LittleQueued(r.states[4].snd);
    SendAcceptedIff(r, 4, data);
  }
}
