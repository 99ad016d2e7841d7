/** Trimming to the window, where it breaks in-order delivery: exactly when it follows
    a drain, and a run in which it does. */
module TcpTrimming {
  import opened TcpSeq
  import opened Tcp
  import opened TcpProofs
  import opened TcpDelivery
  import opened Sequences

  lemma SliceDistinct(irs: nat, stream: seq<nat>, key: nat, data: seq<nat>)
    requires Distinct(stream) && Slice(irs, stream, key, data)
    ensures Distinct(data)
  {
    forall i, j | 0 <= i < j < |data|
      ensures data[i] != data[j]
    {
      var at := key - (irs + 1);
      assert data[i] == stream[at + i] && data[j] == stream[at + j];
    }
  }

  lemma PrefixThrough(given: seq<nat>, irs: nat, stream: seq<nat>, more: seq<nat>, bytes: seq<nat>)
    requires given <= stream && Slice(irs, stream, irs + 1 + |given|, more) && |bytes| <= |more|
    ensures given + bytes <= stream <==> bytes <= more
  {
    if given + bytes <= stream {
      assert bytes == stream[|given|..|given| + |bytes|];
    }
  }

  /** What follows in the stream, trimmed, still follows exactly when it fits. */
  lemma TrimmedFollowsIff(given: seq<nat>, payload: seq<nat>, drained: seq<nat>, wnd: nat, irs: nat, stream: seq<nat>)
    requires given <= stream && Slice(irs, stream, irs + 1 + |given|, payload + drained)
    requires Distinct(stream) && |drained| <= wnd
    ensures given + Trimmed(payload, drained, wnd) <= stream <==> |payload| + |drained| <= wnd || drained == []
  {
    SliceDistinct(irs, stream, irs + 1 + |given|, payload + drained);
    TrimmedInOrderIff(payload, drained, wnd);
    PrefixThrough(given, irs, stream, payload + drained, Trimmed(payload, drained, wnd));
  }

  lemma {:induction false} AllIsNext(r: Receiver, payload: seq<nat>, irs: nat, stream: seq<nat>)
    requires Ordered(r, irs, stream) && Slice(irs, stream, r.nxt, payload)
    ensures Slice(irs, stream, irs + 1 + |r.given|, payload + Drained(r.stash, r.nxt + |payload|))
  {
    DrainedIsNext(r.stash, irs, stream, r.nxt + |payload|);
    JoinSlices(irs, stream, r.nxt, payload, Drained(r.stash, r.nxt + |payload|));
  }

  lemma {:induction false} TakeGives(r: Receiver, payload: seq<nat>, drained: seq<nat>)
    requires drained == Drained(r.stash, r.nxt + |payload|) && |drained| <= r.wnd
    ensures Take(r, payload).given == r.given + Trimmed(payload, drained, r.wnd)
  {
  }

  /** One payload extends the prefix exactly when it fits with all it makes
      deliverable, or makes nothing deliverable. */
  lemma TakeInOrderIff(r: Receiver, a: Arrival, irs: nat, stream: seq<nat>)
    requires Ordered(r, irs, stream) && Slice(irs, stream, r.nxt, a.payload) && Distinct(stream)
    requires |Drained(r.stash, r.nxt + |a.payload|)| <= r.wnd
    ensures Take(r, a.payload).given <= stream <==> Fits(r, a)
  {
    var drained := Drained(r.stash, r.nxt + |a.payload|);
    AllIsNext(r, a.payload, irs, stream);
    TakeGives(r, a.payload, drained);
    TrimmedFollowsIff(r.given, a.payload, drained, r.wnd, irs, stream);
  }

  /** An arrival that goes on to be taken in. */
  predicate TakenIn(t: Tcb, a: Arrival, now: nat, up: Upcalls) {
    t.life == Alive && t.state != SynSent && var p := AckPhase(t, a, now, up);
      p.Go? && p.t.life == Alive && Taken(p.t, a) && a.ack && !a.rst && !a.syn && !a.urg
      && |Drained(p.t.rcv.stash, p.t.rcv.nxt + |a.payload|)| <= p.t.rcv.wnd
  }

  lemma PushStays(t: Tcb, now: nat)
    ensures Push(t, now).rcv.given == t.rcv.given
  {
  }

  lemma UserStepGiven(t: Tcb, u: User)
    ensures UserStep(t, u).rcv.given == t.rcv.given
  {
    match u
    case Output(now) => PushStays(t, now);
    case Close(now) => PushStays(CloseStep(t), now);
    case _ =>
  }

  /** The application is given nothing by what it does. */
  lemma {:induction false} UserStepsGiven(t: Tcb, us: seq<User>)
    ensures UserSteps(t, us).rcv.given == t.rcv.given
    decreases |us|
  {
    if us != [] {
      UserStepGiven(t, us[0]);
      UserStepsGiven(UserStep(t, us[0]), us[1..]);
    }
  }

  lemma FinStays(t: Tcb, a: Arrival, len: nat, now: nat, up: Upcalls)
    ensures FinPhase(t, a, len, now, up).rcv.given == t.rcv.given
  {
    UserStepsGiven(t.(rcv := t.rcv.(nxt := Wrap(a.seqno + len), finIn := true), state := CloseWait), up.close);
  }

  lemma SeqGives(p: Tcb, a: Arrival, now: nat, up: Upcalls)
    requires Taken(p, a) && a.ack && !a.rst && !a.syn && !a.urg
    requires |Drained(p.rcv.stash, p.rcv.nxt + |a.payload|)| <= p.rcv.wnd
    ensures SeqPhase(p, a, now, up).rcv.given == Take(p.rcv, a.payload).given
  {
    var u := p.(rcv := Take(p.rcv, a.payload));
    UserStepsGiven(u, up.data);
    FinStays(UserSteps(u, up.data), a, if Cut(p, a) && a.fin then a.TcpLen() - 1 else a.TcpLen(), now, up);
  }

  lemma GivenStays(t: Tcb, a: Arrival, now: nat, up: Upcalls, p: Tcb)
    requires t.life == Alive && t.state != SynSent && AckPhase(t, a, now, up) == Go(p)
    requires p.life == Alive && Taken(p, a) && a.ack && !a.rst && !a.syn && !a.urg
    requires |Drained(p.rcv.stash, p.rcv.nxt + |a.payload|)| <= p.rcv.wnd
    ensures Step(t, Input(a, now, up)).rcv.given == Take(p.rcv, a.payload).given
  {
    SeqGives(p, a, now, up);
    PushStays(Receive(t, a, now, up), now);
  }

  lemma StillOrdered(t: Tcb, a: Arrival, now: nat, up: Upcalls, irs: nat, stream: seq<nat>)
    requires Good(t) && Delivering(t, irs, stream) && !t.rcv.finIn && TakenIn(t, a, now, up) && WellFormed(a)
    ensures var r := AckPhase(t, a, now, up).t.rcv; Ordered(r, irs, stream) && r.wnd <= TCP_WND
  {
    AckPhaseKeeps(t, a, now, up);
    AckDelivers(t, a, now, up, irs, stream);
  }

  /** An arrival that is taken in keeps delivery in order exactly when it fits. */
  lemma StepInOrderIff(t: Tcb, a: Arrival, now: nat, up: Upcalls, irs: nat, stream: seq<nat>)
    requires Good(t) && Delivering(t, irs, stream) && !t.rcv.finIn && TakenIn(t, a, now, up)
    requires FromPeer(a, irs, stream) && NoWrap(irs, stream) && Distinct(stream)
    ensures Step(t, Input(a, now, up)).rcv.given <= stream <==> Fits(AckPhase(t, a, now, up).t.rcv, a)
  {
    var p := AckPhase(t, a, now, up).t;
    StillOrdered(t, a, now, up, irs, stream);
    InWindowMeans(p.rcv, a, irs, stream);
    TakeInOrderIff(p.rcv, a, irs, stream);
    GivenStays(t, a, now, up, p);
  }

  // ------------------------------------------------------------ a run that garbles

  /** The peer acknowledges our SYN and nothing else. */
  function Plainly(seqno: nat, payload: seq<nat>): Event {
    Input(Arrival(seqno, 1, false, true, false, false, false, 65535, payload), 0, Upcalls([], [], [], []))
  }

  /** The peer opens; the application closes its window at once. */
  function PeerOpens(): Opening {
    Passive(0, Arrival(0, 0, true, false, false, false, false, 65535, []), [CloseWindow], 0)
  }

  /** The answer to the peer's SYN is out. */
  function Answering(): Tcb {
    var q := [Segment(0, true, false, [], 1)];
    Tcb(Alive, SynReceived, Sender(0, 1, 65535 * 128, 0, 0, q, [], 0, [Syn], 0, q),
        Receiver(1, TCP_WND, 1, true, [], [], false, [1]), Timers(RETRANSMIT_AFTER, 0, true), false)
  }

  /** Our SYN is acknowledged and nothing else was sent; the last to speak was wl1. */
  function Silent(wl1: nat): Sender {
    Sender(1, 1, 65535 * 128, wl1, 1, [], [], 0, [Syn], 1, [Segment(0, true, false, [], 1)])
  }

  /** Connected, with these bytes taken in and these numbers acknowledged. */
  function Having(given: seq<nat>, stash: seq<Stashed>, wl1: nat, told: seq<nat>): Tcb
    requires |given| <= TCP_WND
  {
    Tcb(Alive, Established, Silent(wl1),
        Receiver(1 + |given|, TCP_WND - |given|, 1 + |given|, true, stash, given, false, told), NoTimers(), false)
  }

  lemma SynQueued(t: Tcb)
    requires t == Opened(SynReceived, 0, 65535 * 128, 1)
    ensures t.snd == Sender(0, 1, 65535 * 128, 0, 0, [], [Segment(0, true, false, [], 1)], 0, [Syn], 0, [])
  {
    var none: seq<nat> := [];
    assert Bytes(none) == [] && t.snd.sent == [] + Octets(Segment(0, true, false, none, 1));
    assert t.snd.sent == [Syn];
  }

  lemma SynGoesOut(t: Tcb, q: seq<Segment>)
    requires q == [Segment(0, true, false, [], 1)] && t.snd == Sender(0, 1, 65535 * 128, 0, 0, [], q, 0, [Syn], 0, [])
    requires t.life == Alive && t.timers == NoTimers()
    ensures Push(t, 0) == t.(rcv := SendEmptyAck(t.rcv),
                             snd := t.snd.(unacked := q, pending := [], wire := t.snd.wire + q),
                             timers := Timers(RETRANSMIT_AFTER, 0, true))
  {
    var edge := Wrap(t.snd.nxt + SendWindowRemaining(t.snd));
    assert edge == 65535 * 128 && LEQ(EndOf(q[0]), edge);
    assert q[1..] == [] && Fitting([], edge) == 0;
    SynTransmitted(t, q);
  }

  lemma SynTransmitted(t: Tcb, q: seq<Segment>)
    requires |q| == 1 && t.snd.pending == q && t.snd.unacked == [] && t.life == Alive && t.timers == NoTimers()
    requires Fitting(q, Wrap(t.snd.nxt + SendWindowRemaining(t.snd))) == 1
    ensures Push(t, 0) == t.(rcv := SendEmptyAck(t.rcv),
                             snd := t.snd.(unacked := q, pending := [], wire := t.snd.wire + q),
                             timers := Timers(RETRANSMIT_AFTER, 0, true))
  {
    assert q[..1] == q && q[1..] == [] && [] + q == q && Times(1, t.rcv.nxt) == [t.rcv.nxt];
  }

  lemma Opens()
    ensures Begin(PeerOpens()) == Answering()
  {
    var u := [CloseWindow];
    assert u[1..] == [];
    var t := Opened(SynReceived, 0, 65535 * 128, 1);
    assert UserSteps(t, u) == UserStep(t, CloseWindow);
    SynQueued(t);
    SynGoesOut(UserStep(t, CloseWindow), t.snd.pending);
  }

  /** A segment that acknowledges what is acknowledged changes no more than wl1. */
  lemma Heard(t: Tcb, wl1: nat, e: Event)
    requires t.life == Alive && t.state == Established && t.timers == NoTimers() && !t.notify && t.snd == Silent(wl1)
    requires e.Input? && e == Plainly(e.a.seqno, e.a.payload) && t.rcv.nxt <= e.a.seqno < H && wl1 < M
    ensures AckPhase(t, e.a, e.now, e.up) == Go(t.(snd := Silent(e.a.seqno)))
  {
  }

  lemma SynDropped(q: seq<Segment>)
    requires q == [Segment(0, true, false, [], 1)]
    ensures DropAcked(q, 1) == []
  {
    assert EndOf(q[0]) == 1 && q[1..] == [];
  }

  lemma SynAnswered(s: Sender, a: Arrival)
    requires s == TakeWindow(Answering().snd, a) && a.ackno == 1 && a.wnd == 65535
    ensures Clear(TakeAckAndWindow(s, a), 1) == Silent(a.seqno)
    ensures Between(1, s.una, s.nxt) && Between(1, Wrap(s.una + 1), s.nxt)
  {
    SynDropped(s.unacked);
    assert TakeAckAndWindow(s, a) == Silent(a.seqno).(unacked := s.unacked);
  }

  lemma SynConnects(s: Tcb, e: Event, h: Tcb)
    requires e.Input? && e.a.ackno == 1 && s.state == Established && s.life == Alive && !s.notify
    requires Clear(TakeAckAndWindow(s.snd, e.a), 1) == h.snd && h.snd.unacked == [] && Between(1, s.snd.una, s.snd.nxt)
    requires h == s.(snd := h.snd, timers := NoTimers())
    ensures AckConnected(s, e.a, e.now, e.up) == Go(h)
  {
    assert Acknowledge(s, e.a, e.up) == h;
  }

  lemma HeardBy(t: Tcb, e: Event, h: Tcb)
    requires t.life == Alive && t.state == SynReceived && !t.notify && e.Input?
    requires e.a.ack && !e.a.syn && !e.a.rst && e.a.ackno == 1 && GEQ(e.a.seqno, t.rcv.nxt)
    requires Between(1, Wrap(t.snd.una + 1), t.snd.nxt) && Between(1, t.snd.una, t.snd.nxt)
    requires h.snd == Clear(TakeAckAndWindow(TakeWindow(t.snd, e.a), e.a), 1) && h.snd.unacked == []
    requires h == t.(state := Established, snd := h.snd, timers := NoTimers())
    ensures AckPhase(t, e.a, e.now, e.up) == Go(h)
  {
    SynConnects(t.(state := Established, snd := TakeWindow(t.snd, e.a)), e, h);
  }

  lemma Establishes(t: Tcb, h: Tcb, wl1: nat)
    requires t == Answering() && h == Having([], [], wl1, [1])
    ensures h == t.(state := Established, snd := Silent(wl1), timers := NoTimers())
    ensures t.life == Alive && t.state == SynReceived && !t.notify && t.rcv.nxt == 1
  {
  }

  /** The first segment acknowledges our SYN. */
  lemma HeardFirst(t: Tcb, e: Event, h: Tcb)
    requires t == Answering() && e.Input? && e.a.ack && !e.a.syn && !e.a.rst && e.a.ackno == 1 && e.a.wnd == 65535
    requires 1 <= e.a.seqno < H && h == Having([], [], e.a.seqno, [1])
    ensures AckPhase(t, e.a, e.now, e.up) == Go(h)
  {
    Establishes(t, h, e.a.seqno);
    SynAnswered(TakeWindow(t.snd, e.a), e.a);
    HeardBy(t, e, h);
  }

  /** The closed window shrinks by each piece that is taken in. */
  lemma PieceTaken(given: seq<nat>, told: seq<nat>, e: Event)
    requires e.Input? && e == Plainly(1 + |given|, e.a.payload) && e.a.payload != []
    requires |given| + |e.a.payload| <= TCP_WND
    ensures var r := SeqPhase(Having(given, [], 1 + |given|, told), e.a, e.now, e.up);
      r.life == Alive
      && Push(r, e.now) == Having(given + e.a.payload, [], 1 + |given|, told + [1 + |given| + |e.a.payload|])
  {
    var t := Having(given, [], 1 + |given|, told);
    assert SeqPhase(t, e.a, 0, e.up) == t.(rcv := Take(t.rcv, e.a.payload));
  }

  /** An arrival that goes through both halves of Receive. */
  lemma Through(t: Tcb, e: Event, p: Tcb, r: Tcb)
    requires e.Input? && t.life == Alive && t.state != SynSent && AckPhase(t, e.a, e.now, e.up) == Go(p)
    requires p.life == Alive && r == SeqPhase(p, e.a, e.now, e.up) && r.life == Alive
    ensures Step(t, e) == Push(r, e.now)
  {
  }

  lemma FirstPiece(t: Tcb, e: Event, none: seq<nat>, p: Tcb)
    requires none == [] && t == Answering() && e.Input? && e == Plainly(1, e.a.payload) && 0 < |e.a.payload| <= TCP_WND
    requires p == Having(none, [], 1, [1])
    ensures Step(t, e) == Having(e.a.payload, [], 1, [1] + [1 + |e.a.payload|])
  {
    HeardFirst(t, e, p);
    PieceTaken(none, [1], e);
    Through(t, e, p, SeqPhase(p, e.a, e.now, e.up));
    assert none + e.a.payload == e.a.payload;
  }

  lemma NextPiece(given: seq<nat>, wl1: nat, told: seq<nat>, e: Event)
    requires e.Input? && e == Plainly(1 + |given|, e.a.payload) && e.a.payload != []
    requires |given| + |e.a.payload| <= TCP_WND && wl1 < M
    ensures Step(Having(given, [], wl1, told), e)
      == Having(given + e.a.payload, [], 1 + |given|, told + [1 + |given| + |e.a.payload|])
  {
    var t, p := Having(given, [], wl1, told), Having(given, [], 1 + |given|, told);
    Heard(t, wl1, e);
    PieceTaken(given, told, e);
    Through(t, e, p, SeqPhase(p, e.a, e.now, e.up));
  }

  lemma EarlyKept(given: seq<nat>, told: seq<nat>, e: Event)
    requires e.Input? && e == Plainly(e.a.seqno, e.a.payload) && e.a.payload != []
    requires 1 + |given| < e.a.seqno < 1 + TCP_WND
    ensures SeqPhase(Having(given, [], e.a.seqno, told), e.a, e.now, e.up)
      == Having(given, [Stashed(e.a.seqno, e.a.payload)], e.a.seqno, told + [1 + |given|])
  {
    var p := Having(given, [], e.a.seqno, told);
    assert InWindow(p.rcv, e.a) && GT(e.a.seqno, p.rcv.nxt);
  }

  /** A piece that comes early is stashed. */
  lemma EarlyPiece(given: seq<nat>, wl1: nat, told: seq<nat>, e: Event)
    requires e.Input? && e == Plainly(e.a.seqno, e.a.payload) && e.a.payload != [] && wl1 < M
    requires 1 + |given| < e.a.seqno < 1 + TCP_WND
    ensures Step(Having(given, [], wl1, told), e)
      == Having(given, [Stashed(e.a.seqno, e.a.payload)], e.a.seqno, told + [1 + |given|])
  {
    var t, p := Having(given, [], wl1, told), Having(given, [], e.a.seqno, told);
    var r := Having(given, [Stashed(e.a.seqno, e.a.payload)], e.a.seqno, told + [1 + |given|]);
    Heard(t, wl1, e);
    EarlyKept(given, told, e);
    Through(t, e, p, r);
  }

  lemma GapTaken(r: Receiver, payload: seq<nat>, stashed: seq<nat>)
    requires r.stash == [Stashed(r.nxt + |payload|, stashed)] && |stashed| <= r.wnd < |payload| + |stashed|
    ensures |Drained(r.stash, r.nxt + |payload|)| <= r.wnd
    ensures Take(r, payload).given == r.given + (payload[..r.wnd - |stashed|] + stashed)
  {
    assert r.stash[1..] == [];
    assert Drained(r.stash, r.nxt + |payload|) == stashed + Drained([], r.nxt + |payload| + |stashed|);
    assert Drained(r.stash, r.nxt + |payload|) == stashed;
    TakeGives(r, payload, stashed);
  }

  lemma GapTakenIn(t: Tcb, given: seq<nat>, wl1: nat, e: Event)
    requires e.Input? && e == Plainly(1 + |given|, e.a.payload) && e.a.payload != [] && wl1 < M && |given| < TCP_WND
    requires t == Having(given, t.rcv.stash, wl1, t.rcv.told)
    requires |Drained(t.rcv.stash, t.rcv.nxt + |e.a.payload|)| <= t.rcv.wnd
    ensures TakenIn(t, e.a, e.now, e.up) && AckPhase(t, e.a, e.now, e.up).t.rcv == t.rcv
  {
    Heard(t, wl1, e);
    assert InWindow(t.rcv, e.a) && !GT(e.a.seqno, t.rcv.nxt);
  }

  /** The gap closes: the stashed piece is handed over, and the window cuts the one
      before it. */
  lemma GapCloses(t: Tcb, e: Event, stashed: seq<nat>)
    requires e.Input? && TakenIn(t, e.a, e.now, e.up)
    requires AckPhase(t, e.a, e.now, e.up).t.rcv == t.rcv
    requires t.rcv.stash == [Stashed(t.rcv.nxt + |e.a.payload|, stashed)]
    requires |stashed| <= t.rcv.wnd < |e.a.payload| + |stashed|
    ensures Step(t, e).rcv.given == t.rcv.given + (e.a.payload[..t.rcv.wnd - |stashed|] + stashed)
  {
    GapTaken(t.rcv, e.a.payload, stashed);
    GivenStays(t, e.a, e.now, e.up, AckPhase(t, e.a, e.now, e.up).t);
  }

  // ---------------------------------------------------------------------- the run

  lemma Extend(r: Run, e: Event, n: Tcb) returns (r': Run)
    requires IsRun(r) && Proper(e) && n == Step(r.states[|r.events|], e)
    ensures IsRun(r') && r' == Run(r.opening, r.states + [n], r.events + [e])
  {
    r' := Run(r.opening, r.states + [n], r.events + [e]);
    forall k {:trigger Follows(r', k)} | 0 <= k < |r'.states|
      ensures Follows(r', k)
    {
      if k < |r.states| { assert Follows(r, k); }
    }
  }

  function Zeros(n: nat): (r: seq<nat>)
    ensures |r| == n && forall i | 0 <= i < n :: r[i] == 0
  {
    seq(n, _ => 0)
  }

  /** So many zeros, and 20000 ones behind them. */
  function PeerStream(zeros: nat): (r: seq<nat>)
    ensures |r| == zeros + 20_000 && forall i | 0 <= i < |r| :: r[i] == if i < zeros then 0 else 1
  {
    Zeros(zeros) + seq(20_000, _ => 1)
  }

  predicate AllFromPeer(r: Run, stream: seq<nat>) {
    r.opening == PeerOpens() && forall k | 0 <= k < |r.events| :: r.events[k].Input? && FromPeer(r.events[k].a, 0, stream)
  }

  lemma StartRun(stream: seq<nat>) returns (r: Run)
    ensures IsRun(r) && AllFromPeer(r, stream) && |r.events| == 0 && r.states[0] == Answering()
  {
    r := Run(PeerOpens(), [Answering()], []);
    Opens();
    assert Follows(r, 0);
  }

  /** The run goes on with a piece of the stream. */
  lemma Continue(r: Run, e: Event, n: Tcb, stream: seq<nat>) returns (r': Run)
    requires IsRun(r) && AllFromPeer(r, stream) && n == Step(r.states[|r.events|], e)
    requires e.Input? && FromPeer(e.a, 0, stream)
    ensures IsRun(r') && AllFromPeer(r', stream) && |r'.events| == |r.events| + 1 && r'.states == r.states + [n]
  {
    r' := Extend(r, e, n);
  }

  lemma PieceOfZeros(at: nat, n: nat, zeros: nat)
    requires 0 < at && at - 1 + n <= zeros < TCP_WND
    ensures FromPeer(Plainly(at, Zeros(n)).a, 0, PeerStream(zeros))
  {
    assert Zeros(n) == PeerStream(zeros)[at - 1..at - 1 + n];
  }

  /** The state after k + 1 pieces. */
  predicate HasPieces(r: Run, k: nat, stream: seq<nat>) {
    IsRun(r) && AllFromPeer(r, stream) && |r.events| == k + 1 && (k + 1) * 0x8000 <= TCP_WND
    && r.states[k + 1] == Having(Zeros((k + 1) * 0x8000), [], 1 + k * 0x8000, r.states[k + 1].rcv.told)
  }

  lemma FirstZeros(zeros: nat, stream: seq<nat>) returns (r: Run)
    requires 0x8000 <= zeros < TCP_WND && stream == PeerStream(zeros)
    ensures HasPieces(r, 0, stream)
  {
    var e := Plainly(1, Zeros(0x8000));
    PieceOfZeros(1, 0x8000, zeros);
    r := StartRun(stream);
    FirstPiece(r.states[0], e, [], Having([], [], 1, [1]));
    r := Continue(r, e, Having(Zeros(0x8000), [], 1, [1] + [1 + 0x8000]), stream);
  }

  lemma ZerosJoin(x: nat, y: nat)
    ensures Zeros(x) + Zeros(y) == Zeros(x + y)
  {
  }

  lemma PieceComes(r: Run, given: seq<nat>, wl1: nat, e: Event, stream: seq<nat>) returns (r': Run)
    requires IsRun(r) && AllFromPeer(r, stream) && wl1 < M && e.Input? && |given| + |e.a.payload| <= TCP_WND
    requires r.states[|r.events|] == Having(given, [], wl1, r.states[|r.events|].rcv.told)
    requires e == Plainly(1 + |given|, e.a.payload) && e.a.payload != [] && FromPeer(e.a, 0, stream)
    ensures IsRun(r') && AllFromPeer(r', stream) && |r'.events| == |r.events| + 1
    ensures var n := r'.states[|r'.events|];
      n == Having(given + e.a.payload, [], 1 + |given|, n.rcv.told)
  {
    var told := r.states[|r.events|].rcv.told;
    NextPiece(given, wl1, told, e);
    r' := Continue(r, e, Step(Having(given, [], wl1, told), e), stream);
  }

  lemma NextZeros(r: Run, k: nat, zeros: nat, stream: seq<nat>) returns (r': Run)
    requires 0 < k && (k + 1) * 0x8000 <= zeros < TCP_WND && stream == PeerStream(zeros) && HasPieces(r, k - 1, stream)
    ensures HasPieces(r', k, stream)
  {
    var e := Plainly(1 + k * 0x8000, Zeros(0x8000));
    PieceOfZeros(1 + k * 0x8000, 0x8000, zeros);
    ZerosJoin(k * 0x8000, 0x8000);
    r' := PieceComes(r, Zeros(k * 0x8000), 1 + (k - 1) * 0x8000, e, stream);
  }

  /** Zeros come in order, 0x8000 at a time. */
  lemma {:induction false} ZerosCome(k: nat, zeros: nat, stream: seq<nat>) returns (r: Run)
    requires (k + 1) * 0x8000 <= zeros < TCP_WND && stream == PeerStream(zeros)
    ensures HasPieces(r, k, stream)
  {
    if k == 0 {
      r := FirstZeros(zeros, stream);
    } else {
      r := ZerosCome(k - 1, zeros, stream);
      r := NextZeros(r, k, zeros, stream);
    }
  }

  lemma EarlyComes(r: Run, given: seq<nat>, wl1: nat, e: Event, stream: seq<nat>) returns (r': Run)
    requires IsRun(r) && AllFromPeer(r, stream) && |given| <= TCP_WND && wl1 < M
    requires r.states[|r.events|] == Having(given, [], wl1, r.states[|r.events|].rcv.told)
    requires e.Input? && e == Plainly(e.a.seqno, e.a.payload) && e.a.payload != [] && FromPeer(e.a, 0, stream)
    requires 1 + |given| < e.a.seqno < 1 + TCP_WND
    ensures IsRun(r') && AllFromPeer(r', stream) && |r'.events| == |r.events| + 1
    ensures var n := r'.states[|r'.events|];
      n == Having(given, [Stashed(e.a.seqno, e.a.payload)], e.a.seqno, n.rcv.told)
  {
    var told := r.states[|r.events|].rcv.told;
    EarlyPiece(given, wl1, told, e);
    r' := Continue(r, e, Step(Having(given, [], wl1, told), e), stream);
  }

  /** With room for 0x8000 more, the ones come 20000 bytes too early, */
  lemma OnesCome(r: Run, stream: seq<nat>) returns (r': Run, ones: seq<nat>)
    requires stream == PeerStream(63 * 0x8000 + 20_000) && HasPieces(r, 62, stream)
    ensures IsRun(r') && AllFromPeer(r', stream) && |r'.events| == 64
    ensures |ones| == 20_000 && forall i | 0 <= i < |ones| :: ones[i] == 1
    ensures var next := 1 + 63 * 0x8000;
      r'.states[64] == Having(Zeros(63 * 0x8000), [Stashed(next + 20_000, ones)], next + 20_000, r'.states[64].rcv.told)
  {
    var at := 1 + 63 * 0x8000 + 20_000;
    ones := stream[at - 1..];
    var e := Plainly(at, ones);
    r' := EarlyComes(r, Zeros(63 * 0x8000), 1 + 62 * 0x8000, e, stream);
  }

  /** and then the zeros before them: the window has room for 0x8000 bytes. */
  lemma ZerosFollow(r: Run, stream: seq<nat>, given: seq<nat>, late: seq<nat>, ones: seq<nat>) returns (r': Run)
    requires stream == PeerStream(63 * 0x8000 + 20_000) && IsRun(r) && AllFromPeer(r, stream) && |r.events| == 64
    requires given == Zeros(63 * 0x8000) && late == Zeros(20_000) && |ones| == 20_000
    requires var at := 1 + 63 * 0x8000 + 20_000;
      r.states[64] == Having(given, [Stashed(at, ones)], at, r.states[64].rcv.told)
    ensures IsRun(r') && AllFromPeer(r', stream) && |r'.events| == 65
    ensures r'.states[65].rcv.given == given + (late[..0x8000 - 20_000] + ones)
  {
    var e := Plainly(1 + |given|, late);
    PieceOfZeros(1 + |given|, 20_000, 63 * 0x8000 + 20_000);
    var t := r.states[64];
    GapTaken(t.rcv, late, ones);
    GapTakenIn(t, given, 1 + |given| + 20_000, e);
    GapCloses(t, e, ones);
    r' := Continue(r, e, Step(t, e), stream);
  }

  /** Every arrival is a piece of the peer's stream, and what is given is not a prefix of
      it. */
  lemma TrimmingGarbles() returns (r: Run, stream: seq<nat>)
    ensures IsRun(r) && NoWrap(0, stream) && AllFromPeer(r, stream)
    ensures !(r.states[|r.events|].rcv.given <= stream)
  {
    stream := PeerStream(63 * 0x8000 + 20_000);
    r := ZerosCome(62, 63 * 0x8000 + 20_000, stream);
    var ones;
    r, ones := OnesCome(r, stream);
    r := ZerosFollow(r, stream, Zeros(63 * 0x8000), Zeros(20_000), ones);
    var at := 63 * 0x8000 + 0x8000 - 20_000;
    assert r.states[65].rcv.given[at] == 1 && stream[at] == 0;
  }
}
