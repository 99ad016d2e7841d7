/** What goes out: exactly what the peer's window holds, and again when the timer says
    so. Everything is told in positions of the stream, counted from the SYN. */
module TcpOutput {
  import opened TcpSeq
  import opened Tcp
  import opened TcpQueue
  import opened TcpProofs

  /** The largest window a 16-bit field and the scale can say. */
  const MAX_SEND_WND := 65535 * 128

  predicate Windowed(s: Sender) {
    s.wnd <= MAX_SEND_WND
  }

  /** Where the i-th segment of a queue ends whose last segment ends what was sent. */
  function EndPosition(q: seq<Segment>, s: Sender, i: nat): int
    requires i < |q|
  {
    |s.sent| - Len(q[i + 1..])
  }

  /** The first n segments of the queue, and no others, end inside the window. */
  predicate Admits(s: Sender, q: seq<Segment>, n: nat) {
    n <= |q| && (forall i | 0 <= i < n :: EndPosition(q, s, i) <= s.acked + s.wnd)
    && (n < |q| ==> EndPosition(q, s, n) > s.acked + s.wnd)
  }

  /** From the queue q behind what is in flight, n segments have gone out. */
  predicate WentOut(s: Sender, flight: seq<Segment>, q: seq<Segment>, n: nat, r: Sender) {
    Admits(s, q, n) && r == s.(unacked := flight + q[..n], pending := q[n..], wire := s.wire + q[..n])
  }

  // -------------------------------------------------------------------- positions

  lemma {:induction false} EndsAt(q: seq<Segment>, iss: nat, off: nat, sent: seq<Octet>, i: nat)
    requires Tiles(q, iss, off, sent) && i < |q|
    ensures off <= |sent| - Len(q[i + 1..]) <= |sent| && EndOf(q[i]) == Wrap(iss + (|sent| - Len(q[i + 1..])))
  {
    if i == 0 {
      TilesLen(q[1..], iss, off + q[0].tcpLen, sent);
      SubWrap(iss + off, q[0].tcpLen);
    } else {
      EndsAt(q[1..], iss, off + q[0].tcpLen, sent, i - 1);
      assert q[1..][i..] == q[i + 1..];
    }
  }

  /** The edge that Output compares with is the end of the window. */
  lemma EdgeIs(s: Sender)
    requires Tiled(s)
    ensures Wrap(s.nxt + SendWindowRemaining(s)) == Wrap(s.iss + s.acked + s.wnd)
  {
    var d := |s.sent| - s.acked;
    SubWrap(s.iss + |s.sent|, s.iss + s.acked);
    SubRight(s.wnd, d);
    SubWrap(s.iss + |s.sent|, SendWindowRemaining(s));
    SubWrap(s.wnd - d, s.iss + |s.sent|);
  }

  /** The comparison is the comparison of positions. */
  lemma InsideIff(s: Sender, u: seq<Segment>, q: seq<Segment>, i: nat)
    requires Tiled(s) && Windowed(s) && s.Queue() == u + q && i < |q|
    ensures LEQ(EndOf(q[i]), Wrap(s.nxt + SendWindowRemaining(s))) <==> EndPosition(q, s, i) <= s.acked + s.wnd
  {
    var base, end := |s.sent| - Len(s.Queue()), EndPosition(q, s, i);
    TilesSuffix(u, q, s.iss, base, s.sent);
    EndsAt(q, s.iss, base + Len(u), s.sent, i);
    EdgeIs(s);
    assert s.acked - base <= MAX_SEGMENT + 1 by { assert Reaches(s.Queue(), s.acked - base); }
    CompareMeaning(s.iss + end, s.iss + s.acked + s.wnd);
  }

  lemma FittingAdmits(s: Sender, u: seq<Segment>, q: seq<Segment>)
    requires Tiled(s) && Windowed(s) && s.Queue() == u + q
    ensures Admits(s, q, Fitting(q, Wrap(s.nxt + SendWindowRemaining(s))))
  {
    var edge := Wrap(s.nxt + SendWindowRemaining(s));
    var n := Fitting(q, edge);
    forall i | 0 <= i < |q|
      ensures LEQ(EndOf(q[i]), edge) <==> EndPosition(q, s, i) <= s.acked + s.wnd
    {
      InsideIff(s, u, q, i);
    }
  }

  // ----------------------------------------------------------------------- output

  lemma TimesFew(x: nat)
    ensures Times(0, x) == [] && Times(1, x) == [x]
  {
  }

  lemma OutputSends(t: Tcb, now: nat, n: nat)
    requires n == Fitting(t.snd.pending, Wrap(t.snd.nxt + SendWindowRemaining(t.snd)))
    ensures OutputStep(t, now).snd
      == t.snd.(unacked := t.snd.unacked + t.snd.pending[..n], pending := t.snd.pending[n..],
                wire := t.snd.wire + t.snd.pending[..n])
  {
    assert t.snd.pending[..0] == [] && t.snd.pending[0..] == t.snd.pending;
  }

  /** What else Output does. */
  lemma OutputElse(t: Tcb, now: nat, n: nat)
    requires n == Fitting(t.snd.pending, Wrap(t.snd.nxt + SendWindowRemaining(t.snd))) && t.life == Alive
    ensures var o := OutputStep(t, now);
      && (o.life == Halted || o.life == Alive)
      && (o.life == Halted <==> n == 0 && t.snd.pending != [] && t.snd.unacked == [])
      && o.timers == t.timers.(retransmit := if n > 0 then now + RETRANSMIT_AFTER else t.timers.retransmit)
      && (o.life == Alive ==>
            var acks := if n > 0 then n else if LT(t.rcv.lastAcked, t.rcv.nxt) then 1 else 0;
            o.rcv.told == t.rcv.told + Times(acks, t.rcv.nxt))
  {
    TimesFew(t.rcv.nxt);
  }

  /** Output sends exactly the pending segments that end inside the window, each once and
      in order. If that is none although nothing is in flight, it halts; whatever goes
      out gets a deadline. Every segment carries an acknowledgement, and one goes out alone
      only when none does and something is unacknowledged. */
  lemma OutputMeaning(t: Tcb, now: nat) returns (n: nat)
    requires Tiled(t.snd) && Windowed(t.snd) && t.life == Alive
    ensures var o := OutputStep(t, now);
      && WentOut(t.snd, t.snd.unacked, t.snd.pending, n, o.snd)
      && (o.life == Halted || o.life == Alive)
      && (o.life == Halted <==> n == 0 && t.snd.pending != [] && t.snd.unacked == [])
      && o.timers == t.timers.(retransmit := if n > 0 then now + RETRANSMIT_AFTER else t.timers.retransmit)
      && (o.life == Alive ==>
            var acks := if n > 0 then n else if LT(t.rcv.lastAcked, t.rcv.nxt) then 1 else 0;
            o.rcv.told == t.rcv.told + Times(acks, t.rcv.nxt))
  {
    n := Fitting(t.snd.pending, Wrap(t.snd.nxt + SendWindowRemaining(t.snd)));
    FittingAdmits(t.snd, t.snd.unacked, t.snd.pending);
    OutputSends(t, now, n);
    OutputElse(t, now, n);
  }

  lemma PushMeaning(t: Tcb, now: nat) returns (n: nat)
    requires Tiled(t.snd) && Windowed(t.snd) && t.life == Alive
    ensures var p := Push(t, now);
      && WentOut(t.snd, t.snd.unacked, t.snd.pending, n, p.snd)
      && (p.life == Halted || p.life == Alive)
      && (p.life == Halted <==> n == 0 && t.snd.pending != [] && t.snd.unacked == [])
      && p.timers.retransmit == (if n > 0 then now + RETRANSMIT_AFTER else t.timers.retransmit)
      && (n > 0 ==> p.timers.armed)
  {
    n := OutputMeaning(t, now);
  }

  // ---------------------------------------------------------------------- the timer

  predicate Expired(m: Timers, now: nat) {
    m.timeWait != 0 && now >= m.timeWait
  }

  predicate Due(m: Timers, now: nat) {
    m.retransmit != 0 && now >= m.retransmit
  }

  /** What a timer event does. Past the retransmission deadline everything in flight is
      behind: it goes out once more from its first segment on, with as much after it as
      the window holds, or the machine halts because not even the first fits. Before the
      deadline only what is pending goes out. */
  predicate Fired(t: Tcb, now: nat, n: nat, f: Tcb) {
    if Expired(t.timers, now) then f.life == Destroyed
    else
      && (if Due(t.timers, now) then WentOut(t.snd, [], t.snd.Queue(), n, f.snd)
          else WentOut(t.snd, t.snd.unacked, t.snd.pending, n, f.snd))
      && (f.life == Halted <==> n == 0 && t.snd.Queue() != [] && (Due(t.timers, now) || t.snd.unacked == []))
      && (f.life == Halted || f.life == Alive)
      && (n > 0 ==> f.timers.retransmit == now + RETRANSMIT_AFTER && f.timers.armed)
  }

  lemma RetreatTiled(s: Sender)
    requires Tiled(s)
    ensures Tiled(Retreat(s)) && Retreat(s).pending == s.Queue()
  {
    assert Retreat(s).Queue() == s.Queue();
  }

  lemma RetreatedGoOut(s: Sender, n: nat, r: Sender)
    requires WentOut(Retreat(s), [], s.Queue(), n, r)
    ensures WentOut(s, [], s.Queue(), n, r)
  {
    forall i | 0 <= i < |s.Queue()|
      ensures EndPosition(s.Queue(), s, i) == EndPosition(s.Queue(), Retreat(s), i)
    {
    }
  }

  lemma Retreats(t: Tcb, now: nat)
    requires !Expired(t.timers, now) && Due(t.timers, now)
    ensures FireStep(t, now) == Push(t.(timers := Timers(0, t.timers.timeWait, false), snd := Retreat(t.snd)), now)
  {
  }

  lemma FireAgain(t: Tcb, now: nat) returns (n: nat)
    requires Tiled(t.snd) && Windowed(t.snd) && t.life == Alive && !Expired(t.timers, now) && Due(t.timers, now)
    ensures Fired(t, now, n, FireStep(t, now))
  {
    var g := t.(timers := Timers(0, t.timers.timeWait, false), snd := Retreat(t.snd));
    assert Tiled(g.snd) && g.snd.pending == t.snd.Queue() by { RetreatTiled(t.snd); }
    n := PushMeaning(g, now);
    Retreats(t, now);
    RetreatedGoOut(t.snd, n, Push(g, now).snd);
  }

  lemma FireOn(t: Tcb, now: nat) returns (n: nat)
    requires Tiled(t.snd) && Windowed(t.snd) && t.life == Alive && !Expired(t.timers, now) && !Due(t.timers, now)
    ensures Fired(t, now, n, FireStep(t, now))
  {
    n := PushMeaning(t.(timers := t.timers.(armed := false)), now);
    assert t.snd.unacked == [] ==> t.snd.Queue() == t.snd.pending;
    assert t.snd.pending != [] ==> t.snd.Queue() != [];
    assert n == 0 && t.snd.Queue() != [] && t.snd.unacked == [] ==> t.snd.pending != [];
  }

  lemma FireMeaning(t: Tcb, now: nat) returns (n: nat)
    requires Tiled(t.snd) && Windowed(t.snd) && t.life == Alive
    ensures Fired(t, now, n, FireStep(t, now))
  {
    n := 0;
    if !Expired(t.timers, now) {
      if Due(t.timers, now) {
        n := FireAgain(t, now);
      } else {
        n := FireOn(t, now);
      }
    }
  }

  // -------------------------------------------------------------------- the window

  /** What only the peer can change. */
  predicate SameHeard(s: Sender, r: Sender) {
    r.una == s.una && r.wnd == s.wnd && r.wl1 == s.wl1 && r.wl2 == s.wl2 && r.acked == s.acked && r.iss == s.iss
  }

  lemma PushHeard(t: Tcb, now: nat)
    ensures SameHeard(t.snd, Push(t, now).snd)
  {
  }

  lemma CloseHeard(t: Tcb)
    ensures SameHeard(t.snd, CloseStep(t).snd)
  {
  }

  lemma UserStepHeard(t: Tcb, u: User)
    ensures SameHeard(t.snd, UserStep(t, u).snd)
  {
    match u
    case Output(now) => PushHeard(t, now);
    case Close(now) =>
      CloseHeard(t);
      PushHeard(CloseStep(t), now);
    case _ =>
  }

  lemma {:induction false} UserStepsHeard(t: Tcb, us: seq<User>)
    ensures SameHeard(t.snd, UserSteps(t, us).snd)
    decreases |us|
  {
    if us != [] {
      UserStepHeard(t, us[0]);
      UserStepsHeard(UserStep(t, us[0]), us[1..]);
    }
  }

  lemma AckConnectedWindow(t: Tcb, a: Arrival, now: nat, up: Upcalls)
    requires WellFormed(a) && Windowed(t.snd)
    ensures Windowed(AckConnected(t, a, now, up).t.snd)
  {
    UserStepsHeard(ClearAcked(t.(snd := TakeAckAndWindow(t.snd, a)), a.ackno), up.window);
  }

  lemma AckWindow(t: Tcb, a: Arrival, now: nat, up: Upcalls)
    requires WellFormed(a) && Windowed(t.snd)
    ensures Windowed(AckPhase(t, a, now, up).t.snd)
  {
    AckConnectedWindow(t, a, now, up);
    AckConnectedWindow(t.(state := Established, snd := TakeWindow(t.snd, a)), a, now, up);
  }

  lemma PayloadHeard(t: Tcb, a: Arrival, up: Upcalls)
    ensures SameHeard(t.snd, PayloadPhase(t, a, up).t.snd)
  {
    if |Drained(t.rcv.stash, t.rcv.nxt + |a.payload|)| <= t.rcv.wnd {
      UserStepsHeard(t.(rcv := Take(t.rcv, a.payload)), up.data);
    }
  }

  lemma FinHeard(t: Tcb, a: Arrival, len: nat, now: nat, up: Upcalls)
    ensures SameHeard(t.snd, FinPhase(t, a, len, now, up).snd)
  {
    UserStepsHeard(t.(rcv := t.rcv.(nxt := Wrap(a.seqno + len), finIn := true), state := CloseWait), up.close);
  }

  lemma SeqHeard(t: Tcb, a: Arrival, now: nat, up: Upcalls)
    ensures SameHeard(t.snd, SeqPhase(t, a, now, up).snd)
  {
    PayloadHeard(t, a, up);
    FinHeard(PayloadPhase(t, a, up).t, a, if Cut(t, a) && a.fin then a.TcpLen() - 1 else a.TcpLen(), now, up);
  }

  lemma AnswerWindow(t: Tcb, a: Arrival, up: Upcalls)
    requires WellFormed(a) && Windowed(t.snd)
    ensures Windowed(AnswerToSyn(t, a, up).snd)
  {
    UserStepsHeard(Answered(SynTaken(t, a), a), up.connected);
  }

  lemma ReceiveWindow(t: Tcb, a: Arrival, now: nat, up: Upcalls)
    requires WellFormed(a) && Windowed(t.snd)
    ensures Windowed(Receive(t, a, now, up).snd)
  {
    AnswerWindow(t, a, up);
    AckWindow(t, a, now, up);
    SeqHeard(AckPhase(t, a, now, up).t, a, now, up);
  }

  lemma FireHeard(t: Tcb, now: nat)
    ensures SameHeard(t.snd, FireStep(t, now).snd)
  {
    PushHeard(t.(timers := t.timers.(armed := false)), now);
    PushHeard(t.(timers := t.timers.(armed := false, retransmit := 0), snd := Retreat(t.snd)), now);
  }

  lemma InputWindow(t: Tcb, a: Arrival, now: nat, up: Upcalls)
    requires WellFormed(a) && Windowed(t.snd)
    ensures Windowed(InputStep(t, a, now, up).snd)
  {
    ReceiveWindow(t, a, now, up);
    PushHeard(Receive(t, a, now, up), now);
  }

  lemma StepWindow(t: Tcb, e: Event)
    requires Proper(e) && Windowed(t.snd)
    ensures Windowed(Step(t, e).snd)
  {
    match e
    case Input(a, now, up) => InputWindow(t, a, now, up);
    case Fire(now) => FireHeard(t, now);
    case App(u) => UserStepHeard(t, u);
  }

  /** The segment that opened a connection was one that a header can say. */
  predicate FromWire(o: Opening) {
    o.Passive? ==> WellFormed(o.a)
  }

  lemma BeginWindow(o: Opening)
    requires FromWire(o)
    ensures Windowed(Begin(o).snd)
  {
    if o.Passive? {
      UserStepsHeard(Opened(SynReceived, o.iss, o.a.wnd * WINDOW_SCALE, Wrap(o.a.seqno + 1)), o.script);
    }
  }

  lemma FollowsWindow(r: Run, k: nat)
    requires IsRun(r) && FromWire(r.opening) && k < |r.states| && (k > 0 ==> Windowed(r.states[k - 1].snd))
    ensures Windowed(r.states[k].snd)
  {
    assert Follows(r, k);
    if k == 0 {
      BeginWindow(r.opening);
    } else {
      StepWindow(r.states[k - 1], r.events[k - 1]);
    }
  }

  lemma {:induction false} RunWindow(r: Run, k: nat)
    requires IsRun(r) && FromWire(r.opening) && k < |r.states|
    ensures Windowed(r.states[k].snd)
  {
    if k > 0 { RunWindow(r, k - 1); }
    FollowsWindow(r, k);
  }

  // --------------------------------------------------------------------------- runs

  /** In every run, a timer event past the deadline with segments in flight puts the first
      of them on the wire once more, and all that follow inside the window, or the
      machine halts because it does not fit. */
  lemma Retransmits(r: Run, k: nat) returns (n: nat)
    requires IsRun(r) && FromWire(r.opening) && k < |r.events| && r.states[k].life == Alive && r.events[k].Fire?
    ensures Fired(r.states[k], r.events[k].now, n, r.states[k + 1])
  {
    RunGood(r, k);
    RunWindow(r, k);
    assert Follows(r, k + 1);
    n := FireMeaning(r.states[k], r.events[k].now);
  }

  /** Nothing that the window holds is left pending. */
  predicate Flushed(s: Sender) {
    s.pending != [] ==> EndPosition(s.pending, s, 0) > s.acked + s.wnd
  }

  lemma PushFlushes(t: Tcb, now: nat)
    requires Tiled(t.snd) && Windowed(t.snd) && t.life == Alive
    ensures Flushed(Push(t, now).snd)
  {
    var n := PushMeaning(t, now);
    var q := t.snd.pending;
    if n < |q| {
      assert q[n..][1..] == q[n + 1..];
      assert EndPosition(q[n..], Push(t, now).snd, 0) == EndPosition(q, t.snd, n);
    }
  }

  /** Events at whose end Output is called. */
  predicate Outputs(e: Event) {
    e.Input? || e.Fire? || (e.App? && (e.u.Output? || e.u.Close?))
  }

  lemma FireFlushes(t: Tcb, now: nat)
    requires Good(t) && Windowed(t.snd) && t.life == Alive && FireStep(t, now).life == Alive
    ensures Flushed(FireStep(t, now).snd)
  {
    if Due(t.timers, now) {
      Retreats(t, now);
      RetreatTiled(t.snd);
      PushFlushes(t.(timers := Timers(0, t.timers.timeWait, false), snd := Retreat(t.snd)), now);
    } else {
      PushFlushes(t.(timers := t.timers.(armed := false)), now);
    }
  }

  lemma CloseFlushes(t: Tcb, now: nat)
    requires Good(t) && Windowed(t.snd) && t.life == Alive && Held(t.state) && UserStep(t, Close(now)).life == Alive
    ensures Flushed(UserStep(t, Close(now)).snd)
  {
    var c := CloseStep(t);
    assert c.life == Alive ==> Tiled(c.snd) by { CloseKeeps(t); }
    assert Windowed(c.snd) by { CloseHeard(t); }
    PushFlushes(c, now);
  }

  lemma InputFlushes(t: Tcb, a: Arrival, now: nat, up: Upcalls)
    requires Good(t) && Windowed(t.snd) && t.life == Alive && WellFormed(a) && InputStep(t, a, now, up).life == Alive
    ensures Flushed(InputStep(t, a, now, up).snd)
  {
    ReceiveKeeps(t, a, now, up);
    ReceiveWindow(t, a, now, up);
    PushFlushes(Receive(t, a, now, up), now);
  }

  lemma StepFlushes(t: Tcb, e: Event)
    requires Good(t) && Windowed(t.snd) && t.life == Alive && Proper(e) && Outputs(e) && Step(t, e).life == Alive
    requires e.App? ==> Held(t.state)
    ensures Flushed(Step(t, e).snd)
  {
    match e
    case Input(a, now, up) => InputFlushes(t, a, now, up);
    case Fire(now) => FireFlushes(t, now);
    case App(u) => if u.Output? { PushFlushes(t, u.now); } else { CloseFlushes(t, u.now); }
  }

  /** In every run, after an arrival, a timer event, an Output or a close, whatever is
      still pending lies beyond the peer's window. */
  lemma NothingThatFitsWaits(r: Run, k: nat)
    requires IsRun(r) && FromWire(r.opening) && k < |r.events| && Outputs(r.events[k])
    requires r.events[k].App? ==> Held(r.states[k].state)
    requires r.states[k].life == Alive && r.states[k + 1].life == Alive
    ensures Flushed(r.states[k + 1].snd)
  {
    RunGood(r, k);
    RunWindow(r, k);
    assert Follows(r, k + 1);
    StepFlushes(r.states[k], r.events[k]);
  }

  // -------------------------------------------------------------------------- sending

  function Outstanding(s: Sender): int {
    |s.sent| - s.acked
  }

  /** The room in the peer's window. When the peer has shrunk its window below what is
      outstanding, the difference wraps and the room is nearly 2^32. */
  lemma RemainingIs(s: Sender)
    requires Tiled(s) && Windowed(s)
    ensures 0 <= Outstanding(s) < H
    ensures SendWindowRemaining(s) ==
      if Outstanding(s) <= s.wnd then s.wnd - Outstanding(s) else M + s.wnd - Outstanding(s)
  {
    var d := Outstanding(s);
    SubWrap(s.iss + |s.sent|, s.iss + s.acked);
    WrapCase(d, 0);
    WrapCase(s.wnd - d, if d <= s.wnd then 0 else -1);
  }

  /** In every run, a send is accepted exactly when it is no longer than a segment and the
      window has room for it, or is smaller than what is outstanding already. What is
      accepted is queued behind all else, and nothing goes out yet. */
  lemma SendAcceptedIff(r: Run, k: nat, data: seq<nat>)
    requires IsRun(r) && FromWire(r.opening) && k < |r.events| && r.events[k] == App(Send(data))
    requires r.states[k].life == Alive && Held(r.states[k].state)
    ensures var s, t' := r.states[k].snd, r.states[k + 1];
      && (t'.life == Alive || t'.life == Overrun <==>
            |data| <= MAX_SEGMENT && (Outstanding(s) > s.wnd || |data| <= s.wnd - Outstanding(s)))
      && (t'.life == Overrun ==> Len(s.Queue()) + |data| + 1 >= H)
      && (t'.life == Alive ==>
            t'.snd.sent == s.sent + Bytes(data) && t'.snd.wire == s.wire && t'.snd.unacked == s.unacked)
  {
    RunGood(r, k);
    RunWindow(r, k);
    assert Follows(r, k + 1);
    RemainingIs(r.states[k].snd);
  }

  // ---------------------------------------------------------------------- the wire

  /** What is in flight has been on the wire. */
  predicate OnWire(s: Sender) {
    forall g | g in s.unacked :: g in s.wire
  }

  lemma PushOnWire(t: Tcb, now: nat)
    requires OnWire(t.snd)
    ensures OnWire(Push(t, now).snd)
  {
  }

  lemma UserStepOnWire(t: Tcb, u: User)
    requires OnWire(t.snd)
    ensures OnWire(UserStep(t, u).snd)
  {
    match u
    case Output(now) => PushOnWire(t, now);
    case Close(now) => PushOnWire(CloseStep(t), now);
    case _ =>
  }

  lemma {:induction false} UserStepsOnWire(t: Tcb, us: seq<User>)
    requires OnWire(t.snd)
    ensures OnWire(UserSteps(t, us).snd)
    decreases |us|
  {
    if us != [] {
      UserStepOnWire(t, us[0]);
      UserStepsOnWire(UserStep(t, us[0]), us[1..]);
    }
  }

  lemma ClearOnWire(t: Tcb, ackno: nat)
    requires OnWire(t.snd)
    ensures OnWire(ClearAcked(t, ackno).snd)
  {
    DropSuffix(t.snd.unacked, ackno);
  }

  lemma AckConnectedOnWire(t: Tcb, a: Arrival, now: nat, up: Upcalls)
    requires OnWire(t.snd)
    ensures OnWire(AckConnected(t, a, now, up).t.snd)
  {
    var c := t.(snd := TakeAckAndWindow(t.snd, a));
    ClearOnWire(c, a.ackno);
    UserStepsOnWire(ClearAcked(c, a.ackno), up.window);
  }

  lemma AckOnWire(t: Tcb, a: Arrival, now: nat, up: Upcalls)
    requires OnWire(t.snd)
    ensures OnWire(AckPhase(t, a, now, up).t.snd)
  {
    AckConnectedOnWire(t, a, now, up);
    AckConnectedOnWire(t.(state := Established, snd := TakeWindow(t.snd, a)), a, now, up);
  }

  lemma PayloadOnWire(t: Tcb, a: Arrival, up: Upcalls)
    requires OnWire(t.snd)
    ensures OnWire(PayloadPhase(t, a, up).t.snd)
  {
    if |Drained(t.rcv.stash, t.rcv.nxt + |a.payload|)| <= t.rcv.wnd {
      UserStepsOnWire(t.(rcv := Take(t.rcv, a.payload)), up.data);
    }
  }

  lemma FinOnWire(t: Tcb, a: Arrival, len: nat, now: nat, up: Upcalls)
    requires OnWire(t.snd)
    ensures OnWire(FinPhase(t, a, len, now, up).snd)
  {
    UserStepsOnWire(t.(rcv := t.rcv.(nxt := Wrap(a.seqno + len), finIn := true), state := CloseWait), up.close);
  }

  lemma SeqOnWire(t: Tcb, a: Arrival, now: nat, up: Upcalls)
    requires OnWire(t.snd)
    ensures OnWire(SeqPhase(t, a, now, up).snd)
  {
    PayloadOnWire(t, a, up);
    FinOnWire(PayloadPhase(t, a, up).t, a, if Cut(t, a) && a.fin then a.TcpLen() - 1 else a.TcpLen(), now, up);
  }

  lemma AnswerOnWire(t: Tcb, a: Arrival, up: Upcalls)
    requires OnWire(t.snd)
    ensures OnWire(AnswerToSyn(t, a, up).snd)
  {
    var c := SynTaken(t, a);
    ClearOnWire(c.(state := Established, snd := TakeWindow(TakeAck(c.snd, a.ackno), a)), a.ackno);
    UserStepsOnWire(Answered(c, a), up.connected);
  }

  lemma StepOnWire(t: Tcb, e: Event)
    requires OnWire(t.snd)
    ensures OnWire(Step(t, e).snd)
  {
    match e
    case Input(a, now, up) =>
      AnswerOnWire(t, a, up);
      AckOnWire(t, a, now, up);
      SeqOnWire(AckPhase(t, a, now, up).t, a, now, up);
      PushOnWire(Receive(t, a, now, up), now);
    case Fire(now) =>
      PushOnWire(t.(timers := t.timers.(armed := false)), now);
      PushOnWire(t.(timers := t.timers.(armed := false, retransmit := 0), snd := Retreat(t.snd)), now);
    case App(u) => UserStepOnWire(t, u);
  }

  lemma BeginOnWire(o: Opening)
    ensures OnWire(Begin(o).snd)
  {
    match o
    case Active(iss, now) => PushOnWire(Opened(SynSent, iss, TCP_WND, 0), now);
    case Passive(iss, a, script, now) =>
      var t := Opened(SynReceived, iss, a.wnd * WINDOW_SCALE, Wrap(a.seqno + 1));
      UserStepsOnWire(t, script);
      PushOnWire(UserSteps(t, script), now);
  }

  /** At every point of every run, what is in flight has been put on the wire, and nothing
      comes off the history of the wire. */
  lemma {:induction false} InFlightWasSent(r: Run, k: nat)
    requires IsRun(r) && k < |r.states|
    ensures OnWire(r.states[k].snd)
    ensures k > 0 ==> r.states[k - 1].snd.wire <= r.states[k].snd.wire
  {
    assert Follows(r, k);
    if k == 0 {
      BeginOnWire(r.opening);
    } else {
      InFlightWasSent(r, k - 1);
      StepOnWire(r.states[k - 1], r.events[k - 1]);
      StepGrows(r.states[k - 1], r.events[k - 1]);
    }
  }
}
