/** What every run of a connection keeps: the tiling of sequence space, the meaning of
    the closing states, and an armed timer over everything unacknowledged. */
module TcpProofs {
  import opened TcpSeq
  import opened Tcp
  import opened TcpQueue

  predicate Tiled(s: Sender) {
    s.nxt == Wrap(s.iss + |s.sent|) && s.una == Wrap(s.iss + s.acked)
    && Tiling(s.Queue(), s.iss, s.sent, s.acked)
  }

  predicate FinSent(state: State) {
    state.FinWait1? || state.FinWait2? || state.Closing? || state.LastAck? || state.TimeWait?
  }

  /** A SYN, then bytes, then, if there is one, the FIN. */
  predicate Shaped(sent: seq<Octet>, fin: bool) {
    var end := |sent| - if fin then 1 else 0;
    end > 0 && sent[0] == Syn && (forall i | 0 < i < end :: sent[i].Byte?) && (fin ==> sent[end] == Fin)
  }

  /** The SYN has not been acknowledged. */
  predicate Unanswered(state: State) {
    state.SynSent? || state.SynReceived?
  }

  predicate LastHasFin(q: seq<Segment>) {
    q != [] ==> q[|q| - 1].fin
  }

  /** The closing states say what they say. */
  predicate Ends(state: State, s: Sender, finIn: bool) {
    && !state.Closed?
    && Shaped(s.sent, FinSent(state))
    && (FinSent(state) ==> LastHasFin(s.Queue()))
    && (Unanswered(state) ==> s.acked == 0)
    && (Held(state) ==> Len(s.Queue()) + 1 < H)
    && (state.FinWait2? || state.TimeWait? ==> s.acked == |s.sent| && s.Queue() == [])
    && (state.CloseWait? || state.Closing? || state.LastAck? || state.TimeWait? ==> finIn)
  }

  predicate Sized(r: Receiver) {
    r.wnd <= TCP_WND && r.nxt < M
  }

  predicate Inv(t: Tcb) {
    && (t.life == Alive ==> Tiled(t.snd) && Ends(t.state, t.snd, t.rcv.finIn) && Sized(t.rcv))
    && (t.life == Destroyed ==> t.snd.Queue() == [] && t.timers == NoTimers())
  }

  /** Nothing unacknowledged waits without a deadline and a running timer. */
  predicate Armed(t: Tcb) {
    t.life == Alive && t.snd.unacked != [] ==> t.timers.retransmit != 0 && t.timers.armed
  }

  predicate Good(t: Tcb) {
    Inv(t) && Armed(t)
  }

  /** The same sender but for where in the queue the unacknowledged part ends. */
  predicate SameQueue(s: Sender, r: Sender) {
    r == s.(unacked := r.unacked, pending := r.pending, wire := r.wire) && r.Queue() == s.Queue()
  }

  /** What neither the application nor the timer can touch. */
  predicate SameArrived(r: Receiver, s: Receiver) {
    s == r.(wnd := s.wnd, lastAcked := s.lastAcked, closing := s.closing, told := s.told)
  }

  lemma SameQueueKeeps(t: Tcb, r: Tcb)
    requires Inv(t) && t.life == Alive && r.life == Alive && r.state == t.state
    requires SameQueue(t.snd, r.snd) && SameArrived(t.rcv, r.rcv) && r.rcv.wnd <= TCP_WND
    ensures Inv(r)
  {
  }

  // ------------------------------------------------------------------- output

  lemma OutputMoves(t: Tcb, now: nat)
    ensures SameQueue(t.snd, OutputStep(t, now).snd) && SameArrived(t.rcv, OutputStep(t, now).rcv)
    ensures OutputStep(t, now).state == t.state && OutputStep(t, now).rcv.wnd == t.rcv.wnd
  {
    var s := t.snd;
    var n := Fitting(s.pending, Wrap(s.nxt + SendWindowRemaining(s)));
    assert s.unacked + s.pending[..n] + s.pending[n..] == s.unacked + s.pending;
  }

  /** Output then SetTimer only moves segments between the queues, and arms the timer
      for whatever it put in flight. */
  lemma PushMoves(t: Tcb, now: nat)
    requires t.life == Alive
    requires t.snd.unacked != [] ==> (t.timers.retransmit != 0 && t.timers.armed) || now < t.timers.retransmit
    ensures var p := Push(t, now);
      && (p.life == Alive || p.life == Halted) && p.state == t.state
      && SameQueue(t.snd, p.snd) && SameArrived(t.rcv, p.rcv) && p.rcv.wnd == t.rcv.wnd && Armed(p)
  {
    OutputMoves(t, now);
  }

  lemma PushKeeps(t: Tcb, now: nat)
    requires Inv(t) && t.life == Alive
    requires t.snd.unacked != [] ==> (t.timers.retransmit != 0 && t.timers.armed) || now < t.timers.retransmit
    ensures Good(Push(t, now))
  {
    PushMoves(t, now);
    var p := Push(t, now);
    if p.life == Alive {
      SameQueueKeeps(t, p);
    }
  }

  lemma FireKeeps(t: Tcb, now: nat)
    requires Good(t) && t.life == Alive
    ensures Good(FireStep(t, now))
  {
    var m := t.timers.(armed := false);
    if m.timeWait != 0 && now >= m.timeWait {
    } else if m.retransmit != 0 && now >= m.retransmit {
      var g := t.(timers := m.(retransmit := 0), snd := Retreat(t.snd));
      assert g.snd.Queue() == t.snd.Queue();
      SameQueueKeeps(t, g);
      PushKeeps(g, now);
    } else {
      SameQueueKeeps(t, t.(timers := m));
      PushKeeps(t.(timers := m), now);
    }
  }

  // -------------------------------------------------------------- application

  /** No segment that may be queued is too long for its 16-bit length. */
  lemma NewSegment(nxt: nat, syn: bool, fin: bool, data: seq<nat>)
    requires !(syn && fin) && |data| <= MAX_SEGMENT
    ensures var len := |data| + if syn || fin then 1 else 0;
      var g := Segment(nxt, syn, fin, data, Short(len));
      Sound(g) && g.tcpLen == len && (fin && data == [] ==> Octets(g) == [Fin])
  {
  }

  lemma EnqueueKeeps(s: Sender, syn: bool, fin: bool, data: seq<nat>)
    requires Tiled(s) && !(syn && fin) && |data| <= MAX_SEGMENT && Len(s.Queue()) + |data| + 1 < H
    ensures var e := EnqueueSegment(s, syn, fin, data);
      && Tiled(e) && (fin ==> LastHasFin(e.Queue())) && (fin && data == [] ==> e.sent == s.sent + [Fin])
      && Len(e.Queue()) == Len(s.Queue()) + |data| + (if syn || fin then 1 else 0)
  {
    var e := EnqueueSegment(s, syn, fin, data);
    var g := e.pending[|e.pending| - 1];
    NewSegment(s.nxt, syn, fin, data);
    assert e.Queue() == s.Queue() + [g];
    SubWrap(s.iss + |s.sent|, g.tcpLen);
    EnqueueTiling(s.Queue(), s.iss, s.sent, s.acked, g);
  }

  lemma BytesAppended(s: Sender, data: seq<nat>)
    requires Shaped(s.sent, false)
    ensures Shaped(EnqueueSegment(s, false, false, data).sent, false)
  {
  }

  lemma SenderReplaced(t: Tcb, s: Sender, to: State)
    requires Good(t) && t.life == Alive && Tiled(s) && Ends(to, s, t.rcv.finIn) && s.unacked == t.snd.unacked
    ensures Good(t.(snd := s, state := to))
  {
  }

  lemma SendStepKeeps(t: Tcb, data: seq<nat>)
    requires Good(t) && t.life == Alive && Held(t.state)
    ensures Good(SendStep(t, data))
  {
    if |data| <= SendWindowRemaining(t.snd) && |data| <= MAX_SEGMENT && Len(t.snd.Queue()) + |data| + 1 < H {
      EnqueueKeeps(t.snd, false, false, data);
      BytesAppended(t.snd, data);
      SenderReplaced(t, EnqueueSegment(t.snd, false, false, data), t.state);
    }
  }

  lemma SendFinKeeps(s: Sender)
    requires Tiled(s) && Len(s.Queue()) + 1 < H
    ensures var f := SendFin(s); Tiled(f) && f.sent == s.sent + [Fin] && LastHasFin(f.Queue())
  {
    var f, n := SendFin(s), |s.pending|;
    if n > 0 && Plain(s.pending[n - 1]) {
      var g := s.pending[n - 1];
      var q := s.unacked + s.pending[..n - 1];
      assert s.Queue() == q + [g] && f.Queue() == q + [WithFin(g)];
      ExtendTiling(q, g, s.iss, s.sent, s.acked);
      SubWrap(s.iss + |s.sent|, 1);
    } else {
      EnqueueKeeps(s, false, true, []);
    }
  }

  lemma FinAppended(sent: seq<Octet>)
    requires Shaped(sent, false)
    ensures Shaped(sent + [Fin], true)
  {
  }

  /** A FIN sent ends what is to be sent. */
  lemma ClosingEnds(s: Sender, to: State, finIn: bool)
    requires Tiled(s) && Len(s.Queue()) + 1 < H && Shaped(s.sent, false)
    requires to == FinWait1 || (to == LastAck && finIn)
    ensures Tiled(SendFin(s)) && Ends(to, SendFin(s), finIn)
  {
    SendFinKeeps(s);
    FinAppended(s.sent);
  }

  lemma CloseKeeps(t: Tcb)
    requires Good(t) && t.life == Alive && Held(t.state)
    ensures Good(CloseStep(t)) && CloseStep(t).rcv == t.rcv && CloseStep(t).snd.una == t.snd.una
  {
    if t.state != SynSent {
      var to := if t.state == CloseWait then LastAck else FinWait1;
      ClosingEnds(t.snd, to, t.rcv.finIn);
      SenderReplaced(t, SendFin(t.snd), to);
    }
  }

  /** A step of the application, and what it leaves alone. */
  predicate Undisturbed(t: Tcb, r: Tcb) {
    Good(r) && SameArrived(t.rcv, r.rcv) && r.snd.una == t.snd.una && (!Held(t.state) ==> r == t)
  }

  lemma PushUndisturbed(t: Tcb, c: Tcb, now: nat)
    requires Good(c) && c.life == Alive && c.rcv == t.rcv && c.snd.una == t.snd.una && Held(t.state)
    ensures Undisturbed(t, Push(c, now))
  {
    PushKeeps(c, now);
    PushMoves(c, now);
  }

  lemma UserStepKeeps(t: Tcb, u: User)
    requires Good(t)
    ensures Undisturbed(t, UserStep(t, u))
  {
    if t.life == Alive && Held(t.state) {
      match u
      case Send(data) => SendStepKeeps(t, data);
      case Output(now) => PushUndisturbed(t, t, now);
      case Close(now) =>
        CloseKeeps(t);
        if t.state != SynSent { PushUndisturbed(t, CloseStep(t), now); }
      case OpenWindow => SameQueueKeeps(t, UserStep(t, u));
      case CloseWindow => SameQueueKeeps(t, UserStep(t, u));
      case Notify(_) => SameQueueKeeps(t, UserStep(t, u));
    }
  }

  lemma {:induction false} UserStepsKeep(t: Tcb, us: seq<User>)
    requires Good(t)
    ensures Undisturbed(t, UserSteps(t, us))
    decreases |us|
  {
    if us != [] {
      UserStepKeeps(t, us[0]);
      UserStepsKeep(UserStep(t, us[0]), us[1..]);
    }
  }

  // ------------------------------------------------------------------ acknowledge

  /** An acceptable ACK number stands for one position between what was acknowledged
      and what was sent. */
  lemma AckPosition(s: Sender, ackno: nat)
    requires Tiled(s) && ackno < M
    ensures var k := s.acked + Sub(ackno, s.una);
      ackno == Wrap(s.iss + k) && (Between(ackno, s.una, s.nxt) <==> k <= |s.sent|)
  {
    BetweenMeaning(ackno, s.iss + s.acked, s.iss + |s.sent|);
  }

  /** While a SYN is answered the same range is tested with signed comparisons. */
  lemma AckOfSyn(s: Sender, ackno: nat)
    requires Tiled(s) && ackno < M && !LEQ(ackno, s.una) && !GT(ackno, s.nxt)
    ensures Between(ackno, s.una, s.nxt)
  {
    var k := s.acked + Sub(ackno, s.una);
    AckPosition(s, ackno);
    CompareMeaning(s.iss + k, s.iss + |s.sent|);
  }

  lemma ClearIsDrop(s: Sender, ackno: nat)
    requires Tiled(s) && ackno < M && Between(ackno, s.una, s.nxt)
    ensures Clear(s, ackno).Queue() == DropAcked(s.Queue(), ackno)
  {
    AckPosition(s, ackno);
    DropConcat(s.unacked, s.pending, s.iss, |s.sent| - Len(s.Queue()), s.sent, s.acked + Sub(ackno, s.una));
  }

  /** Taking in an acceptable ACK and clearing what it acknowledges. */
  lemma ClearTiled(s: Sender, ackno: nat)
    requires Tiled(s) && ackno < M && Between(ackno, s.una, s.nxt)
    ensures var c := Clear(TakeAck(s, ackno), ackno);
      Tiled(c) && (ackno == s.nxt ==> c.Queue() == [] && c.acked == |c.sent|)
  {
    var k := s.acked + Sub(ackno, s.una);
    AckPosition(s, ackno);
    ClearIsDrop(s, ackno);
    AckTiling(s.Queue(), s.iss, s.sent, s.acked, k);
    if ackno == s.nxt {
      PositionUnique(s.iss + k, s.iss + |s.sent|);
    }
  }

  lemma ClearKeeps(s: Sender, ackno: nat)
    requires Tiled(s) && ackno < M && Between(ackno, s.una, s.nxt)
    ensures var q := Clear(TakeAck(s, ackno), ackno).Queue();
      Len(q) <= Len(s.Queue()) && (LastHasFin(s.Queue()) ==> LastHasFin(q))
  {
    ClearIsDrop(s, ackno);
    DropSuffix(s.Queue(), ackno);
    ClearLen(s.Queue(), ackno);
  }

  lemma {:induction false} ClearLen(q: seq<Segment>, ackno: nat)
    ensures Len(DropAcked(q, ackno)) <= Len(q)
  {
    if q != [] && !GT(EndOf(q[0]), ackno) {
      ClearLen(q[1..], ackno);
    }
  }

  /** The connection after an acceptable ACK, the window taken or not. */
  lemma ClearAckedKeeps(t: Tcb, ackno: nat, s: Sender)
    requires Good(t) && t.life == Alive && ackno < M && Between(ackno, t.snd.una, t.snd.nxt) && !Unanswered(t.state)
    requires s == TakeAck(t.snd, ackno).(wnd := s.wnd, wl1 := s.wl1, wl2 := s.wl2)
    ensures var c := ClearAcked(t.(snd := s), ackno);
      && Good(c) && c.life == Alive && c.state == t.state && c.rcv == t.rcv && c.snd.una == ackno
  {
    ClearTiled(t.snd, ackno);
    ClearKeeps(t.snd, ackno);
    var c, d := ClearAcked(t.(snd := s), ackno), Clear(TakeAck(t.snd, ackno), ackno);
    assert c.snd == d.(wnd := s.wnd, wl1 := s.wl1, wl2 := s.wl2) && c.snd.Queue() == d.Queue();
    NothingMoreToAck(t, ackno);
  }

  /** When our FIN is acknowledged already no other ACK is acceptable. */
  lemma NothingMoreToAck(t: Tcb, ackno: nat)
    requires Inv(t) && t.life == Alive && ackno < M && Between(ackno, t.snd.una, t.snd.nxt)
    ensures t.state.FinWait2? || t.state.TimeWait? ==> ackno == t.snd.nxt
  {
    AckPosition(t.snd, ackno);
  }

  lemma AcknowledgeKeeps(t: Tcb, a: Arrival, up: Upcalls)
    requires Good(t) && t.life == Alive && a.ackno < M && Between(a.ackno, t.snd.una, t.snd.nxt) && !Unanswered(t.state)
    ensures var r := Acknowledge(t, a, up); Good(r) && r.snd.una == a.ackno && SameArrived(t.rcv, r.rcv)
  {
    var s := TakeAckAndWindow(t.snd, a);
    ClearAckedKeeps(t, a.ackno, s);
    UserStepsKeep(ClearAcked(t.(snd := s), a.ackno), up.window);
  }

  lemma NothingQueued(q: seq<Segment>, iss: nat, sent: seq<Octet>)
    requires Tiling(q, iss, sent, |sent|) && LastHasFin(q)
    ensures q == []
  {
    if q != [] {
      TilesAt(q, iss, |sent| - Len(q), sent, |q| - 1);
      LastInLen(q);
    }
  }

  /** All sent is acknowledged, and our FIN is part of it: nothing is queued. */
  lemma AllAcked(t: Tcb)
    requires Inv(t) && t.life == Alive && t.snd.una == t.snd.nxt
    ensures t.snd.acked == |t.snd.sent|
    ensures FinSent(t.state) ==> t.snd.Queue() == []
  {
    var s := t.snd;
    PositionUnique(s.iss + s.acked, s.iss + |s.sent|);
    if FinSent(t.state) {
      NothingQueued(s.Queue(), s.iss, s.sent);
    }
  }

  lemma {:induction false} LastInLen(q: seq<Segment>)
    requires q != []
    ensures Len(q) >= q[0].tcpLen && Len(q) >= q[|q| - 1].tcpLen
  {
    if |q| > 1 {
      LastInLen(q[1..]);
    }
  }

  lemma AfterAckKeeps(t: Tcb, a: Arrival, now: nat)
    requires Good(t) && (t.life == Alive && a.ackno == t.snd.nxt ==> t.snd.una == t.snd.nxt)
    ensures var r := AfterAck(t, a, now); Good(r) && r.rcv == t.rcv
  {
    if t.life == Alive && a.ackno == t.snd.nxt {
      AllAcked(t);
    }
  }

  // -------------------------------------------------------------------- input

  predicate WellFormed(a: Arrival) {
    a.seqno < M && a.ackno < M && a.wnd < 65536
  }

  lemma ReceiverKeeps(t: Tcb, r: Receiver)
    requires Good(t) && t.life == Alive && (t.rcv.finIn ==> r.finIn) && r.wnd <= TCP_WND && r.nxt < M
    ensures Good(t.(rcv := r))
  {
  }

  /** Moving between states that say the same about FINs, with a new window. */
  lemma EstablishedKeeps(t: Tcb, a: Arrival)
    requires Good(t) && t.life == Alive && (t.state == SynSent || t.state == SynReceived)
    ensures Good(t.(state := Established)) && Good(t.(state := Established, snd := TakeWindow(t.snd, a)))
  {
    assert TakeWindow(t.snd, a).Queue() == t.snd.Queue();
  }

  lemma AnsweredGood(t: Tcb, a: Arrival)
    requires Good(t) && t.life == Alive && t.state == SynSent && WellFormed(a)
    requires !LEQ(a.ackno, t.snd.una) && !GT(a.ackno, t.snd.nxt)
    ensures Good(Answered(t, a)) && Answered(t, a).state == Established && Answered(t, a).rcv == t.rcv
  {
    EstablishedKeeps(t, a);
    AckOfSyn(t.snd, a.ackno);
    ClearAckedKeeps(t.(state := Established), a.ackno, TakeWindow(TakeAck(t.snd, a.ackno), a));
  }

  function SynTaken(t: Tcb, a: Arrival): Tcb {
    t.(rcv := t.rcv.(nxt := Wrap(a.seqno + 1), lastAcked := a.seqno))
  }

  lemma AnswerToSynKeeps(t: Tcb, a: Arrival, up: Upcalls)
    requires Good(t) && t.life == Alive && t.state == SynSent && WellFormed(a)
    ensures Good(AnswerToSyn(t, a, up))
  {
    if a.syn && a.ack && !a.rst && !LEQ(a.ackno, t.snd.una) && !GT(a.ackno, t.snd.nxt) && a.TcpLen() <= 1 {
      ReceiverKeeps(t, SynTaken(t, a).rcv);
      AnsweredGood(SynTaken(t, a), a);
      UserStepsKeep(Answered(SynTaken(t, a), a), up.connected);
    }
  }

  lemma AckConnectedKeeps(t: Tcb, a: Arrival, now: nat, up: Upcalls)
    requires Good(t) && t.life == Alive && WellFormed(a) && !Unanswered(t.state)
    ensures var p := AckConnected(t, a, now, up); Good(p.t) && SameArrived(t.rcv, p.t.rcv)
  {
    if Between(a.ackno, t.snd.una, t.snd.nxt) {
      AcknowledgeKeeps(t, a, up);
      AfterAckKeeps(Acknowledge(t, a, up), a, now);
    } else if GT(a.ackno, t.snd.nxt) {
      ReceiverKeeps(t, SendEmptyAck(t.rcv));
    } else {
      AfterAckKeeps(t, a, now);
    }
  }

  lemma AckPhaseKeeps(t: Tcb, a: Arrival, now: nat, up: Upcalls)
    requires Good(t) && t.life == Alive && WellFormed(a) && t.state != SynSent
    ensures var p := AckPhase(t, a, now, up); Good(p.t) && SameArrived(t.rcv, p.t.rcv)
  {
    if t.state == SynReceived {
      EstablishedKeeps(t, a);
      AckConnectedKeeps(t.(state := Established, snd := TakeWindow(t.snd, a)), a, now, up);
    } else {
      AckConnectedKeeps(t, a, now, up);
    }
  }

  lemma PayloadPhaseKeeps(t: Tcb, a: Arrival, up: Upcalls)
    requires Good(t) && t.life == Alive
    ensures Good(PayloadPhase(t, a, up).t)
  {
    if a.payload != [] && t.state == Established {
      if GT(a.seqno, t.rcv.nxt) {
        ReceiverKeeps(t, SendEmptyAck(t.rcv.(stash := Stash(t.rcv.stash, Stashed(a.seqno, a.payload)))));
      } else if |Drained(t.rcv.stash, t.rcv.nxt + |a.payload|)| <= t.rcv.wnd {
        var r := Take(t.rcv, a.payload);
        ReceiverKeeps(t, r);
        UserStepsKeep(t.(rcv := r), up.data);
      }
    }
  }

  /** Where a FIN takes the connection. */
  predicate FinGoes(state: State, to: State) {
    || ((state == Established || state == SynReceived) && to == CloseWait)
    || (state == FinWait1 && to == Closing)
    || ((state == FinWait2 || state == TimeWait) && to == TimeWait)
  }

  lemma FinEnds(state: State, to: State, s: Sender)
    requires Ends(state, s, true) && FinGoes(state, to)
    ensures Ends(to, s, true)
  {
  }

  lemma FinMoves(f: Tcb, to: State, m: Timers)
    requires Good(f) && f.life == Alive && f.rcv.finIn && FinGoes(f.state, to) && (to != TimeWait ==> m == f.timers)
    ensures Good(f.(timers := m, state := to))
  {
    FinEnds(f.state, to, f.snd);
    assert f.snd.Queue() == [] ==> f.snd.unacked == [];
  }

  lemma AfterFinKeeps(t: Tcb, now: nat, up: Upcalls)
    requires Good(t) && t.life == Alive && t.rcv.finIn
    ensures Good(AfterFin(t, now, up))
  {
    match t.state
    case Established | SynReceived =>
      FinMoves(t, CloseWait, t.timers);
      UserStepsKeep(t.(state := CloseWait), up.close);
    case FinWait1 => FinMoves(t, Closing, t.timers);
    case FinWait2 | TimeWait => FinMoves(t, TimeWait, Timers(0, now + TIME_WAIT_FOR, false));
    case _ =>
  }

  lemma FinPhaseKeeps(t: Tcb, a: Arrival, len: nat, now: nat, up: Upcalls)
    requires Good(t)
    ensures Good(FinPhase(t, a, len, now, up))
  {
    if t.life == Alive && a.fin {
      var r := t.rcv.(nxt := Wrap(a.seqno + len), finIn := true);
      ReceiverKeeps(t, r);
      AfterFinKeeps(t.(rcv := r), now, up);
    }
  }

  lemma SeqPhaseKeeps(t: Tcb, a: Arrival, now: nat, up: Upcalls)
    requires Good(t) && t.life == Alive
    ensures Good(SeqPhase(t, a, now, up))
  {
    ReceiverKeeps(t, SendEmptyAck(t.rcv));
    PayloadPhaseKeeps(t, a, up);
    var p := PayloadPhase(t, a, up).t;
    FinPhaseKeeps(p, a, if Cut(t, a) && a.fin then a.TcpLen() - 1 else a.TcpLen(), now, up);
  }

  lemma ReceiveKeeps(t: Tcb, a: Arrival, now: nat, up: Upcalls)
    requires Good(t) && t.life == Alive && WellFormed(a)
    ensures Good(Receive(t, a, now, up))
  {
    if t.state == SynSent {
      AnswerToSynKeeps(t, a, up);
    } else {
      AckPhaseKeeps(t, a, now, up);
      var p := AckPhase(t, a, now, up);
      if p.Go? && p.t.life == Alive {
        SeqPhaseKeeps(p.t, a, now, up);
      }
    }
  }

  lemma InputKeeps(t: Tcb, a: Arrival, now: nat, up: Upcalls)
    requires Good(t) && t.life == Alive && WellFormed(a)
    ensures Good(InputStep(t, a, now, up))
  {
    var r := Receive(t, a, now, up);
    ReceiveKeeps(t, a, now, up);
    if r.life == Alive {
      PushKeeps(r, now);
    }
  }

  // --------------------------------------------------------------------- runs

  predicate Proper(e: Event) {
    e.Input? ==> WellFormed(e.a)
  }

  lemma StepKeeps(t: Tcb, e: Event)
    requires Good(t) && Proper(e)
    ensures Good(Step(t, e))
  {
    if t.life == Alive {
      match e
      case Input(a, now, up) => InputKeeps(t, a, now, up);
      case Fire(now) => FireKeeps(t, now);
      case App(u) => UserStepKeeps(t, u);
    }
  }

  /** How a connection comes to be. */
  datatype Opening = Active(iss: nat, now: nat) | Passive(iss: nat, a: Arrival, script: seq<User>, now: nat)

  function Begin(o: Opening): Tcb {
    match o
    case Active(iss, now) => Connect(iss, now)
    case Passive(iss, a, script, now) => Accept(iss, a, script, now)
  }

  lemma OpenedGood(state: State, iss: nat, wnd: nat, rcvNxt: nat)
    requires iss < M && Unanswered(state) && rcvNxt < M
    ensures Good(Opened(state, iss, wnd, rcvNxt))
  {
    var s := Sender(iss, iss, wnd, 0, 0, [], [], iss, [], 0, []);
    assert s.Queue() == [];
    WrapCase(iss, 0);
    EnqueueKeeps(s, true, false, []);
  }

  lemma ConnectGood(iss: nat, now: nat)
    requires iss < M
    ensures Good(Connect(iss, now))
  {
    OpenedGood(SynSent, iss, TCP_WND, 0);
    PushKeeps(Opened(SynSent, iss, TCP_WND, 0), now);
  }

  lemma AcceptedGood(t: Tcb, a: Arrival, script: seq<User>, now: nat)
    requires Good(t)
    ensures Good(Accepted(t, a, script, now))
  {
    UserStepsKeep(t, script);
    var e := UserSteps(t, script);
    if e.life == Alive {
      PushKeeps(e, now);
    }
  }

  lemma BeginGood(o: Opening)
    requires o.iss < M
    ensures Good(Begin(o))
  {
    match o
    case Active(iss, now) => ConnectGood(iss, now);
    case Passive(iss, a, script, now) =>
      var t := Opened(SynReceived, iss, a.wnd * WINDOW_SCALE, Wrap(a.seqno + 1));
      OpenedGood(SynReceived, iss, a.wnd * WINDOW_SCALE, Wrap(a.seqno + 1));
      AcceptedGood(t, a, script, now);
  }

  datatype Run = Run(opening: Opening, states: seq<Tcb>, events: seq<Event>)

  /** The k-th state comes about as it should. */
  predicate Follows(r: Run, k: nat)
    requires |r.states| == |r.events| + 1 && k < |r.states|
  {
    if k == 0 then r.states[0] == Begin(r.opening)
    else Proper(r.events[k - 1]) && r.states[k] == Step(r.states[k - 1], r.events[k - 1])
  }

  /** A connection from its opening on, with everything that happens to it. */
  predicate IsRun(r: Run) {
    r.opening.iss < M && |r.states| == |r.events| + 1
    && forall k {:trigger Follows(r, k)} | 0 <= k < |r.states| :: Follows(r, k)
  }

  lemma FollowsKeeps(r: Run, k: nat)
    requires r.opening.iss < M && |r.states| == |r.events| + 1 && k < |r.states| && Follows(r, k)
    requires k > 0 ==> Good(r.states[k - 1])
    ensures Good(r.states[k])
  {
    if k == 0 {
      BeginGood(r.opening);
    } else {
      StepKeeps(r.states[k - 1], r.events[k - 1]);
    }
  }

  lemma {:induction false} RunGood(r: Run, k: nat)
    requires IsRun(r) && k < |r.states|
    ensures Good(r.states[k])
  {
    if k > 0 {
      RunGood(r, k - 1);
    }
    FollowsKeeps(r, k);
  }

  // ------------------------------------------------------------------- growth

  /** What was sent stays sent, what was acknowledged stays acknowledged, and what was on
      the wire stays so. */
  predicate Grows(s: Sender, r: Sender) {
    s.iss == r.iss && s.sent <= r.sent && s.acked <= r.acked && s.wire <= r.wire
  }

  lemma PushGrows(t: Tcb, now: nat)
    ensures Grows(t.snd, Push(t, now).snd)
  {
  }

  lemma SendFinGrows(s: Sender)
    ensures Grows(s, SendFin(s))
  {
  }

  lemma SendGrows(t: Tcb, data: seq<nat>)
    ensures Grows(t.snd, SendStep(t, data).snd)
  {
  }

  lemma CloseGrows(t: Tcb, now: nat)
    ensures Grows(t.snd, CloseStep(t).snd) && Grows(t.snd, Push(CloseStep(t), now).snd)
  {
    SendFinGrows(t.snd);
    PushGrows(CloseStep(t), now);
  }

  lemma UserStepGrows(t: Tcb, u: User)
    ensures Grows(t.snd, UserStep(t, u).snd)
  {
    match u
    case Send(data) => SendGrows(t, data);
    case Output(now) => PushGrows(t, now);
    case Close(now) => CloseGrows(t, now);
    case _ =>
  }

  lemma {:induction false} UserStepsGrow(t: Tcb, us: seq<User>)
    ensures Grows(t.snd, UserSteps(t, us).snd)
    decreases |us|
  {
    if us != [] {
      UserStepGrows(t, us[0]);
      UserStepsGrow(UserStep(t, us[0]), us[1..]);
    }
  }

  lemma AckConnectedGrows(t: Tcb, a: Arrival, now: nat, up: Upcalls)
    ensures Grows(t.snd, AckConnected(t, a, now, up).t.snd)
  {
    UserStepsGrow(ClearAcked(t.(snd := TakeAckAndWindow(t.snd, a)), a.ackno), up.window);
  }

  lemma AckPhaseGrows(t: Tcb, a: Arrival, now: nat, up: Upcalls)
    ensures Grows(t.snd, AckPhase(t, a, now, up).t.snd)
  {
    AckConnectedGrows(t, a, now, up);
    AckConnectedGrows(t.(state := Established, snd := TakeWindow(t.snd, a)), a, now, up);
  }

  lemma PayloadGrows(t: Tcb, a: Arrival, up: Upcalls)
    ensures Grows(t.snd, PayloadPhase(t, a, up).t.snd)
  {
    if |Drained(t.rcv.stash, t.rcv.nxt + |a.payload|)| <= t.rcv.wnd {
      UserStepsGrow(t.(rcv := Take(t.rcv, a.payload)), up.data);
    }
  }

  lemma SeqPhaseGrows(t: Tcb, a: Arrival, now: nat, up: Upcalls)
    ensures Grows(t.snd, SeqPhase(t, a, now, up).snd)
  {
    PayloadGrows(t, a, up);
    var p := PayloadPhase(t, a, up).t;
    var len := if Cut(t, a) && a.fin then a.TcpLen() - 1 else a.TcpLen();
    UserStepsGrow(p.(rcv := p.rcv.(nxt := Wrap(a.seqno + len), finIn := true), state := CloseWait), up.close);
  }

  lemma AnswerGrows(t: Tcb, a: Arrival, up: Upcalls)
    ensures Grows(t.snd, AnswerToSyn(t, a, up).snd)
  {
    UserStepsGrow(Answered(SynTaken(t, a), a), up.connected);
  }

  lemma InputGrows(t: Tcb, a: Arrival, now: nat, up: Upcalls)
    ensures Grows(t.snd, InputStep(t, a, now, up).snd)
  {
    AnswerGrows(t, a, up);
    AckPhaseGrows(t, a, now, up);
    SeqPhaseGrows(AckPhase(t, a, now, up).t, a, now, up);
    PushGrows(Receive(t, a, now, up), now);
  }

  lemma FireGrows(t: Tcb, now: nat)
    ensures Grows(t.snd, FireStep(t, now).snd)
  {
    var m := t.timers.(armed := false);
    PushGrows(t.(timers := m.(retransmit := 0), snd := Retreat(t.snd)), now);
    PushGrows(t.(timers := m), now);
  }

  lemma StepGrows(t: Tcb, e: Event)
    ensures Grows(t.snd, Step(t, e).snd)
  {
    match e
    case Input(a, now, up) => InputGrows(t, a, now, up);
    case Fire(now) => FireGrows(t, now);
    case App(u) => UserStepGrows(t, u);
  }

  lemma FollowsGrows(r: Run, k: nat)
    requires |r.states| == |r.events| + 1 && 0 < k < |r.states| && Follows(r, k)
    ensures Grows(r.states[k - 1].snd, r.states[k].snd)
  {
    StepGrows(r.states[k - 1], r.events[k - 1]);
  }

  lemma {:induction false} GrowsAlong(states: seq<Tcb>, i: nat, k: nat)
    requires i <= k < |states|
    requires forall j {:trigger states[j]} | 0 < j < |states| :: Grows(states[j - 1].snd, states[j].snd)
    ensures Grows(states[i].snd, states[k].snd)
    decreases k
  {
    if i < k {
      GrowsAlong(states, i, k - 1);
      assert Grows(states[k - 1].snd, states[k].snd);
    }
  }

  /** Over every stretch of a run nothing is taken back. */
  lemma RunGrows(r: Run, i: nat, k: nat)
    requires IsRun(r) && i <= k < |r.states|
    ensures Grows(r.states[i].snd, r.states[k].snd)
  {
    forall j | 0 < j < |r.states|
      ensures Grows(r.states[j - 1].snd, r.states[j].snd)
    {
      FollowsGrows(r, j);
    }
    GrowsAlong(r.states, i, k);
  }

  // ----------------------------------------------------------------- theorems

  predicate Conserved(s: Sender) {
    var base := |s.sent| - Len(s.Queue());
    && 0 <= base <= s.acked <= |s.sent|
    && s.sent == s.sent[..base] + Stream(s.Queue())
    && s.una == Wrap(s.iss + s.acked) && s.nxt == Wrap(s.iss + |s.sent|)
    && Sub(s.nxt, s.una) == |s.sent| - s.acked
    && (s.Queue() == [] ==> s.acked == |s.sent|)
    && Reaches(s.Queue(), s.acked - base)
  }

  lemma TiledConserves(s: Sender)
    requires Tiled(s)
    ensures Conserved(s)
  {
    TilesStream(s.Queue(), s.iss, |s.sent| - Len(s.Queue()), s.sent);
    SubWrap(s.iss + |s.sent|, s.iss + s.acked);
    WrapCase(|s.sent| - s.acked, 0);
  }

  /** Send conservation: at every point of every run, what was sent is what has been
      acknowledged and dropped, followed by what is in flight, followed by what is
      pending; the numbers count it, across any number of wraps. */
  lemma SendConservation(r: Run, k: nat)
    requires IsRun(r) && k < |r.states| && r.states[k].life == Alive
    ensures Conserved(r.states[k].snd)
  {
    RunGood(r, k);
    TiledConserves(r.states[k].snd);
  }

  /** Whatever Output puts on the wire, for the first time or again, is the octets of
      its place. */
  lemma SegmentsCarryTheStream(r: Run, k: nat, i: nat)
    requires IsRun(r) && k < |r.states| && r.states[k].life == Alive && i < |r.states[k].snd.Queue()|
    ensures var s := r.states[k].snd; Carries(s.Queue()[i], s.iss, s.sent, |s.sent| - Len(s.Queue()[i..]))
  {
    RunGood(r, k);
    var s := r.states[k].snd;
    TilesAt(s.Queue(), s.iss, |s.sent| - Len(s.Queue()), s.sent, i);
  }

  /** The retransmit timer is never lost. */
  lemma TimerNeverLost(r: Run, k: nat)
    requires IsRun(r) && k < |r.states| && r.states[k].life == Alive && r.states[k].snd.unacked != []
    ensures r.states[k].timers.retransmit != 0 && r.states[k].timers.armed
  {
    RunGood(r, k);
  }

  /** What the closing states mean. */
  predicate SaysWhatItMeans(t: Tcb) {
    var s := t.snd;
    && Shaped(s.sent, FinSent(t.state)) && (Fin in s.sent <==> FinSent(t.state))
    && (t.state.FinWait2? || t.state.TimeWait? ==>
          Fin in s.sent && s.una == s.nxt && s.acked == |s.sent| && s.unacked == [] && s.pending == [])
    && (t.state.Closing? || t.state.LastAck? || t.state.TimeWait? || t.state.CloseWait? ==> t.rcv.finIn)
  }

  lemma GoodMeans(t: Tcb)
    requires Good(t) && t.life == Alive
    ensures SaysWhatItMeans(t)
  {
    if FinSent(t.state) {
      assert t.snd.sent[|t.snd.sent| - 1] == Fin;
    }
    assert |t.snd.Queue()| == |t.snd.unacked| + |t.snd.pending|;
  }

  lemma TeardownMeaning(r: Run, k: nat)
    requires IsRun(r) && k < |r.states| && r.states[k].life == Alive
    ensures SaysWhatItMeans(r.states[k])
  {
    RunGood(r, k);
    GoodMeans(r.states[k]);
  }

  /** A connection that ended leaves no segment and no timer behind. */
  lemma NothingLeftBehind(r: Run, k: nat)
    requires IsRun(r) && k < |r.states| && r.states[k].life == Destroyed
    ensures var t := r.states[k]; t.snd.unacked == [] && t.snd.pending == [] && t.timers == NoTimers()
  {
    var t := r.states[k];
    RunGood(r, k);
    assert |t.snd.Queue()| == |t.snd.unacked| + |t.snd.pending|;
  }
}
