/** What an arrival does, told in positions of the stream: what it acknowledges, whether
    its window is taken, what it delivers, and where it takes the connection. */
module TcpInput {
  import opened TcpSeq
  import opened Tcp
  import opened TcpQueue
  import opened TcpProofs
  import opened TcpOutput

  /** The position that an acknowledgement number stands for. */
  function AckAt(s: Sender, ackno: nat): nat {
    s.acked + Sub(ackno, s.una)
  }

  /** An arrival whose acknowledgement is looked at. */
  predicate Speaks(t: Tcb, a: Arrival) {
    GEQ(a.seqno, t.rcv.nxt) && a.ack && !a.syn && !a.rst
  }

  predicate Connected(s: State) {
    s.SynReceived? || s.Established? || s.FinWait1? || s.FinWait2? || s.CloseWait? || s.Closing?
  }

  /** An arrival that acknowledges something sent, and not less than before; while our SYN
      is unanswered, more. */
  predicate Acceptable(t: Tcb, a: Arrival) {
    Speaks(t, a) && Connected(t.state) && AckAt(t.snd, a.ackno) <= |t.snd.sent|
    && (t.state.SynReceived? ==> AckAt(t.snd, a.ackno) > t.snd.acked)
  }

  /** The answer to our SYN. */
  predicate Answers(t: Tcb, a: Arrival) {
    t.state.SynSent? && a.syn && a.ack && !a.rst && a.TcpLen() <= 1
    && t.snd.acked < AckAt(t.snd, a.ackno) <= |t.snd.sent|
  }

  // ------------------------------------------------------------- acknowledgement numbers

  lemma AfterNext(s: Sender, ackno: nat)
    requires Tiled(s) && ackno < M && s.acked < |s.sent|
    ensures Between(ackno, Wrap(s.una + 1), s.nxt) <==> s.acked < AckAt(s, ackno) <= |s.sent|
  {
    var left, right := s.iss + s.acked + 1, s.iss + |s.sent|;
    SubWrap(s.iss + s.acked, 1);
    BetweenMeaning(ackno, left, right);
    BetweenMeaning(ackno, left - 1, right);
    var x, y := left + Sub(ackno, Wrap(left)), left - 1 + Sub(ackno, s.una);
    if y == left - 1 {
      if x <= right { PositionUnique(x, y); }
    } else {
      PositionUnique(x, y);
    }
  }

  /** The signed tests of the answer to a SYN are the same range. */
  lemma AnswerRange(s: Sender, ackno: nat)
    requires Tiled(s) && ackno < M
    ensures !LEQ(ackno, s.una) && !GT(ackno, s.nxt) <==> s.acked < AckAt(s, ackno) <= |s.sent|
  {
    AckPosition(s, ackno);
    if Sub(ackno, s.una) < H {
      CompareMeaning(s.iss + AckAt(s, ackno), s.iss + |s.sent|);
    }
  }

  /** A number beyond all that was sent, or one of long ago. */
  lemma TooHigh(s: Sender, ackno: nat)
    requires Tiled(s) && ackno < M && AckAt(s, ackno) <= |s.sent|
    ensures Between(ackno, s.una, s.nxt) && (ackno == s.nxt <==> AckAt(s, ackno) == |s.sent|)
  {
    AckPosition(s, ackno);
    if ackno == s.nxt { PositionUnique(s.iss + AckAt(s, ackno), s.iss + |s.sent|); }
  }

  // ------------------------------------------------------------------------ what is heard

  lemma JustBehind(x: nat, n: nat)
    requires x < M && n < M
    ensures Between(x, Wrap(x + 1), n) <==> n == x
  {
    SubWrap(n, x + 1);
    SubWrap(x, x + 1);
    WrapCase(-1, -1);
    WrapCase(n, 0);
    WrapCase(x, 0);
    WrapCase(n - x - 1, if n <= x then -1 else 0);
  }

  /** Whether the window of an acceptable arrival is taken: when it acknowledges all that
      was sent, or is not older than the one the window was last taken from. */
  predicate WindowTaken(t: Tcb, a: Arrival) {
    Acceptable(t, a)
    && (t.state.SynReceived? || AckAt(t.snd, a.ackno) == |t.snd.sent|
        || LT(t.snd.wl1, a.seqno) || (t.snd.wl1 == a.seqno && LEQ(t.snd.wl2, a.ackno)))
  }

  lemma NewsIff(s: Sender, a: Arrival)
    requires Tiled(s) && a.ackno < M && AckAt(s, a.ackno) <= |s.sent|
    ensures WindowNews(TakeAck(s, a.ackno), a) <==>
      AckAt(s, a.ackno) == |s.sent| || LT(s.wl1, a.seqno) || (s.wl1 == a.seqno && LEQ(s.wl2, a.ackno))
  {
    TooHigh(s, a.ackno);
    JustBehind(a.ackno, s.nxt);
  }

  lemma AckConnectedHears(t: Tcb, a: Arrival, now: nat, up: Upcalls)
    requires Tiled(t.snd) && WellFormed(a)
    ensures SameHeard(if AckAt(t.snd, a.ackno) <= |t.snd.sent| then TakeAckAndWindow(t.snd, a) else t.snd,
                      AckConnected(t, a, now, up).t.snd)
  {
    AckPosition(t.snd, a.ackno);
    UserStepsHeard(ClearAcked(t.(snd := TakeAckAndWindow(t.snd, a)), a.ackno), up.window);
  }

  /** The peer's window, taken from this arrival or as it was. */
  predicate WindowIs(s: Sender, a: Arrival, taken: bool, r: Sender) {
    if taken then r.wnd == a.wnd * 128 && r.wl1 == a.seqno && r.wl2 == a.ackno
    else r.wnd == s.wnd && r.wl1 == s.wl1 && r.wl2 == s.wl2
  }

  /** What has been acknowledged and how large the peer's window is after an arrival. */
  predicate Hears(t: Tcb, a: Arrival, r: Tcb) {
    if t.state.SynSent? then
      r.snd.acked == (if Answers(t, a) then AckAt(t.snd, a.ackno) else t.snd.acked)
      && WindowIs(t.snd, a, Answers(t, a), r.snd)
    else
      r.snd.acked == (if Acceptable(t, a) then AckAt(t.snd, a.ackno) else t.snd.acked)
      && WindowIs(t.snd, a, WindowTaken(t, a), r.snd)
  }

  lemma SynReceivedHears(t: Tcb, a: Arrival, now: nat, up: Upcalls)
    requires Good(t) && t.life == Alive && WellFormed(a) && t.state == SynReceived && Speaks(t, a)
    ensures Hears(t, a, AckPhase(t, a, now, up).t)
  {
    AfterNext(t.snd, a.ackno);
    var e := t.(state := Established, snd := TakeWindow(t.snd, a));
    if Acceptable(t, a) {
      EstablishedKeeps(t, a);
      AckConnectedHears(e, a, now, up);
      assert AckAt(e.snd, a.ackno) == AckAt(t.snd, a.ackno);
    }
  }

  lemma AckHears(t: Tcb, a: Arrival, now: nat, up: Upcalls)
    requires Good(t) && t.life == Alive && WellFormed(a) && t.state != SynSent
    ensures Hears(t, a, AckPhase(t, a, now, up).t)
  {
    if Speaks(t, a) {
      if t.state == SynReceived {
        SynReceivedHears(t, a, now, up);
      } else if Connected(t.state) {
        AckConnectedHears(t, a, now, up);
        if Acceptable(t, a) { NewsIff(t.snd, a); }
      }
    }
  }

  lemma AnswerHears(t: Tcb, a: Arrival, up: Upcalls)
    requires Good(t) && t.life == Alive && WellFormed(a) && t.state == SynSent
    ensures Hears(t, a, AnswerToSyn(t, a, up))
  {
    AnswerRange(t.snd, a.ackno);
    UserStepsHeard(Answered(SynTaken(t, a), a), up.connected);
  }

  lemma ReceiveHears(t: Tcb, a: Arrival, now: nat, up: Upcalls)
    requires Good(t) && t.life == Alive && WellFormed(a)
    ensures Hears(t, a, Receive(t, a, now, up))
  {
    if t.state == SynSent {
      AnswerHears(t, a, up);
    } else {
      AckHears(t, a, now, up);
      SeqHeard(AckPhase(t, a, now, up).t, a, now, up);
    }
  }

  lemma InputHears(t: Tcb, a: Arrival, now: nat, up: Upcalls)
    requires Good(t) && t.life == Alive && WellFormed(a)
    ensures Hears(t, a, InputStep(t, a, now, up))
  {
    ReceiveHears(t, a, now, up);
    PushHeard(Receive(t, a, now, up), now);
  }

  // ---------------------------------------------------------- what the application does

  /** Letting go of the pcb is among these actions. */
  predicate Closes(us: seq<User>) {
    exists u | u in us :: u.Close?
  }

  /** The receive window after these actions; nothing counts after letting go. */
  function WindowAfter(us: seq<User>, wnd: nat): (r: nat)
    ensures r == wnd || r == TCP_WND
  {
    if us == [] || us[0].Close? then wnd
    else WindowAfter(us[1..], if us[0].OpenWindow? then TCP_WND else wnd)
  }

  /** Where a close takes the connection. */
  function ByClose(s: State): State {
    match s
    case CloseWait => LastAck
    case SynReceived | Established => FinWait1
    case _ => s
  }

  /** The state after these actions. */
  function Released(s: State, us: seq<User>): State {
    if Held(s) && Closes(us) then ByClose(s) else s
  }

  predicate Lost(t: Tcb) {
    t.life == Halted || t.life == Overrun
  }

  /** What has arrived stays as it is, and what the peer has been told stays told. */
  predicate Kept(r: Receiver, r': Receiver) {
    SameArrived(r, r') && r.told <= r'.told
  }

  lemma PushKept(t: Tcb, now: nat)
    requires t.life == Alive
    ensures var p := Push(t, now);
      (p.life == Alive || p.life == Halted) && p.state == t.state && Kept(t.rcv, p.rcv) && p.rcv.wnd == t.rcv.wnd
  {
    OutputMoves(t, now);
  }

  lemma UserStepMoves(t: Tcb, u: User)
    requires t.life == Alive
    ensures var r := UserStep(t, u);
      && (r.life == Alive || Lost(r)) && (r.life == Alive ==> Kept(t.rcv, r.rcv))
      && (r.life == Alive ==> r.state == if Held(t.state) && u.Close? then ByClose(t.state) else t.state)
      && (r.life == Alive ==> r.rcv.wnd == if Held(t.state) && u.OpenWindow? then TCP_WND else t.rcv.wnd)
  {
    if u.Output? {
      PushKept(t, u.now);
    } else if u.Close? && Held(t.state) && CloseStep(t).life == Alive {
      PushKept(CloseStep(t), u.now);
    }
  }

  /** The application can only let go of its pcb, once; where that takes the connection,
      and that nothing else it does changes the state or what has arrived. */
  lemma {:induction false} UserStepsMove(t: Tcb, us: seq<User>)
    requires t.life == Alive
    ensures var r := UserSteps(t, us);
      && (r.life == Alive || Lost(r)) && (r.life == Alive ==> Kept(t.rcv, r.rcv))
      && (r.life == Alive ==> r.state == Released(t.state, us))
      && (r.life == Alive ==> r.rcv.wnd == if Held(t.state) then WindowAfter(us, t.rcv.wnd) else t.rcv.wnd)
    decreases |us|
  {
    if us != [] {
      var u := UserStep(t, us[0]);
      UserStepMoves(t, us[0]);
      assert Closes(us) <==> us[0].Close? || Closes(us[1..]);
      if u.life == Alive {
        UserStepsMove(u, us[1..]);
      } else {
        Over(u, us[1..]);
      }
    }
  }

  lemma {:induction false} Over(t: Tcb, us: seq<User>)
    requires t.life != Alive
    ensures UserSteps(t, us) == t
    decreases |us|
  {
    if us != [] { Over(t, us[1..]); }
  }

  // ------------------------------------------------------------------- where it leads

  /** Where an acknowledgement takes the connection. */
  function ByAck(t: Tcb, a: Arrival): State {
    if !Acceptable(t, a) then t.state
    else if t.state.SynReceived? then Established
    else if AckAt(t.snd, a.ackno) == |t.snd.sent| && t.state.FinWait1? then FinWait2
    else if AckAt(t.snd, a.ackno) == |t.snd.sent| && t.state.Closing? then TimeWait
    else t.state
  }

  /** Where a FIN takes the connection. */
  function ByFin(s: State): State {
    match s
    case Established | SynReceived => CloseWait
    case FinWait1 => Closing
    case FinWait2 => TimeWait
    case _ => s
  }

  /** The application is told about a FIN that closes the connection from the other side. */
  function AfterFinOf(s: State, us: seq<User>): State {
    if ByFin(s).CloseWait? && !s.CloseWait? then Released(CloseWait, us) else ByFin(s)
  }

  /** Acknowledges what was never sent. */
  predicate Beyond(t: Tcb, a: Arrival) {
    |t.snd.sent| < AckAt(t.snd, a.ackno) < |t.snd.sent| + H
  }

  /** The last of our octets, the FIN, is acknowledged and the peer's FIN has come. */
  predicate LastAcked(t: Tcb, a: Arrival) {
    t.state.LastAck? && Speaks(t, a) && a.ackno == t.snd.nxt
  }

  /** Arrivals of which nothing is taken in because of what they acknowledge. */
  predicate Refused(t: Tcb, a: Arrival) {
    Speaks(t, a) && Connected(t.state)
    && (if t.state.SynReceived? then !Acceptable(t, a) else Beyond(t, a))
  }

  /** The application is told about the send window. */
  predicate Told(t: Tcb, a: Arrival) {
    Acceptable(t, a) && t.notify
  }

  /** The receive window after that, */
  function WindowNow(t: Tcb, a: Arrival, up: Upcalls): nat {
    if Told(t, a) && Held(t.state) then WindowAfter(up.window, t.rcv.wnd) else t.rcv.wnd
  }

  /** and the state. */
  function StateNow(t: Tcb, a: Arrival, up: Upcalls): State {
    if Told(t, a) then Released(ByAck(t, a), up.window) else ByAck(t, a)
  }

  lemma BeyondIff(s: Sender, ackno: nat)
    requires Tiled(s) && ackno < M && AckAt(s, ackno) > |s.sent|
    ensures !Between(ackno, s.una, s.nxt) && (GT(ackno, s.nxt) <==> AckAt(s, ackno) < |s.sent| + H)
  {
    AckPosition(s, ackno);
    SubWrap(s.iss + AckAt(s, ackno), s.iss + |s.sent|);
    WrapCase(AckAt(s, ackno) - |s.sent|, 0);
  }

  /** What the acknowledgement leads to. */
  predicate AckLeads(t: Tcb, a: Arrival, up: Upcalls, p: Progress) {
    if Refused(t, a) then
      p.Stop? && p.t.life == Alive && p.t.state == t.state && Kept(t.rcv, p.t.rcv)
      && (Beyond(t, a) && !t.state.SynReceived? ==> |t.rcv.told| < |p.t.rcv.told|)
    else if LastAcked(t, a) then p.Stop? && p.t.life == Destroyed
    else p.Go? && ((Lost(p.t) && up.window != [])
                   || (p.t.life == Alive && p.t.state == StateNow(t, a, up) && Kept(t.rcv, p.t.rcv)
                       && p.t.rcv.wnd == WindowNow(t, a, up)
                       && (up.window == [] && t.snd.pending == [] ==> p.t.snd.pending == [])))
  }

  lemma AcknowledgeLeads(t: Tcb, a: Arrival, up: Upcalls)
    requires t.life == Alive
    ensures var r := Acknowledge(t, a, up);
      (Lost(r) && up.window != [])
      || (r.life == Alive && r.state == (if t.notify then Released(t.state, up.window) else t.state) && Kept(t.rcv, r.rcv)
          && r.rcv.wnd == (if t.notify && Held(t.state) then WindowAfter(up.window, t.rcv.wnd) else t.rcv.wnd)
          && (up.window == [] && t.snd.pending == [] ==> r.snd.pending == []))
  {
    UserStepsMove(ClearAcked(t.(snd := TakeAckAndWindow(t.snd, a)), a.ackno), up.window);
  }

  lemma {:induction false} Idle(t: Tcb, us: seq<User>)
    requires !Held(t.state)
    ensures UserSteps(t, us) == t
    decreases |us|
  {
    if us != [] { Idle(t, us[1..]); }
  }

  lemma SameNumbers(t: Tcb, a: Arrival, up: Upcalls)
    requires t.life == Alive && !Held(t.state)
    ensures Acknowledge(t, a, up).snd.nxt == t.snd.nxt
  {
    Idle(ClearAcked(t.(snd := TakeAckAndWindow(t.snd, a)), a.ackno), up.window);
  }

  lemma NoFinYet(s: Sender, r: Sender)
    requires Shaped(s.sent, false) && Shaped(r.sent, true) && s.sent <= r.sent
    ensures |s.sent| < |r.sent|
  {
    assert r.sent[|r.sent| - 1] == Fin && s.sent[|s.sent| - 1] != Fin;
  }

  /** An arrival that makes the application let go does not acknowledge its FIN. */
  lemma FinIsLater(t: Tcb, a: Arrival, up: Upcalls)
    requires Good(t) && t.life == Alive && WellFormed(a) && Acceptable(t, a) && t.state == Established
    requires Acknowledge(t, a, up).life == Alive && Acknowledge(t, a, up).state == FinWait1
    ensures a.ackno != Acknowledge(t, a, up).snd.nxt
  {
    var c, r := ClearAcked(t.(snd := TakeAckAndWindow(t.snd, a)), a.ackno), Acknowledge(t, a, up);
    TooHigh(t.snd, a.ackno);
    AcknowledgeKeeps(t, a, up);
    UserStepsHeard(c, up.window);
    UserStepsGrow(c, up.window);
    NoFinYet(t.snd, r.snd);
    if a.ackno == r.snd.nxt { AllAcked(r); }
  }

  lemma AcceptableLeads(t: Tcb, a: Arrival, now: nat, up: Upcalls)
    requires Good(t) && t.life == Alive && WellFormed(a) && Acceptable(t, a) && t.state != SynReceived
    ensures AckLeads(t, a, up, AckConnected(t, a, now, up))
  {
    var r := Acknowledge(t, a, up);
    TooHigh(t.snd, a.ackno);
    AcknowledgeLeads(t, a, up);
    if !Held(t.state) {
      SameNumbers(t, a, up);
    } else if r.life == Alive && r.state == FinWait1 {
      FinIsLater(t, a, up);
    }
  }

  lemma AckConnectedLeads(t: Tcb, a: Arrival, now: nat, up: Upcalls)
    requires Good(t) && t.life == Alive && WellFormed(a)
    requires Connected(t.state) && t.state != SynReceived && Speaks(t, a)
    ensures AckLeads(t, a, up, AckConnected(t, a, now, up))
  {
    if Acceptable(t, a) {
      AcceptableLeads(t, a, now, up);
    } else {
      BeyondIff(t.snd, a.ackno);
      assert a.ackno != t.snd.nxt by { AckPosition(t.snd, a.ackno); }
    }
  }

  lemma SynReceivedLeads(t: Tcb, a: Arrival, now: nat, up: Upcalls)
    requires Good(t) && t.life == Alive && WellFormed(a) && t.state == SynReceived && Speaks(t, a)
    ensures AckLeads(t, a, up, AckPhase(t, a, now, up))
  {
    AfterNext(t.snd, a.ackno);
    if Acceptable(t, a) {
      var e := t.(state := Established, snd := TakeWindow(t.snd, a));
      EstablishedKeeps(t, a);
      assert AckAt(e.snd, a.ackno) == AckAt(t.snd, a.ackno) && Acceptable(e, a);
      AckConnectedLeads(e, a, now, up);
    }
  }

  lemma AckPhaseLeads(t: Tcb, a: Arrival, now: nat, up: Upcalls)
    requires Good(t) && t.life == Alive && WellFormed(a) && t.state != SynSent
    ensures AckLeads(t, a, up, AckPhase(t, a, now, up))
  {
    if Speaks(t, a) {
      if t.state == SynReceived {
        SynReceivedLeads(t, a, now, up);
      } else if Connected(t.state) {
        AckConnectedLeads(t, a, now, up);
      }
    }
  }

  // --------------------------------------------------------------------- what is taken in

  /** How far an arrival starts behind the next byte expected. */
  function Offset(r: Receiver, a: Arrival): nat {
    Sub(a.seqno, r.nxt)
  }

  /** The window test in offsets. A non-empty window admits an arrival that starts at its
      edge, one number further than the window reaches. */
  predicate Inside(wnd: nat, offset: nat, len: nat) {
    (wnd > 0 && offset <= wnd) || (len == 0 && offset == 0)
  }

  lemma InWindowIff(r: Receiver, a: Arrival)
    requires r.nxt < M && a.seqno < M && r.wnd < M
    ensures InWindow(r, a) <==> Inside(r.wnd, Offset(r, a), a.TcpLen())
  {
    SubWrap(r.nxt + r.wnd, r.nxt);
    WrapCase(r.nxt, 0);
    WrapCase(r.wnd, 0);
    WrapCase(a.seqno - r.nxt, if a.seqno < r.nxt then -1 else 0);
  }

  function Next(r: Receiver, a: Arrival): seq<nat> {
    Drained(r.stash, r.nxt + |a.payload|)
  }

  /** Data that goes to the application now. */
  predicate TakesData(s: State, r: Receiver, a: Arrival) {
    s.Established? && a.payload != [] && !GT(a.seqno, r.nxt)
  }

  /** Data that is kept for later. */
  predicate KeepsData(s: State, r: Receiver, a: Arrival) {
    s.Established? && a.payload != [] && GT(a.seqno, r.nxt)
  }

  /** The window does not hold what would go to the application. */
  predicate CutShort(s: State, r: Receiver, a: Arrival) {
    TakesData(s, r, a) && |a.payload| + |Next(r, a)| > r.wnd
  }

  /** What a receiver r in state s is after taking in this arrival. */
  predicate Takes(s: State, r: Receiver, a: Arrival, r': Receiver) {
    && (if TakesData(s, r, a) then
          r.given <= r'.given
          && (!CutShort(s, r, a) ==> r'.given == r.given + (a.payload + Next(r, a)))
          && (CutShort(s, r, a) ==> |r'.given| == |r.given| + r.wnd)
        else r'.given == r.given && r'.stash == r.stash)
    && r'.finIn == (r.finIn || a.fin)
    && (a.fin ==> r'.nxt == Wrap(a.seqno + |a.payload| + if CutShort(s, r, a) then 0 else 1))
    && (!a.fin ==> r'.nxt == if TakesData(s, r, a) then Wrap(r.nxt + |r'.given| - |r.given|) else r.nxt)
  }

  /** The data of an arrival is refused because the application has let go. */
  predicate TooLate(s: State, a: Arrival) {
    a.payload != [] && (s.FinWait1? || s.FinWait2?)
  }

  /** The state after data and FIN have been taken in. */
  function StateThen(s: State, r: Receiver, a: Arrival, up: Upcalls): State {
    var d := if TakesData(s, r, a) then Released(s, up.data) else s;
    if a.fin then AfterFinOf(d, up.close) else d
  }

  /** What an arrival that is looked at leads to. */
  predicate SeqLeads(t: Tcb, a: Arrival, up: Upcalls, r: Tcb) {
    if !InWindow(t.rcv, a) || (!a.rst && !a.syn && !a.ack) then
      r.life == Alive && r.state == t.state && Kept(t.rcv, r.rcv) && r.rcv.wnd == t.rcv.wnd
      && (!InWindow(t.rcv, a) && t.snd.pending == [] && !a.rst ==> r.rcv.told == t.rcv.told + [t.rcv.nxt])
    else if a.rst || a.syn || (!a.urg && TooLate(t.state, a)) then r.life == Destroyed
    else if a.urg || (TakesData(t.state, t.rcv, a) && |Next(t.rcv, a)| > t.rcv.wnd) then r.life == Halted
    else if KeepsData(t.state, t.rcv, a) then
      r.life == Alive && r.state == t.state
      && r.rcv == SendEmptyAck(t.rcv.(stash := Stash(t.rcv.stash, Stashed(a.seqno, a.payload))))
    else
      (Lost(r) && (up.data != [] || up.close != []))
      || (r.life == Alive && r.state == StateThen(t.state, t.rcv, a, up) && Takes(t.state, t.rcv, a, r.rcv))
  }

  lemma TakenGives(r: Receiver, a: Arrival)
    requires |Next(r, a)| <= r.wnd
    ensures var r' := Take(r, a.payload);
      && r.given <= r'.given && r'.finIn == r.finIn && r'.nxt == Wrap(r.nxt + |r'.given| - |r.given|)
      && (|a.payload| + |Next(r, a)| <= r.wnd ==> r'.given == r.given + (a.payload + Next(r, a)))
      && (|a.payload| + |Next(r, a)| > r.wnd ==> |r'.given| == |r.given| + r.wnd)
  {
  }

  lemma FinLeads(t: Tcb, a: Arrival, len: nat, now: nat, up: Upcalls)
    requires t.life == Alive
    ensures var r := FinPhase(t, a, len, now, up);
      (Lost(r) && up.close != [])
      || (r.life == Alive && r.state == (if a.fin then AfterFinOf(t.state, up.close) else t.state)
          && r.rcv.given == t.rcv.given && r.rcv.stash == t.rcv.stash && r.rcv.finIn == (t.rcv.finIn || a.fin)
          && (if a.fin then r.rcv.nxt == Wrap(a.seqno + len) else r == t))
  {
    if a.fin && (t.state == Established || t.state == SynReceived) {
      UserStepsMove(t.(rcv := t.rcv.(nxt := Wrap(a.seqno + len), finIn := true), state := CloseWait), up.close);
    }
  }

  lemma DataLeads(t: Tcb, a: Arrival, up: Upcalls)
    requires t.life == Alive && TakesData(t.state, t.rcv, a) && |Next(t.rcv, a)| <= t.rcv.wnd
    ensures var p := PayloadPhase(t, a, up);
      p.Go? && ((Lost(p.t) && up.data != [])
                || (p.t.life == Alive && p.t.state == Released(t.state, up.data)
                    && Takes(t.state, t.rcv, a.(fin := false), p.t.rcv)))
  {
    TakenGives(t.rcv, a);
    UserStepsMove(t.(rcv := Take(t.rcv, a.payload)), up.data);
  }

  lemma FinAfterLost(t: Tcb, a: Arrival, len: nat, now: nat, up: Upcalls)
    requires Lost(t)
    ensures FinPhase(t, a, len, now, up) == t
  {
  }

  /** The data, then the FIN. */
  lemma TakeInLeads(t: Tcb, a: Arrival, now: nat, up: Upcalls)
    requires t.life == Alive
    requires !TooLate(t.state, a) && !KeepsData(t.state, t.rcv, a)
    requires TakesData(t.state, t.rcv, a) ==> |Next(t.rcv, a)| <= t.rcv.wnd
    ensures var r := TakeIn(t, a, now, up);
      (Lost(r) && (up.data != [] || up.close != []))
      || (r.life == Alive && r.state == StateThen(t.state, t.rcv, a, up) && Takes(t.state, t.rcv, a, r.rcv))
  {
    var len := if Cut(t, a) && a.fin then a.TcpLen() - 1 else a.TcpLen();
    if TakesData(t.state, t.rcv, a) {
      DataLeads(t, a, up);
    }
    var p := PayloadPhase(t, a, up);
    assert p.Go?;
    if p.t.life == Alive {
      FinLeads(p.t, a, len, now, up);
    } else {
      FinAfterLost(p.t, a, len, now, up);
    }
  }

  lemma SeqPhaseLeads(t: Tcb, a: Arrival, now: nat, up: Upcalls)
    requires t.life == Alive
    ensures SeqLeads(t, a, up, SeqPhase(t, a, now, up))
  {
    if InWindow(t.rcv, a) && !a.rst && !a.syn && a.ack && !a.urg && !TooLate(t.state, a)
       && !KeepsData(t.state, t.rcv, a) && (TakesData(t.state, t.rcv, a) ==> |Next(t.rcv, a)| <= t.rcv.wnd)
    {
      TakeInLeads(t, a, now, up);
    }
  }

  // -------------------------------------------------------------------------- all together

  /** Output has nothing in flight and nothing that fits. */
  predicate Stuck(t: Tcb) {
    t.life == Halted && t.snd.pending != [] && t.snd.unacked == []
  }

  lemma PushLeads(t: Tcb, now: nat)
    requires t.life == Alive
    ensures var p := Push(t, now);
      Stuck(p) || (p.life == Alive && p.state == t.state && Kept(t.rcv, p.rcv) && p.rcv.wnd == t.rcv.wnd)
  {
    OutputMoves(t, now);
  }

  /** The machine stopped for another reason than the arrival: Output is stuck, or the
      application did something that is not implemented. */
  predicate Elsewhere(up: Upcalls, r: Tcb) {
    Stuck(r) || (Lost(r) && up != Upcalls([], [], [], []))
  }

  /** The receiver is as it was, but for what the application says about its window. */
  predicate Untouched(t: Tcb, s: State, r: Tcb) {
    r.life == Alive && r.state == s && Kept(t.rcv, r.rcv)
  }

  /** The answer to a SYN, and what is not one. */
  predicate AnswerDecides(t: Tcb, a: Arrival, up: Upcalls, r: Tcb) {
    var inRange := t.snd.acked < AckAt(t.snd, a.ackno) <= |t.snd.sent|;
    if (a.ack && !inRange && !a.rst) || (a.ack && inRange && a.rst) then r.life == Destroyed
    else if !a.rst && a.syn then
      if Answers(t, a) then
        Elsewhere(up, r)
        || (r.life == Alive && r.state == Released(Established, up.connected) && r.rcv.nxt == Wrap(a.seqno + 1)
            && r.rcv.given == t.rcv.given && r.rcv.finIn == t.rcv.finIn)
      else r.life == Halted
    else Elsewhere(up, r) || Untouched(t, SynSent, r)
  }

  /** What an arrival decides: whether the connection ends, where it goes on, and what the
      application is given. */
  predicate Decides(t: Tcb, a: Arrival, up: Upcalls, r: Tcb) {
    var s, rcv := StateNow(t, a, up), t.rcv.(wnd := WindowNow(t, a, up));
    if t.state.SynSent? then AnswerDecides(t, a, up, r)
    else if LastAcked(t, a) then r.life == Destroyed
    else if Refused(t, a) then
      Elsewhere(up, r)
      || (Untouched(t, t.state, r) && (!t.state.SynReceived? ==> |t.rcv.told| < |r.rcv.told|))
    else if !Inside(rcv.wnd, Offset(rcv, a), a.TcpLen()) || (!a.rst && !a.syn && !a.ack) then
      Elsewhere(up, r)
      || (Untouched(t, s, r)
          && (up == Upcalls([], [], [], []) && t.snd.pending == [] && !a.rst && (a.ack || a.syn) ==>
                |t.rcv.told| < |r.rcv.told|))
    else if a.rst || a.syn || (!a.urg && TooLate(s, a)) then r.life == Destroyed || Elsewhere(up, r)
    else if a.urg || (TakesData(s, rcv, a) && |Next(rcv, a)| > rcv.wnd) then Lost(r)
    else if KeepsData(s, rcv, a) then
      Elsewhere(up, r)
      || (r.life == Alive && r.state == s && r.rcv.stash == Stash(t.rcv.stash, Stashed(a.seqno, a.payload))
          && r.rcv.given == t.rcv.given && r.rcv.nxt == t.rcv.nxt && r.rcv.finIn == t.rcv.finIn
          && |t.rcv.told| < |r.rcv.told|)
    else
      Elsewhere(up, r)
      || (r.life == Alive && r.state == StateThen(s, rcv, a, up) && Takes(s, rcv, a, r.rcv))
  }

  lemma WindowAlike(t: Tcb, a: Arrival, up: Upcalls, p: Tcb)
    requires Good(t) && t.life == Alive && WellFormed(a)
    requires SameArrived(t.rcv, p.rcv) && p.rcv.wnd == WindowNow(t, a, up)
    ensures InWindow(p.rcv, a) <==> Inside(WindowNow(t, a, up), Offset(t.rcv, a), a.TcpLen())
  {
    InWindowIff(p.rcv, a);
  }

  /** From the state after the acknowledgement. */
  lemma SeqDecides(t: Tcb, a: Arrival, up: Upcalls, p: Tcb, r: Tcb)
    requires t.state != SynSent && !Refused(t, a) && !LastAcked(t, a) && p.life == Alive && p.state == StateNow(t, a, up)
    requires Kept(t.rcv, p.rcv) && p.rcv.wnd == WindowNow(t, a, up)
    requires up.window == [] && t.snd.pending == [] ==> p.snd.pending == []
    requires InWindow(p.rcv, a) <==> Inside(WindowNow(t, a, up), Offset(t.rcv, a), a.TcpLen())
    requires SeqLeads(p, a, up, r)
    ensures Decides(t, a, up, r)
  {
    var s, rcv := StateNow(t, a, up), t.rcv.(wnd := WindowNow(t, a, up));
    assert Next(rcv, a) == Next(p.rcv, a);
    assert TakesData(s, rcv, a) == TakesData(s, p.rcv, a) && KeepsData(s, rcv, a) == KeepsData(s, p.rcv, a);
    assert Takes(s, p.rcv, a, r.rcv) ==> Takes(s, rcv, a, r.rcv);
  }

  /** Output and SetTimer decide nothing any more. */
  lemma PushDecides(t: Tcb, a: Arrival, up: Upcalls, r: Tcb, p: Tcb)
    requires Decides(t, a, up, r) && r.life == Alive
    requires Stuck(p) || (p.life == Alive && p.state == r.state && Kept(r.rcv, p.rcv) && p.rcv.wnd == r.rcv.wnd)
    ensures Decides(t, a, up, p)
  {
  }

  lemma AckDecides(t: Tcb, a: Arrival, up: Upcalls, p: Progress)
    requires t.state != SynSent && AckLeads(t, a, up, p) && (p.Stop? || p.t.life != Alive)
    ensures Decides(t, a, up, p.t)
  {
  }

  lemma AnswerLeads(t: Tcb, a: Arrival, up: Upcalls)
    requires Good(t) && t.life == Alive && WellFormed(a) && t.state == SynSent
    ensures AnswerDecides(t, a, up, AnswerToSyn(t, a, up))
  {
    AnswerRange(t.snd, a.ackno);
    if Answers(t, a) {
      UserStepsMove(Answered(SynTaken(t, a), a), up.connected);
    }
  }

  lemma ReceiveDecides(t: Tcb, a: Arrival, now: nat, up: Upcalls)
    requires Good(t) && t.life == Alive && WellFormed(a) && t.state != SynSent
    ensures Decides(t, a, up, Receive(t, a, now, up))
  {
    var p := AckPhase(t, a, now, up);
    AckPhaseLeads(t, a, now, up);
    if p.Stop? || p.t.life != Alive {
      AckDecides(t, a, up, p);
    } else {
      WindowAlike(t, a, up, p.t);
      SeqPhaseLeads(p.t, a, now, up);
      SeqDecides(t, a, up, p.t, SeqPhase(p.t, a, now, up));
    }
  }

  lemma InputDecides(t: Tcb, a: Arrival, now: nat, up: Upcalls)
    requires Good(t) && t.life == Alive && WellFormed(a)
    ensures Decides(t, a, up, InputStep(t, a, now, up))
  {
    var r := Receive(t, a, now, up);
    if t.state == SynSent {
      AnswerLeads(t, a, up);
    } else {
      ReceiveDecides(t, a, now, up);
    }
    if r.life == Alive {
      PushLeads(r, now);
      PushDecides(t, a, up, r, Push(r, now));
    }
  }

  // ------------------------------------------------------------------------------ runs

  /** In every run, what an arrival acknowledges and whether its window is taken, in
      positions: all and only what was sent and is not yet acknowledged counts. */
  lemma ArrivalHears(r: Run, k: nat)
    requires IsRun(r) && k < |r.events| && r.states[k].life == Alive && r.events[k].Input?
    ensures Hears(r.states[k], r.events[k].a, r.states[k + 1])
  {
    RunGood(r, k);
    assert Follows(r, k + 1);
    InputHears(r.states[k], r.events[k].a, r.events[k].now, r.events[k].up);
  }

  /** In every run, where an arrival takes the connection and what it delivers, whatever
      the application does from inside the upcalls. */
  lemma ArrivalDecides(r: Run, k: nat)
    requires IsRun(r) && k < |r.events| && r.states[k].life == Alive && r.events[k].Input?
    ensures Decides(r.states[k], r.events[k].a, r.events[k].up, r.states[k + 1])
  {
    RunGood(r, k);
    assert Follows(r, k + 1);
    InputDecides(r.states[k], r.events[k].a, r.events[k].now, r.events[k].up);
  }

  /** In every run, an action of the application changes the state only by letting go: from
      CLOSE-WAIT to LAST-ACK, from ESTABLISHED or SYN-RECEIVED to FIN-WAIT-1, and before
      the SYN is answered it halts. */
  lemma ActionDecides(r: Run, k: nat)
    requires IsRun(r) && k < |r.events| && r.states[k].life == Alive && r.events[k].App?
    ensures var t, u, t' := r.states[k], r.events[k].u, r.states[k + 1];
      && (t'.life == Alive || Lost(t'))
      && (t'.life == Alive ==> t'.state == if Held(t.state) && u.Close? then ByClose(t.state) else t.state)
      && (t.state.SynSent? && u.Close? ==> t'.life == Halted)
  {
    assert Follows(r, k + 1);
    UserStepMoves(r.states[k], r.events[k].u);
  }

  // --------------------------------------------------------------------------- openings

  function SynSegment(iss: nat): Segment {
    Segment(iss, true, false, [], 1)
  }

  lemma OpenedIs(state: State, iss: nat, wnd: nat, rcvNxt: nat)
    ensures var s := Opened(state, iss, wnd, rcvNxt).snd;
      s.sent == [Syn] && s.pending == [SynSegment(iss)] && s.unacked == [] && s.wire == [] && s.acked == 0 && s.wnd == wnd
  {
    assert Octets(SynSegment(iss)) == [Syn];
  }

  /** The SYN goes out at once, exactly when the window holds it. */
  lemma SynGoesOutIff(state: State, iss: nat, wnd: nat, rcvNxt: nat, now: nat)
    requires iss < M && Unanswered(state) && rcvNxt < M && wnd <= MAX_SEND_WND
    ensures var t := Push(Opened(state, iss, wnd, rcvNxt), now);
      if wnd == 0 then t.life == Halted && t.snd.wire == []
      else
        && t.life == Alive && t.state == state && t.rcv.nxt == rcvNxt
        && t.snd.wire == [SynSegment(iss)] && t.snd.unacked == [SynSegment(iss)] && t.snd.pending == []
        && t.timers.retransmit == now + RETRANSMIT_AFTER && t.timers.armed
  {
    var t := Opened(state, iss, wnd, rcvNxt);
    var q := t.snd.pending;
    OpenedIs(state, iss, wnd, rcvNxt);
    OpenedGood(state, iss, wnd, rcvNxt);
    var n := PushMeaning(t, now);
    assert q[1..] == [] && EndPosition(q, t.snd, 0) == 1;
    assert n == if wnd == 0 then 0 else 1;
    assert q[..1] == q && q[1..] == [];
    PushLeads(t, now);
  }

  /** An active open puts its SYN on the wire and waits for the answer. */
  lemma ConnectMeaning(iss: nat, now: nat)
    requires iss < M
    ensures var t := Connect(iss, now);
      && t.life == Alive && t.state == SynSent && t.snd.wire == [SynSegment(iss)] && t.snd.unacked == [SynSegment(iss)]
      && t.timers.retransmit == now + RETRANSMIT_AFTER && t.timers.armed
  {
    SynGoesOutIff(SynSent, iss, TCP_WND, 0, now);
  }

  /** A passive open answers the SYN at once if the application does nothing, unless the
      peer's window does not hold even that, or the SYN came with data. */
  lemma AcceptMeaning(iss: nat, a: Arrival, now: nat)
    requires iss < M && WellFormed(a)
    ensures var t := Accept(iss, a, [], now);
      if a.TcpLen() > 1 || a.wnd == 0 then t.life == Halted
      else
        && t.life == Alive && t.state == SynReceived && t.rcv.nxt == Wrap(a.seqno + 1)
        && t.snd.wire == [SynSegment(iss)] && t.timers.retransmit == now + RETRANSMIT_AFTER && t.timers.armed
  {
    SynGoesOutIff(SynReceived, iss, a.wnd * WINDOW_SCALE, Wrap(a.seqno + 1), now);
  }
}
