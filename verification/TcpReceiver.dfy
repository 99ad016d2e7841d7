/** What the peer is told: everything that was taken in is acknowledged before the event
    is over, and a closed window counts down what is taken in. */
module TcpReceiver {
  import opened TcpSeq
  import opened Tcp
  import opened TcpProofs
  import opened TcpOutput
  import opened TcpInput

  /** The last acknowledgement put on the wire is for all that was taken in. */
  predicate Acked(r: Receiver) {
    r.lastAcked == r.nxt && r.told != [] && r.told[|r.told| - 1] == r.nxt
  }

  /** What was acknowledged last is so much behind. */
  predicate Lags(r: Receiver, d: nat) {
    r.lastAcked < M && d < H && r.nxt == Wrap(r.lastAcked + d) && (d == 0 ==> Acked(r))
  }

  lemma AckedLags(r: Receiver)
    requires Acked(r) && r.nxt < M
    ensures Lags(r, 0)
  {
    WrapCase(r.nxt, 0);
  }

  lemma LagShows(r: Receiver, d: nat)
    requires Lags(r, d)
    ensures LT(r.lastAcked, r.nxt) <==> d > 0
  {
    WrapCase(r.lastAcked, 0);
    CompareMeaning(r.lastAcked, r.lastAcked + d);
  }

  lemma PushTells(t: Tcb, now: nat, d: nat)
    requires t.life == Alive && Lags(t.rcv, d) && Push(t, now).life == Alive
    ensures Acked(Push(t, now).rcv) && Push(t, now).rcv.nxt == t.rcv.nxt
  {
    LagShows(t.rcv, d);
  }

  /** The application does not take anything in, and Output only acknowledges. */
  lemma UserStepLags(t: Tcb, u: User, d: nat)
    requires t.life == Alive && Lags(t.rcv, d) && UserStep(t, u).life == Alive
    ensures UserStep(t, u).rcv.nxt == t.rcv.nxt && (Lags(UserStep(t, u).rcv, d) || Acked(UserStep(t, u).rcv))
  {
    if u.Output? && Held(t.state) {
      PushTells(t, u.now, d);
    } else if u.Close? && Held(t.state) {
      PushTells(CloseStep(t), u.now, d);
    }
  }

  lemma {:induction false} UserStepsLag(t: Tcb, us: seq<User>, d: nat)
    requires t.life == Alive && Lags(t.rcv, d) && UserSteps(t, us).life == Alive && t.rcv.nxt < M
    ensures UserSteps(t, us).rcv.nxt == t.rcv.nxt && (Lags(UserSteps(t, us).rcv, d) || Acked(UserSteps(t, us).rcv))
    decreases |us|
  {
    if us != [] {
      var u := UserStep(t, us[0]);
      if u.life != Alive {
        Over(u, us[1..]);
        assert false;
      }
      UserStepLags(t, us[0], d);
      if Acked(u.rcv) {
        AckedLags(u.rcv);
        UserStepsLag(u, us[1..], 0);
      } else {
        UserStepsLag(u, us[1..], d);
      }
    }
  }

  lemma UserStepsTell(t: Tcb, us: seq<User>)
    requires t.life == Alive && Acked(t.rcv) && UserSteps(t, us).life == Alive && t.rcv.nxt < M
    ensures UserSteps(t, us).rcv.nxt == t.rcv.nxt && Acked(UserSteps(t, us).rcv)
  {
    AckedLags(t.rcv);
    UserStepsLag(t, us, 0);
  }

  // --------------------------------------------------------------------------- arrivals

  lemma AckConnectedTells(t: Tcb, a: Arrival, now: nat, up: Upcalls)
    requires t.life == Alive && Acked(t.rcv) && t.rcv.nxt < M && AckConnected(t, a, now, up).t.life == Alive
    ensures var p := AckConnected(t, a, now, up).t; Acked(p.rcv) && p.rcv.nxt == t.rcv.nxt
  {
    var c := ClearAcked(t.(snd := TakeAckAndWindow(t.snd, a)), a.ackno);
    if Between(a.ackno, t.snd.una, t.snd.nxt) && c.notify { UserStepsTell(c, up.window); }
  }

  lemma AckTells(t: Tcb, a: Arrival, now: nat, up: Upcalls)
    requires t.life == Alive && Acked(t.rcv) && t.rcv.nxt < M && AckPhase(t, a, now, up).t.life == Alive
    ensures var p := AckPhase(t, a, now, up).t; Acked(p.rcv) && p.rcv.nxt == t.rcv.nxt
  {
    if AckPhase(t, a, now, up) == AckConnected(t, a, now, up) {
      AckConnectedTells(t, a, now, up);
    } else {
      var e := t.(state := Established, snd := TakeWindow(t.snd, a));
      if AckPhase(t, a, now, up) == AckConnected(e, a, now, up) { AckConnectedTells(e, a, now, up); }
    }
  }

  /** Taking something more in. */
  lemma LagGrows(r: Receiver, d: nat, more: nat, r': Receiver)
    requires Lags(r, d) && 0 < more && d + more < H
    requires r'.lastAcked == r.lastAcked && r'.nxt == Wrap(r.nxt + more)
    ensures Lags(r', d + more)
  {
    SubWrap(r.lastAcked + d, more);
  }

  lemma FinTells(t: Tcb, a: Arrival, len: nat, now: nat, up: Upcalls, d: nat, more: nat) returns (e: nat)
    requires t.life == Alive && Lags(t.rcv, d) && FinPhase(t, a, len, now, up).life == Alive
    requires a.fin ==> 0 < more && d + more < H && Wrap(a.seqno + len) == Wrap(t.rcv.nxt + more)
    ensures Lags(FinPhase(t, a, len, now, up).rcv, e)
  {
    e := d;
    if a.fin {
      var c := t.(rcv := t.rcv.(nxt := Wrap(a.seqno + len), finIn := true));
      LagGrows(t.rcv, d, more, c.rcv);
      e := d + more;
      if t.state == Established || t.state == SynReceived {
        var w := c.(state := CloseWait);
        UserStepsLag(w, up.close, e);
        if Acked(UserSteps(w, up.close).rcv) {
          AckedLags(UserSteps(w, up.close).rcv);
          e := 0;
        }
      }
    }
  }

  /** A segment that a packet can hold, and whose FIN is not followed by data. */
  predicate Ordinary(r: Receiver, a: Arrival) {
    |a.payload| < 65536 && (a.fin ==> Next(r, a) == [])
  }

  lemma WhereItEnds(r: Receiver, a: Arrival, len: nat, b: nat)
    requires r.nxt < M && a.seqno < M && b <= Offset(r, a) + len
    ensures Wrap(a.seqno + len) == Wrap(Wrap(r.nxt + b) + (Offset(r, a) + len - b))
  {
    WrapCase(r.nxt, 0);
    WrapCase(a.seqno, 0);
    BetweenMeaning(a.seqno, r.nxt, r.nxt);
    SubWrap(r.nxt + Offset(r, a), len);
    SubWrap(r.nxt + b, Offset(r, a) + len - b);
  }

  /** An arrival that is taken in starts at the next byte expected. */
  lemma StartsNext(r: Receiver, a: Arrival)
    requires r.nxt < M && a.seqno < M && r.wnd <= TCP_WND && InWindow(r, a)
    ensures Offset(r, a) <= TCP_WND && (!GT(a.seqno, r.nxt) ==> Offset(r, a) == 0)
  {
    InWindowIff(r, a);
  }

  function FinLen(t: Tcb, a: Arrival): nat {
    if Cut(t, a) && a.fin then a.TcpLen() - 1 else a.TcpLen()
  }

  /** The data that goes to the application. */
  lemma DataLags(t: Tcb, a: Arrival, us: seq<User>) returns (b: nat, d: nat)
    requires Good(t) && t.life == Alive && Acked(t.rcv) && InWindow(t.rcv, a) && a.payload != []
    requires |Next(t.rcv, a)| <= t.rcv.wnd && UserSteps(t.(rcv := Take(t.rcv, a.payload)), us).life == Alive
    ensures var p := UserSteps(t.(rcv := Take(t.rcv, a.payload)), us);
      && b == |Coalesced(t.rcv, a.payload)| && 0 < b <= TCP_WND && d <= b
      && Lags(p.rcv, d) && p.rcv.nxt == Wrap(t.rcv.nxt + b)
  {
    var u := t.(rcv := Take(t.rcv, a.payload));
    b := |Coalesced(t.rcv, a.payload)|;
    AckedLags(t.rcv);
    LagGrows(t.rcv, 0, b, u.rcv);
    UserStepsLag(u, us, b);
    d := b;
    if Acked(UserSteps(u, us).rcv) {
      AckedLags(UserSteps(u, us).rcv);
      d := 0;
    }
  }

  lemma HowMuch(t: Tcb, a: Arrival)
    requires t.state == Established && a.payload != [] && a.fin && Next(t.rcv, a) == []
    ensures |Coalesced(t.rcv, a.payload)| < FinLen(t, a)
  {
  }

  /** Data, then the FIN. */
  lemma DataTells(t: Tcb, a: Arrival, now: nat, up: Upcalls) returns (e: nat)
    requires Good(t) && t.life == Alive && Acked(t.rcv) && WellFormed(a) && Ordinary(t.rcv, a)
    requires InWindow(t.rcv, a) && TakesData(t.state, t.rcv, a) && |Next(t.rcv, a)| <= t.rcv.wnd
    requires TakeIn(t, a, now, up).life == Alive
    ensures Lags(TakeIn(t, a, now, up).rcv, e)
  {
    var p, len := PayloadPhase(t, a, up).t, FinLen(t, a);
    var b, d := DataLags(t, a, up.data);
    StartsNext(t.rcv, a);
    if a.fin {
      HowMuch(t, a);
      WhereItEnds(t.rcv, a, len, b);
    }
    e := FinTells(p, a, len, now, up, d, if a.fin then len - b else 1);
  }

  lemma TakeInTells(t: Tcb, a: Arrival, now: nat, up: Upcalls) returns (e: nat)
    requires Good(t) && t.life == Alive && Acked(t.rcv) && WellFormed(a) && Ordinary(t.rcv, a) && InWindow(t.rcv, a)
    requires TakeIn(t, a, now, up).life == Alive
    ensures Lags(TakeIn(t, a, now, up).rcv, e)
  {
    AckedLags(t.rcv);
    if TakesData(t.state, t.rcv, a) && |Next(t.rcv, a)| <= t.rcv.wnd {
      e := DataTells(t, a, now, up);
    } else if KeepsData(t.state, t.rcv, a) {
      e := 0;
      AckedLags(SendEmptyAck(t.rcv));
    } else {
      StartsNext(t.rcv, a);
      WhereItEnds(t.rcv, a, FinLen(t, a), 0);
      WrapCase(t.rcv.nxt, 0);
      e := FinTells(t, a, FinLen(t, a), now, up, 0, Offset(t.rcv, a) + FinLen(t, a));
    }
  }

  lemma SeqTells(t: Tcb, a: Arrival, now: nat, up: Upcalls) returns (e: nat)
    requires Good(t) && t.life == Alive && Acked(t.rcv) && WellFormed(a) && Ordinary(t.rcv, a)
    requires SeqPhase(t, a, now, up).life == Alive
    ensures Lags(SeqPhase(t, a, now, up).rcv, e)
  {
    e := 0;
    AckedLags(t.rcv);
    AckedLags(SendEmptyAck(t.rcv));
    if InWindow(t.rcv, a) && !a.rst && !a.syn && a.ack && !a.urg { e := TakeInTells(t, a, now, up); }
  }

  lemma AnswerTells(t: Tcb, a: Arrival, up: Upcalls) returns (e: nat)
    requires Good(t) && t.life == Alive && Acked(t.rcv) && WellFormed(a) && AnswerToSyn(t, a, up).life == Alive
    ensures Lags(AnswerToSyn(t, a, up).rcv, e)
  {
    e := 0;
    AckedLags(t.rcv);
    var c := Answered(SynTaken(t, a), a);
    if AnswerToSyn(t, a, up) != t {
      assert Lags(c.rcv, 1);
      UserStepsLag(c, up.connected, 1);
      if Acked(UserSteps(c, up.connected).rcv) { AckedLags(UserSteps(c, up.connected).rcv); } else { e := 1; }
    }
  }

  lemma SameOrdinary(r: Receiver, p: Receiver, a: Arrival)
    requires SameArrived(r, p) && Ordinary(r, a)
    ensures Ordinary(p, a)
  {
  }

  /** The acknowledgement leaves everything acknowledged. */
  lemma AckLeaves(t: Tcb, a: Arrival, now: nat, up: Upcalls)
    requires Good(t) && t.life == Alive && Acked(t.rcv) && WellFormed(a) && Ordinary(t.rcv, a) && t.state != SynSent
    requires AckPhase(t, a, now, up).t.life == Alive
    ensures var p := AckPhase(t, a, now, up).t; Good(p) && Acked(p.rcv) && Ordinary(p.rcv, a) && p.rcv.nxt < M
  {
    var p := AckPhase(t, a, now, up).t;
    assert Good(p) && SameArrived(t.rcv, p.rcv) by { AckPhaseKeeps(t, a, now, up); }
    SameOrdinary(t.rcv, p.rcv, a);
    AckTells(t, a, now, up);
  }

  lemma ReceiveTells(t: Tcb, a: Arrival, now: nat, up: Upcalls) returns (e: nat)
    requires Good(t) && t.life == Alive && Acked(t.rcv) && WellFormed(a) && Ordinary(t.rcv, a)
    requires Receive(t, a, now, up).life == Alive
    ensures Lags(Receive(t, a, now, up).rcv, e)
  {
    if t.state == SynSent {
      e := AnswerTells(t, a, up);
    } else {
      var p := AckPhase(t, a, now, up);
      AckLeaves(t, a, now, up);
      if p.Go? {
        e := SeqTells(p.t, a, now, up);
      } else {
        AckedLags(p.t.rcv);
        e := 0;
      }
    }
  }

  // ------------------------------------------------------------------------------- runs

  predicate Tells(t: Tcb) {
    t.life == Alive ==> Acked(t.rcv)
  }

  predicate OrdinaryEvent(t: Tcb, e: Event) {
    e.Input? ==> Ordinary(t.rcv, e.a)
  }

  lemma FireTells(t: Tcb, now: nat)
    requires Good(t) && t.life == Alive && Acked(t.rcv)
    ensures Tells(FireStep(t, now))
  {
    AckedLags(t.rcv);
    if FireStep(t, now).life == Alive {
      if Due(t.timers, now) {
        Retreats(t, now);
        PushTells(t.(timers := Timers(0, t.timers.timeWait, false), snd := Retreat(t.snd)), now, 0);
      } else {
        PushTells(t.(timers := t.timers.(armed := false)), now, 0);
      }
    }
  }

  lemma StepTells(t: Tcb, e: Event)
    requires Good(t) && Tells(t) && Proper(e) && OrdinaryEvent(t, e)
    ensures Tells(Step(t, e))
  {
    if t.life == Alive && Step(t, e).life == Alive {
      match e
      case Input(a, now, up) =>
        var d := ReceiveTells(t, a, now, up);
        PushTells(Receive(t, a, now, up), now, d);
      case Fire(now) => FireTells(t, now);
      case App(u) =>
        AckedLags(t.rcv);
        UserStepLags(t, u, 0);
    }
  }

  /** Nothing has gone out yet, or the peer has been told. */
  predicate Starting(t: Tcb) {
    t.life == Alive ==> t.rcv.nxt < M && (Acked(t.rcv) || (t.snd.unacked == [] && t.snd.pending != []))
  }

  lemma PushOpens(t: Tcb, now: nat)
    requires Starting(t) && t.life == Alive
    ensures Tells(Push(t, now)) && Push(t, now).rcv.nxt == t.rcv.nxt
  {
    if Acked(t.rcv) {
      AckedLags(t.rcv);
      if Push(t, now).life == Alive { PushTells(t, now, 0); }
    }
  }

  lemma UserStepOpens(t: Tcb, u: User)
    requires Starting(t)
    ensures Starting(UserStep(t, u))
  {
    if t.life == Alive && Held(t.state) {
      if u.Output? {
        PushOpens(t, u.now);
      } else if u.Close? && CloseStep(t).life == Alive {
        PushOpens(CloseStep(t), u.now);
      }
    }
  }

  lemma {:induction false} UserStepsOpen(t: Tcb, us: seq<User>)
    requires Starting(t)
    ensures Starting(UserSteps(t, us))
    decreases |us|
  {
    if us != [] {
      UserStepOpens(t, us[0]);
      UserStepsOpen(UserStep(t, us[0]), us[1..]);
    }
  }

  lemma BeginTells(o: Opening)
    ensures Tells(Begin(o))
  {
    match o
    case Active(iss, now) => PushOpens(Opened(SynSent, iss, TCP_WND, 0), now);
    case Passive(iss, a, script, now) =>
      var t := Opened(SynReceived, iss, a.wnd * WINDOW_SCALE, Wrap(a.seqno + 1));
      UserStepsOpen(t, script);
      var e := UserSteps(t, script);
      if e.life == Alive { PushOpens(e, now); }
  }

  predicate OrdinaryAt(r: Run, k: nat)
    requires |r.states| == |r.events| + 1 && k < |r.events|
  {
    OrdinaryEvent(r.states[k], r.events[k])
  }

  /** At every point of every run, the last acknowledgement on the wire is for everything
      that has been taken in: nothing waits for a later event to be acknowledged. */
  lemma {:induction false} EverythingIsAcknowledged(r: Run, k: nat)
    requires IsRun(r) && k < |r.states| && r.states[k].life == Alive
    requires forall j {:trigger OrdinaryAt(r, j)} | 0 <= j < |r.events| :: OrdinaryAt(r, j)
    ensures Acked(r.states[k].rcv)
  {
    assert Follows(r, k);
    if k == 0 {
      BeginTells(r.opening);
    } else {
      RunGood(r, k - 1);
      assert r.states[k - 1].life == Alive;
      EverythingIsAcknowledged(r, k - 1);
      assert OrdinaryAt(r, k - 1);
      StepTells(r.states[k - 1], r.events[k - 1]);
    }
  }

  // ------------------------------------------------------------------- the receive window

  /** An open window is full size. */
  predicate Open(r: Receiver) {
    !r.closing ==> r.wnd == TCP_WND
  }

  /** A closed window has counted down by what was given since. */
  predicate Counts(r: Receiver, r': Receiver) {
    r'.closing && r'.wnd + |r'.given| == r.wnd + |r.given|
  }

  lemma PushOpen(t: Tcb, now: nat)
    ensures var r := Push(t, now).rcv; r.closing == t.rcv.closing && r.wnd == t.rcv.wnd && r.given == t.rcv.given
  {
  }

  lemma UserStepOpen(t: Tcb, u: User)
    requires Open(t.rcv)
    ensures Open(UserStep(t, u).rcv)
    ensures t.rcv.closing && !u.OpenWindow? ==> Counts(t.rcv, UserStep(t, u).rcv)
  {
    match u
    case Output(now) => PushOpen(t, now);
    case Close(now) =>
      assert CloseStep(t).rcv == t.rcv;
      PushOpen(CloseStep(t), now);
    case _ =>
  }

  lemma {:induction false} UserStepsKeepOpen(t: Tcb, us: seq<User>)
    requires Open(t.rcv)
    ensures Open(UserSteps(t, us).rcv)
    ensures t.rcv.closing && OpenWindow !in us ==> Counts(t.rcv, UserSteps(t, us).rcv)
    decreases |us|
  {
    if us != [] {
      UserStepOpen(t, us[0]);
      UserStepsKeepOpen(UserStep(t, us[0]), us[1..]);
    }
  }

  /** Nothing opens the window in these upcalls. */
  predicate StaysShut(up: Upcalls) {
    OpenWindow !in up.connected && OpenWindow !in up.window && OpenWindow !in up.data && OpenWindow !in up.close
  }

  predicate Follow(t: Tcb, up: Upcalls, r: Tcb) {
    Open(r.rcv) && (t.rcv.closing && StaysShut(up) ==> Counts(t.rcv, r.rcv))
  }

  lemma AckConnectedOpen(t: Tcb, a: Arrival, now: nat, up: Upcalls)
    requires Open(t.rcv)
    ensures Follow(t, up, AckConnected(t, a, now, up).t)
  {
    UserStepsKeepOpen(ClearAcked(t.(snd := TakeAckAndWindow(t.snd, a)), a.ackno), up.window);
  }

  lemma AckOpen(t: Tcb, a: Arrival, now: nat, up: Upcalls)
    requires Open(t.rcv)
    ensures Follow(t, up, AckPhase(t, a, now, up).t)
  {
    AckConnectedOpen(t, a, now, up);
    AckConnectedOpen(t.(state := Established, snd := TakeWindow(t.snd, a)), a, now, up);
  }

  lemma PayloadOpen(t: Tcb, a: Arrival, up: Upcalls)
    requires Open(t.rcv)
    ensures Follow(t, up, PayloadPhase(t, a, up).t)
  {
    if |Drained(t.rcv.stash, t.rcv.nxt + |a.payload|)| <= t.rcv.wnd {
      UserStepsKeepOpen(t.(rcv := Take(t.rcv, a.payload)), up.data);
    }
  }

  lemma FinOpen(t: Tcb, a: Arrival, len: nat, now: nat, up: Upcalls)
    requires Open(t.rcv)
    ensures Follow(t, up, FinPhase(t, a, len, now, up))
  {
    UserStepsKeepOpen(t.(rcv := t.rcv.(nxt := Wrap(a.seqno + len), finIn := true), state := CloseWait), up.close);
  }

  lemma SeqOpen(t: Tcb, a: Arrival, now: nat, up: Upcalls)
    requires Open(t.rcv)
    ensures Follow(t, up, SeqPhase(t, a, now, up))
  {
    PayloadOpen(t, a, up);
    FinOpen(PayloadPhase(t, a, up).t, a, FinLen(t, a), now, up);
  }

  lemma AnswerOpen(t: Tcb, a: Arrival, up: Upcalls)
    requires Open(t.rcv)
    ensures Follow(t, up, AnswerToSyn(t, a, up))
  {
    UserStepsKeepOpen(Answered(SynTaken(t, a), a), up.connected);
  }

  lemma InputOpen(t: Tcb, a: Arrival, now: nat, up: Upcalls)
    requires Open(t.rcv)
    ensures Follow(t, up, InputStep(t, a, now, up))
  {
    AnswerOpen(t, a, up);
    AckOpen(t, a, now, up);
    SeqOpen(AckPhase(t, a, now, up).t, a, now, up);
    PushOpen(Receive(t, a, now, up), now);
  }

  lemma FireOpen(t: Tcb, now: nat)
    ensures var r := FireStep(t, now).rcv; r.closing == t.rcv.closing && r.wnd == t.rcv.wnd && r.given == t.rcv.given
  {
    PushOpen(t.(timers := t.timers.(armed := false)), now);
    PushOpen(t.(timers := t.timers.(armed := false, retransmit := 0), snd := Retreat(t.snd)), now);
  }

  predicate EventStaysShut(e: Event) {
    match e
    case Input(_, _, up) => StaysShut(up)
    case App(u) => !u.OpenWindow?
    case Fire(_) => true
  }

  lemma StepOpen(t: Tcb, e: Event)
    requires Open(t.rcv)
    ensures Open(Step(t, e).rcv) && (t.rcv.closing && EventStaysShut(e) ==> Counts(t.rcv, Step(t, e).rcv))
  {
    match e
    case Input(a, now, up) => InputOpen(t, a, now, up);
    case Fire(now) => FireOpen(t, now);
    case App(u) => UserStepOpen(t, u);
  }

  lemma BeginOpen(o: Opening)
    ensures Open(Begin(o).rcv)
  {
    match o
    case Active(iss, now) => PushOpen(Opened(SynSent, iss, TCP_WND, 0), now);
    case Passive(iss, a, script, now) =>
      var t := Opened(SynReceived, iss, a.wnd * WINDOW_SCALE, Wrap(a.seqno + 1));
      UserStepsKeepOpen(t, script);
      PushOpen(UserSteps(t, script), now);
  }

  lemma FollowsOpen(r: Run, k: nat)
    requires IsRun(r) && k < |r.states| && (k > 0 ==> Open(r.states[k - 1].rcv))
    ensures Open(r.states[k].rcv)
    ensures k > 0 && r.states[k - 1].rcv.closing && EventStaysShut(r.events[k - 1]) ==>
      Counts(r.states[k - 1].rcv, r.states[k].rcv)
  {
    assert Follows(r, k);
    if k == 0 {
      BeginOpen(r.opening);
    } else {
      StepOpen(r.states[k - 1], r.events[k - 1]);
    }
  }

  lemma {:induction false} RunOpen(r: Run, k: nat)
    requires IsRun(r) && k < |r.states|
    ensures Open(r.states[k].rcv)
  {
    if k > 0 { RunOpen(r, k - 1); }
    FollowsOpen(r, k);
  }

  /** At every point of every run an open window has its full size, and as long as a closed
      one is not opened, what it has left and what the application was given since make up
      what it was. */
  lemma {:induction false} ClosedWindowCounts(r: Run, i: nat, k: nat)
    requires IsRun(r) && i <= k < |r.states|
    requires r.states[i].rcv.closing && forall j | i <= j < k :: EventStaysShut(r.events[j])
    ensures Open(r.states[k].rcv) && Counts(r.states[i].rcv, r.states[k].rcv)
    decreases k
  {
    if i < k {
      ClosedWindowCounts(r, i, k - 1);
      FollowsOpen(r, k);
    } else {
      RunOpen(r, k);
    }
  }
}
