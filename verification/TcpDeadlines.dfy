/** Deadlines. TIME-WAIT always has one and a running timer, so it ends, and nothing else
    is ever ended by one; and there is one for retransmission exactly while something is in
    flight. */
module TcpDeadlines {
  import opened TcpSeq
  import opened Tcp
  import opened TcpProofs
  import opened TcpOutput
  import opened TcpInput

  /** Only TIME-WAIT has this deadline, and it has a timer too. */
  predicate Waits(t: Tcb) {
    t.life == Alive ==>
      if t.state.TimeWait? then t.timers.timeWait != 0 && t.timers.armed else t.timers.timeWait == 0
  }

  /** The same before the timer is set. */
  predicate WillWait(t: Tcb, now: nat) {
    t.life == Alive ==>
      if t.state.TimeWait? then t.timers.timeWait != 0 && (t.timers.armed || now < t.timers.timeWait)
      else t.timers.timeWait == 0
  }

  lemma PushWaits(t: Tcb, now: nat)
    requires WillWait(t, now) && t.life == Alive
    ensures Waits(Push(t, now)) && Push(t, now).timers.timeWait == t.timers.timeWait
  {
  }

  lemma UserStepWaits(t: Tcb, u: User, now: nat)
    requires WillWait(t, now)
    ensures WillWait(UserStep(t, u), now) && (t.state.TimeWait? ==> UserStep(t, u) == t)
  {
    if t.life == Alive && Held(t.state) {
      if u.Output? {
        PushWaits(t, u.now);
      } else if u.Close? && CloseStep(t).life == Alive {
        PushWaits(CloseStep(t), u.now);
      }
    }
  }

  lemma {:induction false} UserStepsWait(t: Tcb, us: seq<User>, now: nat)
    requires WillWait(t, now)
    ensures WillWait(UserSteps(t, us), now) && (t.state.TimeWait? ==> UserSteps(t, us) == t)
    decreases |us|
  {
    if us != [] {
      UserStepWaits(t, us[0], now);
      UserStepsWait(UserStep(t, us[0]), us[1..], now);
    }
  }

  // ------------------------------------------------------------------------- arrivals

  /** An arrival in TIME-WAIT that repeats the peer's FIN. */
  predicate FinAgain(t: Tcb, a: Arrival) {
    InWindow(t.rcv, a) && a.ack && !a.rst && !a.syn && !a.urg && a.fin
  }

  /** The deadline after an arrival: new when TIME-WAIT is entered or the FIN repeated. */
  predicate Deadline(t: Tcb, a: Arrival, now: nat, r: Tcb) {
    r.life == Alive && r.state.TimeWait? ==>
      r.timers.timeWait == if t.state.TimeWait? && !FinAgain(t, a) then t.timers.timeWait else now + TIME_WAIT_FOR
  }

  /** Not in TIME-WAIT, or just entered. */
  predicate JustEntered(t: Tcb, now: nat) {
    t.life == Alive && t.state.TimeWait? ==> t.timers.timeWait == now + TIME_WAIT_FOR
  }

  lemma {:induction false} NeverEnters(t: Tcb, us: seq<User>)
    requires !t.state.TimeWait?
    ensures !UserSteps(t, us).state.TimeWait?
    decreases |us|
  {
    if us != [] { NeverEnters(UserStep(t, us[0]), us[1..]); }
  }

  lemma AckConnectedWaits(t: Tcb, a: Arrival, now: nat, up: Upcalls)
    requires WillWait(t, now) && t.life == Alive && !t.state.TimeWait?
    ensures var p := AckConnected(t, a, now, up).t; WillWait(p, now) && JustEntered(p, now)
  {
    var c := ClearAcked(t.(snd := TakeAckAndWindow(t.snd, a)), a.ackno);
    UserStepsWait(c, up.window, now);
    NeverEnters(c, up.window);
  }

  lemma AckWaits(t: Tcb, a: Arrival, now: nat, up: Upcalls)
    requires WillWait(t, now) && t.life == Alive
    ensures var p := AckPhase(t, a, now, up);
      WillWait(p.t, now) && (if t.state.TimeWait? then p == Go(t) else JustEntered(p.t, now))
  {
    if !t.state.TimeWait? {
      AckConnectedWaits(t, a, now, up);
      AckConnectedWaits(t.(state := Established, snd := TakeWindow(t.snd, a)), a, now, up);
    }
  }

  lemma PayloadWaits(t: Tcb, a: Arrival, up: Upcalls, now: nat)
    requires WillWait(t, now) && t.life == Alive
    ensures var p := PayloadPhase(t, a, up);
      WillWait(p.t, now) && (if t.state.TimeWait? then p == Go(t) else !p.t.state.TimeWait?)
  {
    if |Drained(t.rcv.stash, t.rcv.nxt + |a.payload|)| <= t.rcv.wnd {
      var u := t.(rcv := Take(t.rcv, a.payload));
      UserStepsWait(u, up.data, now);
      if !t.state.TimeWait? { NeverEnters(u, up.data); }
    }
  }

  lemma FinWaits(t: Tcb, a: Arrival, len: nat, now: nat, up: Upcalls)
    requires WillWait(t, now)
    ensures var r := FinPhase(t, a, len, now, up);
      && WillWait(r, now) && (a.fin && t.life == Alive ==> JustEntered(r, now))
      && (!a.fin || t.life != Alive ==> r == t)
  {
    if t.life == Alive && a.fin && (t.state == Established || t.state == SynReceived) {
      var c := t.(rcv := t.rcv.(nxt := Wrap(a.seqno + len), finIn := true), state := CloseWait);
      UserStepsWait(c, up.close, now);
      NeverEnters(c, up.close);
    }
  }

  lemma TakeInWaits(t: Tcb, a: Arrival, now: nat, up: Upcalls)
    requires WillWait(t, now) && t.life == Alive
    ensures var r := TakeIn(t, a, now, up);
      && WillWait(r, now) && (!t.state.TimeWait? || a.fin ==> JustEntered(r, now))
      && (t.state.TimeWait? && !a.fin ==> r == t)
  {
    var p := PayloadPhase(t, a, up);
    PayloadWaits(t, a, up, now);
    FinWaits(p.t, a, if Cut(t, a) && a.fin then a.TcpLen() - 1 else a.TcpLen(), now, up);
  }

  lemma SeqWaits(t: Tcb, a: Arrival, now: nat, up: Upcalls)
    requires WillWait(t, now) && t.life == Alive
    ensures var r := SeqPhase(t, a, now, up);
      && WillWait(r, now)
      && (if t.state.TimeWait? then Deadline(t, a, now, r) else JustEntered(r, now))
  {
    TakeInWaits(t, a, now, up);
  }

  lemma AnswerWaits(t: Tcb, a: Arrival, now: nat, up: Upcalls)
    requires WillWait(t, now) && t.life == Alive && t.state == SynSent
    ensures WillWait(AnswerToSyn(t, a, up), now) && !AnswerToSyn(t, a, up).state.TimeWait?
  {
    var c := Answered(SynTaken(t, a), a);
    UserStepsWait(c, up.connected, now);
    NeverEnters(c, up.connected);
  }

  lemma ReceiveWaits(t: Tcb, a: Arrival, now: nat, up: Upcalls)
    requires WillWait(t, now) && t.life == Alive
    ensures WillWait(Receive(t, a, now, up), now) && Deadline(t, a, now, Receive(t, a, now, up))
  {
    if t.state == SynSent {
      AnswerWaits(t, a, now, up);
    } else {
      var p := AckPhase(t, a, now, up);
      AckWaits(t, a, now, up);
      if p.Go? && p.t.life == Alive { SeqWaits(p.t, a, now, up); }
    }
  }

  lemma InputWaits(t: Tcb, a: Arrival, now: nat, up: Upcalls)
    requires Waits(t) && t.life == Alive
    ensures Waits(InputStep(t, a, now, up)) && Deadline(t, a, now, InputStep(t, a, now, up))
  {
    ReceiveWaits(t, a, now, up);
    var r := Receive(t, a, now, up);
    if r.life == Alive { PushWaits(r, now); }
  }

  lemma FireWaits(t: Tcb, now: nat)
    requires Waits(t) && t.life == Alive
    ensures Waits(FireStep(t, now))
    ensures FireStep(t, now).life == Destroyed <==> t.state.TimeWait? && now >= t.timers.timeWait
  {
    if !Expired(t.timers, now) {
      PushWaits(t.(timers := t.timers.(armed := false)), now);
      PushWaits(t.(timers := t.timers.(armed := false, retransmit := 0), snd := Retreat(t.snd)), now);
    }
  }

  lemma StaysOut(t: Tcb, u: User)
    requires !t.state.TimeWait?
    ensures !UserStep(t, u).state.TimeWait?
  {
  }

  lemma StepWaits(t: Tcb, e: Event)
    requires Waits(t)
    ensures Waits(Step(t, e))
  {
    if t.life == Alive {
      match e
      case Input(a, now, up) => InputWaits(t, a, now, up);
      case Fire(now) => FireWaits(t, now);
      case App(u) =>
        UserStepWaits(t, u, 0);
        if t.state.TimeWait? { assert UserStep(t, u) == t; } else { StaysOut(t, u); }
    }
  }

  lemma BeginWaits(o: Opening)
    ensures Waits(Begin(o))
  {
    match o
    case Active(iss, now) => PushWaits(Opened(SynSent, iss, TCP_WND, 0), now);
    case Passive(iss, a, script, now) =>
      var t := Opened(SynReceived, iss, a.wnd * WINDOW_SCALE, Wrap(a.seqno + 1));
      UserStepsWait(t, script, now);
      NeverEnters(t, script);
      if UserSteps(t, script).life == Alive { PushWaits(UserSteps(t, script), now); }
  }

  // ------------------------------------------------------------------------------- runs

  lemma {:induction false} RunWaits(r: Run, k: nat)
    requires IsRun(r) && k < |r.states|
    ensures Waits(r.states[k])
  {
    assert Follows(r, k);
    if k == 0 {
      BeginWaits(r.opening);
    } else {
      RunWaits(r, k - 1);
      StepWaits(r.states[k - 1], r.events[k - 1]);
    }
  }

  /** At every point of every run a connection in TIME-WAIT has a deadline and a running
      timer, and no other has that deadline. The deadline is a minute after TIME-WAIT was
      entered or the FIN last repeated, and the first timer event past it, and no other,
      ends the connection. */
  lemma TimeWaitEnds(r: Run, k: nat)
    requires IsRun(r) && k < |r.states| && r.states[k].life == Alive
    ensures Waits(r.states[k])
    ensures k < |r.events| && r.events[k].Input? ==>
      Deadline(r.states[k], r.events[k].a, r.events[k].now, r.states[k + 1])
    ensures k < |r.events| && r.events[k].Fire? ==>
      (r.states[k + 1].life == Destroyed <==>
        r.states[k].state.TimeWait? && r.events[k].now >= r.states[k].timers.timeWait)
  {
    RunWaits(r, k);
    if k < |r.events| {
      assert Follows(r, k + 1);
      match r.events[k]
      case Input(a, now, up) => InputWaits(r.states[k], a, now, up);
      case Fire(now) => FireWaits(r.states[k], now);
      case App(_) =>
    }
  }

  // -------------------------------------------------------------------- retransmission

  /** Nothing in flight, nothing to retransmit. */
  predicate Calm(t: Tcb) {
    t.life == Alive && t.snd.unacked == [] ==> t.timers.retransmit == 0
  }

  lemma PushCalm(t: Tcb, now: nat)
    requires Calm(t) && t.life == Alive
    ensures Calm(Push(t, now))
  {
  }

  lemma UserStepCalm(t: Tcb, u: User)
    requires Calm(t)
    ensures Calm(UserStep(t, u))
  {
    if t.life == Alive && Held(t.state) {
      if u.Output? {
        PushCalm(t, u.now);
      } else if u.Close? && CloseStep(t).life == Alive {
        PushCalm(CloseStep(t), u.now);
      }
    }
  }

  lemma {:induction false} UserStepsCalm(t: Tcb, us: seq<User>)
    requires Calm(t)
    ensures Calm(UserSteps(t, us))
    decreases |us|
  {
    if us != [] {
      UserStepCalm(t, us[0]);
      UserStepsCalm(UserStep(t, us[0]), us[1..]);
    }
  }

  lemma AckConnectedCalm(t: Tcb, a: Arrival, now: nat, up: Upcalls)
    requires Calm(t)
    ensures Calm(AckConnected(t, a, now, up).t)
  {
    var c := ClearAcked(t.(snd := TakeAckAndWindow(t.snd, a)), a.ackno);
    assert Calm(c);
    UserStepsCalm(c, up.window);
  }

  lemma AckCalm(t: Tcb, a: Arrival, now: nat, up: Upcalls)
    requires Calm(t)
    ensures Calm(AckPhase(t, a, now, up).t)
  {
    AckConnectedCalm(t, a, now, up);
    AckConnectedCalm(t.(state := Established, snd := TakeWindow(t.snd, a)), a, now, up);
  }

  lemma PayloadCalm(t: Tcb, a: Arrival, up: Upcalls)
    requires Calm(t)
    ensures Calm(PayloadPhase(t, a, up).t)
  {
    if |Drained(t.rcv.stash, t.rcv.nxt + |a.payload|)| <= t.rcv.wnd {
      UserStepsCalm(t.(rcv := Take(t.rcv, a.payload)), up.data);
    }
  }

  lemma FinCalm(t: Tcb, a: Arrival, len: nat, now: nat, up: Upcalls)
    requires Calm(t)
    ensures Calm(FinPhase(t, a, len, now, up))
  {
    UserStepsCalm(t.(rcv := t.rcv.(nxt := Wrap(a.seqno + len), finIn := true), state := CloseWait), up.close);
  }

  lemma SeqCalm(t: Tcb, a: Arrival, now: nat, up: Upcalls)
    requires Calm(t)
    ensures Calm(SeqPhase(t, a, now, up))
  {
    PayloadCalm(t, a, up);
    FinCalm(PayloadPhase(t, a, up).t, a, if Cut(t, a) && a.fin then a.TcpLen() - 1 else a.TcpLen(), now, up);
  }

  lemma AnswerCalm(t: Tcb, a: Arrival, up: Upcalls)
    requires Calm(t)
    ensures Calm(AnswerToSyn(t, a, up))
  {
    UserStepsCalm(Answered(SynTaken(t, a), a), up.connected);
  }

  lemma InputCalm(t: Tcb, a: Arrival, now: nat, up: Upcalls)
    requires Calm(t) && t.life == Alive
    ensures Calm(InputStep(t, a, now, up))
  {
    AnswerCalm(t, a, up);
    AckCalm(t, a, now, up);
    SeqCalm(AckPhase(t, a, now, up).t, a, now, up);
    var r := Receive(t, a, now, up);
    if r.life == Alive { PushCalm(r, now); }
  }

  lemma FireCalm(t: Tcb, now: nat)
    requires Calm(t) && t.life == Alive
    ensures Calm(FireStep(t, now))
  {
    PushCalm(t.(timers := t.timers.(armed := false)), now);
    PushCalm(t.(timers := t.timers.(armed := false, retransmit := 0), snd := Retreat(t.snd)), now);
  }

  lemma AcceptedCalm(t: Tcb, a: Arrival, script: seq<User>, now: nat)
    requires Calm(t)
    ensures Calm(Accepted(t, a, script, now))
  {
    UserStepsCalm(t, script);
    var e := UserSteps(t, script);
    if e.life == Alive { PushCalm(e, now); }
  }

  lemma BeginCalm(o: Opening)
    ensures Calm(Begin(o))
  {
    match o
    case Active(iss, now) => PushCalm(Opened(SynSent, iss, TCP_WND, 0), now);
    case Passive(iss, a, script, now) =>
      var t := Opened(SynReceived, iss, a.wnd * WINDOW_SCALE, Wrap(a.seqno + 1));
      AcceptedCalm(t, a, script, now);
  }

  lemma {:induction false} RunCalm(r: Run, k: nat)
    requires IsRun(r) && k < |r.states|
    ensures Calm(r.states[k])
  {
    assert Follows(r, k);
    if k == 0 {
      BeginCalm(r.opening);
    } else {
      RunCalm(r, k - 1);
      var t := r.states[k - 1];
      if t.life == Alive {
        match r.events[k - 1]
        case Input(a, now, up) => InputCalm(t, a, now, up);
        case Fire(now) => FireCalm(t, now);
        case App(u) => UserStepCalm(t, u);
      }
    }
  }

  /** At every point of every run there is a retransmission deadline exactly when something
      is in flight. */
  lemma DeadlineIff(r: Run, k: nat)
    requires IsRun(r) && k < |r.states| && r.states[k].life == Alive
    ensures r.states[k].timers.retransmit != 0 <==> r.states[k].snd.unacked != []
  {
    RunCalm(r, k);
    RunGood(r, k);
  }
}
