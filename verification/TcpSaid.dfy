/** What is sent is what the application said: the bytes of the sends that were
    accepted, in order, also those made from inside an upcall. */
module TcpSaid {
  import opened TcpSeq
  import opened Tcp
  import opened TcpProofs

  /** The bytes among octets. */
  function BytesOf(o: seq<Octet>): seq<nat> {
    if o == [] then [] else (if o[0].Byte? then [o[0].b] else []) + BytesOf(o[1..])
  }

  lemma {:induction false} BytesOfConcat(x: seq<Octet>, y: seq<Octet>)
    ensures BytesOf(x + y) == BytesOf(x) + BytesOf(y)
  {
    if x == [] {
      assert x + y == y;
    } else {
      var first: seq<nat> := if x[0].Byte? then [x[0].b] else [];
      assert (x + y)[0] == x[0] && (x + y)[1..] == x[1..] + y;
      BytesOfConcat(x[1..], y);
      assert first + (BytesOf(x[1..]) + BytesOf(y)) == (first + BytesOf(x[1..])) + BytesOf(y);
    }
  }

  lemma {:induction false} BytesOfBytes(d: seq<nat>)
    ensures BytesOf(Bytes(d)) == d
  {
    if d != [] {
      assert Bytes(d)[1..] == Bytes(d[1..]);
      BytesOfBytes(d[1..]);
    }
  }

  lemma BytesOfSegment(g: Segment)
    ensures BytesOf(Octets(g)) == g.data
  {
    var syn: seq<Octet>, fin: seq<Octet> := if g.syn then [Syn] else [], if g.fin then [Fin] else [];
    BytesOfConcat(syn + Bytes(g.data), fin);
    BytesOfConcat(syn, Bytes(g.data));
    BytesOfBytes(g.data);
    assert [Syn][1..] == [] && [Fin][1..] == [];
  }

  // --------------------------------------------------------------------- saying

  function UserSaid(t: Tcb, u: User): seq<nat> {
    if u.Send? && t.life == Alive && Held(t.state) && SendStep(t, u.data).life == Alive then u.data else []
  }

  function UsersSaid(t: Tcb, us: seq<User>): seq<nat>
    decreases |us|
  {
    if us == [] then [] else UserSaid(t, us[0]) + UsersSaid(UserStep(t, us[0]), us[1..])
  }

  function AnswerSaid(t: Tcb, a: Arrival, up: Upcalls): seq<nat> {
    if a.syn && a.ack && !a.rst && !LEQ(a.ackno, t.snd.una) && !GT(a.ackno, t.snd.nxt) && a.TcpLen() <= 1 then
      UsersSaid(Answered(SynTaken(t, a), a), up.connected)
    else []
  }

  function AckConnectedSaid(t: Tcb, a: Arrival, up: Upcalls): seq<nat> {
    var c := ClearAcked(t.(snd := TakeAckAndWindow(t.snd, a)), a.ackno);
    if Between(a.ackno, t.snd.una, t.snd.nxt) && c.notify then UsersSaid(c, up.window) else []
  }

  function AckSaid(t: Tcb, a: Arrival, up: Upcalls): seq<nat> {
    if !(GEQ(a.seqno, t.rcv.nxt) && a.ack && !a.syn && !a.rst) || t.state == LastAck || t.state == TimeWait then []
    else if t.state == SynReceived then
      if !Between(a.ackno, Wrap(t.snd.una + 1), t.snd.nxt) then []
      else AckConnectedSaid(t.(state := Established, snd := TakeWindow(t.snd, a)), a, up)
    else AckConnectedSaid(t, a, up)
  }

  function PayloadSaid(t: Tcb, a: Arrival, up: Upcalls): seq<nat> {
    if a.payload != [] && t.state == Established && !GT(a.seqno, t.rcv.nxt)
       && |Drained(t.rcv.stash, t.rcv.nxt + |a.payload|)| <= t.rcv.wnd
    then UsersSaid(t.(rcv := Take(t.rcv, a.payload)), up.data)
    else []
  }

  function FinSaid(t: Tcb, a: Arrival, len: nat, up: Upcalls): seq<nat> {
    if t.life == Alive && a.fin && (t.state == Established || t.state == SynReceived) then
      UsersSaid(t.(rcv := t.rcv.(nxt := Wrap(a.seqno + len), finIn := true), state := CloseWait), up.close)
    else []
  }

  function SeqSaid(t: Tcb, a: Arrival, up: Upcalls): seq<nat> {
    if !InWindow(t.rcv, a) || a.rst || a.syn || !a.ack || a.urg then []
    else
      match PayloadPhase(t, a, up)
      case Stop(_) => PayloadSaid(t, a, up)
      case Go(p) =>
        PayloadSaid(t, a, up) + FinSaid(p, a, if Cut(t, a) && a.fin then a.TcpLen() - 1 else a.TcpLen(), up)
  }

  function EventSaid(t: Tcb, e: Event): seq<nat> {
    if t.life != Alive then []
    else
      match e
      case App(u) => UserSaid(t, u)
      case Fire(_) => []
      case Input(a, now, up) =>
        if t.state == SynSent then AnswerSaid(t, a, up)
        else
          match AckPhase(t, a, now, up)
          case Stop(_) => AckSaid(t, a, up)
          case Go(p) => AckSaid(t, a, up) + if p.life == Alive then SeqSaid(p, a, up) else []
  }

  // -------------------------------------------------------------------- step by step

  predicate Says(s: Sender, d: seq<nat>, r: Sender) {
    BytesOf(r.sent) == BytesOf(s.sent) + d
  }

  lemma EnqueueSays(s: Sender, syn: bool, fin: bool, data: seq<nat>)
    ensures Says(s, data, EnqueueSegment(s, syn, fin, data))
  {
    var len := |data| + if syn || fin then 1 else 0;
    var g := Segment(s.nxt, syn, fin, data, Short(len));
    BytesOfConcat(s.sent, Octets(g));
    BytesOfSegment(g);
  }

  lemma SendFinSays(s: Sender)
    ensures Says(s, [], SendFin(s))
  {
    BytesOfConcat(s.sent, [Fin]);
    assert [Fin][1..] == [];
    EnqueueSays(s, false, true, []);
  }

  lemma PushSays(t: Tcb, now: nat)
    ensures Says(t.snd, [], Push(t, now).snd)
  {
  }

  lemma CloseStepSays(t: Tcb)
    ensures Says(t.snd, [], CloseStep(t).snd)
  {
    SendFinSays(t.snd);
  }

  lemma CloseSays(t: Tcb, now: nat)
    requires t.life == Alive && Held(t.state)
    ensures Says(t.snd, [], UserStep(t, Close(now)).snd)
  {
    var c := CloseStep(t);
    CloseStepSays(t);
    PushSays(c, now);
    SaysBoth(t.snd, [], c.snd, [], Push(c, now).snd);
  }

  lemma UserStepSays(t: Tcb, u: User)
    ensures Says(t.snd, UserSaid(t, u), UserStep(t, u).snd)
  {
    if t.life == Alive && Held(t.state) {
      match u
      case Send(data) => EnqueueSays(t.snd, false, false, data);
      case Output(now) => PushSays(t, now);
      case Close(now) => CloseSays(t, now);
      case _ =>
    }
  }

  /** One thing said after another. */
  lemma SaysBoth(s: Sender, d: seq<nat>, m: Sender, e: seq<nat>, r: Sender)
    requires Says(s, d, m) && Says(m, e, r)
    ensures Says(s, d + e, r)
  {
    assert BytesOf(s.sent) + d + e == BytesOf(s.sent) + (d + e);
  }

  lemma {:induction false} UserStepsSay(t: Tcb, us: seq<User>)
    ensures Says(t.snd, UsersSaid(t, us), UserSteps(t, us).snd)
    decreases |us|
  {
    if us != [] {
      var u := UserStep(t, us[0]);
      UserStepSays(t, us[0]);
      UserStepsSay(u, us[1..]);
      SaysBoth(t.snd, UserSaid(t, us[0]), u.snd, UsersSaid(u, us[1..]), UserSteps(u, us[1..]).snd);
    }
  }

  lemma AcknowledgeSays(t: Tcb, a: Arrival, up: Upcalls)
    requires Between(a.ackno, t.snd.una, t.snd.nxt)
    ensures Says(t.snd, AckConnectedSaid(t, a, up), Acknowledge(t, a, up).snd)
  {
    UserStepsSay(ClearAcked(t.(snd := TakeAckAndWindow(t.snd, a)), a.ackno), up.window);
  }

  lemma AckConnectedSays(t: Tcb, a: Arrival, now: nat, up: Upcalls)
    ensures Says(t.snd, AckConnectedSaid(t, a, up), AckConnected(t, a, now, up).t.snd)
  {
    if Between(a.ackno, t.snd.una, t.snd.nxt) {
      AcknowledgeSays(t, a, up);
    }
  }

  lemma AckPhaseSays(t: Tcb, a: Arrival, now: nat, up: Upcalls)
    ensures Says(t.snd, AckSaid(t, a, up), AckPhase(t, a, now, up).t.snd)
  {
    if t.state == SynReceived {
      AckConnectedSays(t.(state := Established, snd := TakeWindow(t.snd, a)), a, now, up);
    } else {
      AckConnectedSays(t, a, now, up);
    }
  }

  lemma PayloadSays(t: Tcb, a: Arrival, up: Upcalls)
    ensures Says(t.snd, PayloadSaid(t, a, up), PayloadPhase(t, a, up).t.snd)
  {
    if a.payload != [] && t.state == Established && !GT(a.seqno, t.rcv.nxt)
       && |Drained(t.rcv.stash, t.rcv.nxt + |a.payload|)| <= t.rcv.wnd
    {
      UserStepsSay(t.(rcv := Take(t.rcv, a.payload)), up.data);
    }
  }

  lemma FinSays(t: Tcb, a: Arrival, len: nat, now: nat, up: Upcalls)
    ensures Says(t.snd, FinSaid(t, a, len, up), FinPhase(t, a, len, now, up).snd)
  {
    if t.life == Alive && a.fin && (t.state == Established || t.state == SynReceived) {
      UserStepsSay(t.(rcv := t.rcv.(nxt := Wrap(a.seqno + len), finIn := true), state := CloseWait), up.close);
    }
  }

  lemma SeqPhaseSays(t: Tcb, a: Arrival, now: nat, up: Upcalls)
    ensures Says(t.snd, SeqSaid(t, a, up), SeqPhase(t, a, now, up).snd)
  {
    if InWindow(t.rcv, a) && !a.rst && !a.syn && a.ack && !a.urg {
      var p := PayloadPhase(t, a, up);
      PayloadSays(t, a, up);
      if p.Go? {
        var len := if Cut(t, a) && a.fin then a.TcpLen() - 1 else a.TcpLen();
        FinSays(p.t, a, len, now, up);
        SaysBoth(t.snd, PayloadSaid(t, a, up), p.t.snd, FinSaid(p.t, a, len, up), FinPhase(p.t, a, len, now, up).snd);
      }
    }
  }

  lemma AnswerSays(t: Tcb, a: Arrival, up: Upcalls)
    ensures Says(t.snd, AnswerSaid(t, a, up), AnswerToSyn(t, a, up).snd)
  {
    UserStepsSay(Answered(SynTaken(t, a), a), up.connected);
  }

  lemma ReceiveSays(t: Tcb, a: Arrival, now: nat, up: Upcalls)
    requires t.life == Alive
    ensures Says(t.snd, EventSaid(t, Input(a, now, up)), Receive(t, a, now, up).snd)
  {
    if t.state == SynSent {
      AnswerSays(t, a, up);
    } else {
      var p := AckPhase(t, a, now, up);
      AckPhaseSays(t, a, now, up);
      if p.Go? && p.t.life == Alive {
        SeqPhaseSays(p.t, a, now, up);
        SaysBoth(t.snd, AckSaid(t, a, up), p.t.snd, SeqSaid(p.t, a, up), SeqPhase(p.t, a, now, up).snd);
      }
    }
  }

  lemma FireSays(t: Tcb, now: nat)
    ensures Says(t.snd, [], FireStep(t, now).snd)
  {
    var m := t.timers.(armed := false);
    PushSays(t.(timers := m.(retransmit := 0), snd := Retreat(t.snd)), now);
    PushSays(t.(timers := m), now);
  }

  lemma StepSays(t: Tcb, e: Event)
    ensures Says(t.snd, EventSaid(t, e), Step(t, e).snd)
  {
    if t.life == Alive {
      match e
      case Input(a, now, up) =>
        ReceiveSays(t, a, now, up);
        PushSays(Receive(t, a, now, up), now);
      case Fire(now) => FireSays(t, now);
      case App(u) => UserStepSays(t, u);
    }
  }

  // ----------------------------------------------------------------------- runs

  function OpeningSaid(o: Opening): seq<nat> {
    match o
    case Active(_, _) => []
    case Passive(iss, a, script, _) =>
      UsersSaid(Opened(SynReceived, iss, a.wnd * WINDOW_SCALE, Wrap(a.seqno + 1)), script)
  }

  /** Everything the application has said up to the k-th state. */
  function RunSaid(r: Run, k: nat): seq<nat>
    requires |r.states| == |r.events| + 1 && k < |r.states|
  {
    if k == 0 then OpeningSaid(r.opening) else RunSaid(r, k - 1) + EventSaid(r.states[k - 1], r.events[k - 1])
  }

  lemma OpenedSays(state: State, iss: nat, wnd: nat, rcvNxt: nat)
    ensures BytesOf(Opened(state, iss, wnd, rcvNxt).snd.sent) == []
  {
    EnqueueSays(Sender(iss, iss, wnd, 0, 0, [], [], iss, [], 0, []), true, false, []);
  }

  lemma AcceptSays(t: Tcb, a: Arrival, script: seq<User>, now: nat)
    ensures Says(t.snd, UsersSaid(t, script), Accepted(t, a, script, now).snd)
  {
    UserStepsSay(t, script);
    PushSays(UserSteps(t, script), now);
  }

  lemma BeginSays(o: Opening)
    ensures BytesOf(Begin(o).snd.sent) == OpeningSaid(o)
  {
    match o
    case Active(iss, now) =>
      OpenedSays(SynSent, iss, TCP_WND, 0);
      PushSays(Opened(SynSent, iss, TCP_WND, 0), now);
    case Passive(iss, a, script, now) =>
      OpenedSays(SynReceived, iss, a.wnd * WINDOW_SCALE, Wrap(a.seqno + 1));
      AcceptSays(Opened(SynReceived, iss, a.wnd * WINDOW_SCALE, Wrap(a.seqno + 1)), a, script, now);
  }

  lemma FollowsSays(r: Run, k: nat)
    requires |r.states| == |r.events| + 1 && k < |r.states| && Follows(r, k)
    ensures k == 0 ==> BytesOf(r.states[0].snd.sent) == OpeningSaid(r.opening)
    ensures k > 0 ==> Says(r.states[k - 1].snd, EventSaid(r.states[k - 1], r.events[k - 1]), r.states[k].snd)
  {
    if k == 0 {
      BeginSays(r.opening);
    } else {
      StepSays(r.states[k - 1], r.events[k - 1]);
    }
  }

  lemma {:induction false} RunSays(r: Run, k: nat)
    requires IsRun(r) && k < |r.states|
    ensures BytesOf(r.states[k].snd.sent) == RunSaid(r, k)
  {
    if k > 0 {
      RunSays(r, k - 1);
    }
    FollowsSays(r, k);
  }

  lemma BytesBetween(middle: seq<Octet>, tail: seq<Octet>)
    requires (forall i | 0 <= i < |middle| :: middle[i].Byte?) && (tail == [] || tail == [Fin])
    ensures [Syn] + Bytes(BytesOf([Syn] + middle + tail)) + tail == [Syn] + middle + tail
  {
    BytesOfConcat([Syn] + middle, tail);
    BytesOfConcat([Syn], middle);
    assert [Syn][1..] == [] && [Fin][1..] == [];
    assert BytesOf([Syn]) == [] && BytesOf(tail) == [];
    AllBytes(middle);
  }

  /** Shaped octets are rebuilt from their bytes. */
  lemma {:induction false} ShapedIs(sent: seq<Octet>, fin: bool)
    requires Shaped(sent, fin)
    ensures sent == [Syn] + Bytes(BytesOf(sent)) + if fin then [Fin] else []
  {
    var end := |sent| - if fin then 1 else 0;
    var tail: seq<Octet> := if fin then [Fin] else [];
    assert sent == [Syn] + sent[1..end] + tail;
    BytesBetween(sent[1..end], tail);
  }

  lemma {:induction false} AllBytes(o: seq<Octet>)
    requires forall i | 0 <= i < |o| :: o[i].Byte?
    ensures Bytes(BytesOf(o)) == o
  {
    if o != [] {
      AllBytes(o[1..]);
      assert BytesOf(o) == [o[0].b] + BytesOf(o[1..]);
    }
  }

  /** At every point of every run, what has been sent is the SYN, then exactly the bytes
      the application has said, then, once it has let go of the pcb, the FIN. */
  lemma SentIsWhatWasSaid(r: Run, k: nat)
    requires IsRun(r) && k < |r.states| && r.states[k].life == Alive
    ensures r.states[k].snd.sent
      == [Syn] + Bytes(RunSaid(r, k)) + if FinSent(r.states[k].state) then [Fin] else []
  {
    RunGood(r, k);
    RunSays(r, k);
    ShapedIs(r.states[k].snd.sent, FinSent(r.states[k].state));
  }
}
