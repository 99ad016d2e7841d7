/** The connection entry itself: fields that its operations change in place, each
    operation proved to do what the function of module Tcp says. */
module NetTcp {
  import opened TcpSeq
  import O = TcpOutput
  import P = TcpProofs
  import T = Tcp

  class TcpEntry {
    var life: T.Life
    var state: T.State
    var unacked: seq<T.Segment>
    var pending: seq<T.Segment>
    var stash: seq<T.Stashed>
    var sndUna: nat
    var sndNxt: nat
    var sndWnd: nat
    var sndWl1: nat
    var sndWl2: nat
    var rcvNxt: nat
    var rcvWnd: nat
    var rcvLastAcked: nat
    var closeWindow: bool
    var windowNotify: bool
    var retransmit: nat
    var timeWait: nat
    var timerSet: bool
    ghost var iss: nat
    ghost var sent: seq<T.Octet>
    ghost var acked: nat
    ghost var wire: seq<T.Segment>
    ghost var given: seq<nat>
    ghost var finIn: bool
    ghost var told: seq<nat>

    ghost function Snd(): T.Sender
      reads `sndUna, `sndNxt, `sndWnd, `sndWl1, `sndWl2, `unacked, `pending, `iss, `sent, `acked, `wire
    {
      T.Sender(sndUna, sndNxt, sndWnd, sndWl1, sndWl2, unacked, pending, iss, sent, acked, wire)
    }

    ghost function Rcv(): T.Receiver
      reads `rcvNxt, `rcvWnd, `rcvLastAcked, `closeWindow, `stash, `given, `finIn, `told
    {
      T.Receiver(rcvNxt, rcvWnd, rcvLastAcked, closeWindow, stash, given, finIn, told)
    }

    ghost function Tms(): T.Timers
      reads `retransmit, `timeWait, `timerSet
    {
      T.Timers(retransmit, timeWait, timerSet)
    }

    ghost function Value(): T.Tcb
      reads this
    {
      T.Tcb(life, state, Snd(), Rcv(), Tms(), windowNotify)
    }

    /** What every operation that is called from outside keeps: the queue holds exactly
        what is unacknowledged, and what is in flight has a timer. */
    ghost predicate Valid()
      reads this
    {
      P.Good(Value())
    }

    /** Unacknowledged segments are never left without a timer. */
    ghost predicate Rearmed()
      reads this
    {
      life == T.Alive && unacked != [] ==> timerSet && retransmit != 0
    }

    // ----------------------------------------------------------------- timers

    method DisableTimers()
      modifies this`timerSet, this`retransmit, this`timeWait
      ensures Tms() == T.NoTimers()
    {
      timerSet := false;
      retransmit := 0;
      timeWait := 0;
    }

    method SetTimer(now: nat)
      modifies this`timerSet
      ensures Value() == old(Value()).(timers := T.SetTimer(old(Tms()), now))
    {
      if timerSet || (now >= retransmit && now >= timeWait) {
        return;
      }
      timerSet := true;
    }

    method Purge()
      modifies this`unacked, this`pending
      ensures Value() == old(Value()).(snd := T.Purge(old(Snd())))
    {
      unacked := [];
      pending := [];
    }

    /** The connection ends in this state. */
    method Kill(end: T.State)
      modifies this
      ensures Value() == T.Kill(old(Value()), end)
    {
      state := end;
      Purge();
      DisableTimers();
      life := T.Destroyed;
      assert Snd() == T.Purge(old(Snd())) && Rcv() == old(Rcv()) && Tms() == T.NoTimers();
    }

    // ----------------------------------------------------------------- queues

    method EnqueueSegment(syn: bool, fin: bool, data: seq<nat>)
      modifies this`pending, this`sndNxt, this`sent
      ensures Value() == old(Value()).(snd := T.EnqueueSegment(old(Snd()), syn, fin, data))
    {
      var tcpLen := |data| + if syn || fin then 1 else 0;
      var segment := T.Segment(sndNxt, syn, fin, data, T.Short(tcpLen));
      pending := pending + [segment];
      sndNxt := Wrap(sndNxt + tcpLen);
      sent := sent + T.Octets(segment);
    }

    method SendFin()
      modifies this`pending, this`sndNxt, this`sent
      ensures Value() == old(Value()).(snd := T.SendFin(old(Snd())))
    {
      if pending != [] {
        var last := pending[|pending| - 1];
        if !last.syn && !last.fin {
          pending := pending[..|pending| - 1] + [last.(fin := true, tcpLen := T.Short(last.tcpLen + 1))];
          sndNxt := Wrap(sndNxt + 1);
          sent := sent + [T.Fin];
          return;
        }
      }
      EnqueueSegment(false, true, []);
    }

    /** Erases from the front of a queue while segments are completely acknowledged. */
    static method ClearQueue(queue: seq<T.Segment>, ackno: nat) returns (rest: seq<T.Segment>)
      ensures rest == T.DropAcked(queue, ackno)
    {
      rest := queue;
      while rest != []
        invariant T.DropAcked(rest, ackno) == T.DropAcked(queue, ackno)
        decreases |rest|
      {
        if GT(Wrap(rest[0].seqno + rest[0].tcpLen), ackno) {
          break;
        }
        rest := rest[1..];
      }
    }

    method ClearAckedSegments(ackno: nat)
      modifies this`unacked, this`pending, this`timerSet, this`retransmit, this`timeWait
      ensures Value() == T.ClearAcked(old(Value()), ackno)
    {
      ClearQueues(ackno);
      if unacked == [] {
        ghost var s, r := Snd(), Rcv();
        DisableTimers();
        assert Snd() == s && Rcv() == r;
      }
    }

    method ClearQueues(ackno: nat)
      modifies this`unacked, this`pending
      ensures Value() == old(Value()).(snd := T.Clear(old(Snd()), ackno))
    {
      unacked := ClearQueue(unacked, ackno);
      pending := ClearQueue(pending, ackno);
      assert Rcv() == old(Rcv()) && Tms() == old(Tms());
    }

    // ----------------------------------------------------------------- output

    function SendWindowRemaining(): nat
      reads this
    {
      Sub(sndWnd, Sub(sndNxt, sndUna))
    }

    method SendEmptyAck()
      modifies this`rcvLastAcked, this`told
      ensures Value() == old(Value()).(rcv := T.SendEmptyAck(old(Rcv())))
    {
      rcvLastAcked := rcvNxt;
      told := told + [rcvNxt];
    }

    /** How many pending segments the window lets out: all up to the first that ends
        beyond its edge. */
    method CountFitting(edge: nat) returns (count: nat)
      ensures count <= |pending| && (forall i | 0 <= i < count :: LEQ(T.EndOf(pending[i]), edge))
      ensures count < |pending| ==> !LEQ(T.EndOf(pending[count]), edge)
      ensures count == T.Fitting(pending, edge)
    {
      count := 0;
      while count < |pending| && LEQ(Wrap(pending[count].seqno + pending[count].tcpLen), edge)
        invariant 0 <= count <= |pending|
        invariant count + T.Fitting(pending[count..], edge) == T.Fitting(pending, edge)
      {
        assert pending[count..][1..] == pending[count + 1..];
        count := count + 1;
      }
    }

    method Transmit(count: nat)
      requires count <= |pending|
      modifies this`rcvLastAcked, this`unacked, this`pending, this`wire, this`told
      ensures Snd() == T.Transmit(old(Snd()), count) && Rcv() == T.SendAlong(old(Rcv()), count)
    {
      rcvLastAcked := rcvNxt;
      wire, told := wire + pending[..count], told + T.Times(count, rcvNxt);
      unacked, pending := unacked + pending[..count], pending[count..];
    }

    /** Sends the pending segments that end inside the peer's window, and no others. */
    method Output(now: nat)
      modifies this
      ensures Value() == T.OutputStep(old(Value()), now)
      ensures old(Sending()) ==> exists n :: O.WentOut(old(Snd()), old(unacked), old(pending), n, Snd())
    {
      OutputSends(Value(), now);
      var count := CountFitting(Wrap(sndNxt + SendWindowRemaining()));
      if count > 0 {
        Transmit(count);
        retransmit := now + T.RETRANSMIT_AFTER;
      } else if pending != [] && unacked == [] {
        life := T.Halted;
      } else if LT(rcvLastAcked, rcvNxt) {
        SendEmptyAck();
      }
    }

    /** Alive, with a window that a header can say. */
    ghost predicate Sending()
      reads this
    {
      life == T.Alive && P.Tiled(Snd()) && O.Windowed(Snd())
    }

    method Push(now: nat)
      modifies this
      ensures Value() == T.Push(old(Value()), now)
    {
      Output(now);
      if life == T.Alive {
        SetTimer(now);
      }
    }

    /** Everything in flight goes to the front of the pending queue. */
    method Retreat()
      modifies this`unacked, this`pending
      ensures Snd() == T.Retreat(old(Snd()))
    {
      pending := unacked + pending;
      unacked := [];
    }

    method Rewind()
      modifies this`unacked, this`pending, this`retransmit
      ensures Value() == old(Value()).(timers := old(Tms()).(retransmit := 0), snd := T.Retreat(old(Snd())))
    {
      retransmit := 0;
      Retreat();
      assert Rcv() == old(Rcv()) && Tms() == old(Tms()).(retransmit := 0);
    }

    method GiveUp()
      modifies this
      ensures Value() == T.Kill(old(Value()), old(state))
    {
      timerSet, timeWait := false, 0;
      assert Snd() == old(Snd()) && Rcv() == old(Rcv());
      Kill(state);
    }

    method Timeout(now: nat)
      modifies this
      ensures Value() == T.FireStep(old(Value()), now)
    {
      if timeWait != 0 && now >= timeWait {
        GiveUp();
        return;
      }
      timerSet := false;
      if retransmit != 0 && now >= retransmit {
        Rewind();
      }
      Push(now);
    }

    /** Retransmission drops nothing and re-arms the timer. Past the deadline everything in
        flight goes out once more, from its first segment on. */
    method Fire(now: nat)
      modifies this
      ensures Value() == T.FireStep(old(Value()), now)
      ensures old(Valid() && life == T.Alive) ==> Valid() && Rearmed()
      ensures life != T.Destroyed ==> unacked + pending == old(unacked + pending)
      ensures old(Sending()) ==> exists n :: O.Fired(old(Value()), now, n, Value())
    {
      FireSends(Value(), now);
      FireKeepsQueue(Value(), now);
      FireIsSafe(Value(), now);
      Timeout(now);
    }

    // ------------------------------------------------------------ application

    method Close()
      modifies this
      ensures Value() == T.CloseStep(old(Value()))
    {
      match state {
        case CloseWait =>
          SendFin();
          state := T.LastAck;
        case SynReceived | Established =>
          SendFin();
          state := T.FinWait1;
        case _ =>
          life := T.Halted;
      }
    }

    /** The second test is the bound of the model, the source has none. */
    method Send(data: seq<nat>)
      modifies this
      ensures Value() == T.SendStep(old(Value()), data)
    {
      if |data| > SendWindowRemaining() || |data| > T.MAX_SEGMENT {
        life := T.Halted;
      } else if T.Len(unacked + pending) + |data| + 1 >= H {
        life := T.Overrun;
      } else {
        EnqueueSegment(false, false, data);
      }
    }

    method Do(u: T.User)
      modifies this
      ensures Value() == T.UserStep(old(Value()), u)
      ensures old(Valid()) ==> Valid() && Rearmed()
    {
      DoIsSafe(Value(), u);
      if life != T.Alive || !T.Held(state) {
        return;
      }
      match u
      case Send(data) => Send(data);
      case Output(now) => Push(now);
      case Close(now) =>
        Close();
        if life == T.Alive {
          Push(now);
        }
      case OpenWindow => closeWindow, rcvWnd := false, T.TCP_WND;
      case CloseWindow => closeWindow := true;
      case Notify(on) => windowNotify := on;
    }

    /** A call of the handler, which does these things. */
    method Upcall(us: seq<T.User>)
      modifies this
      ensures Value() == T.UserSteps(old(Value()), us)
    {
      var i := 0;
      while i < |us|
        invariant 0 <= i <= |us|
        invariant T.UserSteps(Value(), us[i..]) == T.UserSteps(old(Value()), us)
      {
        assert us[i..][0] == us[i] && us[i..][1..] == us[i + 1..];
        Do(us[i]);
        i := i + 1;
      }
    }

    // ---------------------------------------------------------------- opening

    /** A fresh entry with its SYN, or SYN and ACK, queued. */
    constructor Open(start: T.State, number: nat, wnd: nat, next: nat)
      ensures Value() == T.Opened(start, number, wnd, next)
    {
      life, state, windowNotify := T.Alive, start, false;
      unacked, pending, stash := [], [], [];
      sndUna, sndNxt, sndWnd, sndWl1, sndWl2 := number, number, wnd, 0, 0;
      rcvNxt, rcvWnd, rcvLastAcked, closeWindow := next, T.TCP_WND, 0, false;
      retransmit, timeWait, timerSet := 0, 0, false;
      iss, sent, acked, wire, given, finIn, told := number, [], 0, [], [], false, [];
      new;
      EnqueueSegment(true, false, []);
    }

    static method Connect(number: nat, now: nat) returns (entry: TcpEntry)
      ensures fresh(entry) && entry.Value() == T.Connect(number, now)
      ensures number < M ==> entry.Valid() && entry.Rearmed()
    {
      if number < M { P.BeginGood(P.Active(number, now)); }
      entry := new TcpEntry.Open(T.SynSent, number, T.TCP_WND, 0);
      entry.Push(now);
    }

    static method Accept(number: nat, a: T.Arrival, script: seq<T.User>, now: nat) returns (entry: TcpEntry)
      ensures fresh(entry) && entry.Value() == T.Accept(number, a, script, now)
      ensures number < M ==> entry.Valid() && entry.Rearmed()
    {
      AcceptIsSafe(number, a, script, now);
      entry := new TcpEntry.Open(T.SynReceived, number, a.wnd * T.WINDOW_SCALE, Wrap(a.seqno + 1));
      entry.AnswerSyn(a, script, now);
    }

    /** The application is told, then the answer goes out. */
    method AnswerSyn(a: T.Arrival, script: seq<T.User>, now: nat)
      modifies this
      ensures Value() == T.Accepted(old(Value()), a, script, now)
    {
      Upcall(script);
      if life == T.Alive {
        if a.TcpLen() > 1 {
          life := T.Halted;
        } else {
          Push(now);
        }
      }
    }

    // ------------------------------------------------------------------ input

    method TakeWindow(a: T.Arrival)
      modifies this`sndWnd, this`sndWl1, this`sndWl2
      ensures Snd() == T.TakeWindow(old(Snd()), a)
    {
      sndWnd, sndWl1, sndWl2 := a.wnd * T.WINDOW_SCALE, a.seqno, a.ackno;
    }

    method TakeAck(ackno: nat)
      modifies this`sndUna, this`acked
      ensures Snd() == T.TakeAck(old(Snd()), ackno)
    {
      acked := acked + Sub(ackno, sndUna);
      sndUna := ackno;
    }

    method TakeSyn(a: T.Arrival)
      modifies this`rcvNxt, this`rcvLastAcked
      ensures Value() == old(Value()).(rcv := old(Rcv()).(nxt := Wrap(a.seqno + 1), lastAcked := a.seqno))
    {
      rcvNxt, rcvLastAcked := Wrap(a.seqno + 1), a.seqno;
    }

    method Establish(a: T.Arrival)
      modifies this`sndUna, this`acked, this`state, this`sndWnd, this`sndWl1, this`sndWl2
      ensures Value() == old(Value()).(state := T.Established, snd := T.TakeWindow(T.TakeAck(old(Snd()), a.ackno), a))
    {
      TakeAck(a.ackno);
      state := T.Established;
      TakeWindow(a);
    }

    /** Our SYN is acknowledged by the peer's. */
    method Answered(a: T.Arrival)
      modifies this
      ensures Value() == T.Answered(old(Value()), a)
    {
      Establish(a);
      ClearAckedSegments(a.ackno);
    }

    method AnswerToSyn(a: T.Arrival, up: T.Upcalls)
      modifies this
      ensures Value() == T.AnswerToSyn(old(Value()), a, up)
    {
      if a.ack && (LEQ(a.ackno, sndUna) || GT(a.ackno, sndNxt)) {
        if !a.rst {
          Kill(T.Closed);
        }
        return;
      }
      if a.rst {
        if a.ack {
          Kill(T.Closed);
        }
        return;
      }
      if a.syn {
        TakeSyn(a);
        if !a.ack || a.TcpLen() > 1 {
          life := T.Halted;
          return;
        }
        Answered(a);
        Upcall(up.connected);
      }
    }

    method TakeAckAndWindow(a: T.Arrival)
      modifies this`sndUna, this`acked, this`sndWnd, this`sndWl1, this`sndWl2
      ensures Snd() == T.TakeAckAndWindow(old(Snd()), a)
    {
      TakeAck(a.ackno);
      if Between(a.ackno, Wrap(sndUna + 1), sndNxt)
         || LT(sndWl1, a.seqno)
         || (sndWl1 == a.seqno && LEQ(sndWl2, a.ackno))
      {
        TakeWindow(a);
      }
    }

    method Acknowledge(a: T.Arrival, up: T.Upcalls)
      modifies this
      ensures Value() == T.Acknowledge(old(Value()), a, up)
    {
      TakeAckAndWindow(a);
      assert Value() == old(Value()).(snd := T.TakeAckAndWindow(old(Snd()), a));
      ClearAckedSegments(a.ackno);
      if windowNotify {
        Upcall(up.window);
      }
    }

    method EnterTimeWait(now: nat)
      modifies this`timerSet, this`retransmit, this`timeWait, this`state
      ensures Value() == old(Value()).(timers := T.Timers(0, now + T.TIME_WAIT_FOR, false), state := T.TimeWait)
    {
      DisableTimers();
      timeWait := now + T.TIME_WAIT_FOR;
      state := T.TimeWait;
    }

    method AfterAck(a: T.Arrival, now: nat)
      modifies this
      ensures Value() == T.AfterAck(old(Value()), a, now)
    {
      if life == T.Alive && a.ackno == sndNxt {
        if state == T.FinWait1 {
          state := T.FinWait2;
        } else if state == T.Closing {
          Purge();
          EnterTimeWait(now);
        }
      }
    }

    ghost function Going(go: bool): T.Progress
      reads this
    {
      if go then T.Go(Value()) else T.Stop(Value())
    }

    method AckConnected(a: T.Arrival, now: nat, up: T.Upcalls) returns (go: bool)
      modifies this
      ensures Going(go) == T.AckConnected(old(Value()), a, now, up)
    {
      go := true;
      if Between(a.ackno, sndUna, sndNxt) {
        Acknowledge(a, up);
        AfterAck(a, now);
      } else if GT(a.ackno, sndNxt) {
        SendEmptyAck();
        go := false;
      } else {
        AfterAck(a, now);
      }
    }

    method EstablishPassive(a: T.Arrival)
      modifies this`state, this`sndWnd, this`sndWl1, this`sndWl2
      ensures Value() == old(Value()).(state := T.Established, snd := T.TakeWindow(old(Snd()), a))
    {
      state := T.Established;
      TakeWindow(a);
      assert Rcv() == old(Rcv()) && Tms() == old(Tms());
    }

    method AckPhase(a: T.Arrival, now: nat, up: T.Upcalls) returns (go: bool)
      modifies this
      ensures Going(go) == T.AckPhase(old(Value()), a, now, up)
    {
      go := true;
      if GEQ(a.seqno, rcvNxt) && a.ack && !a.syn && !a.rst {
        if state == T.SynReceived {
          if !Between(a.ackno, Wrap(sndUna + 1), sndNxt) {
            return false;
          }
          EstablishPassive(a);
        }
        if state == T.LastAck {
          if a.ackno == sndNxt {
            Kill(T.Closed);
            go := false;
          }
        } else if state != T.TimeWait {
          go := AckConnected(a, now, up);
        }
      }
    }

    // ------------------------------------------------------------------ stash

    /** emplace, unless the key is taken. */
    method StashSegment(key: nat, data: seq<nat>)
      modifies this`stash
      ensures stash == T.Stash(old(stash), T.Stashed(key, data))
    {
      var i := 0;
      while i < |stash| && stash[i].key < key
        invariant 0 <= i <= |stash|
        invariant forall j | 0 <= j < i :: stash[j].key < key
      {
        i := i + 1;
      }
      StashAt(stash, i, T.Stashed(key, data));
      if i == |stash| || stash[i].key != key {
        stash := stash[..i] + [T.Stashed(key, data)] + stash[i..];
      }
    }

    /** The ascending pass that takes what follows `next`. */
    method DrainStash(next: nat) returns (drained: seq<nat>)
      modifies this`stash
      ensures drained == T.Drained(old(stash), next) && stash == T.Undrained(old(stash), next)
    {
      drained := [];
      var i, end: nat := 0, next;
      ghost var kept, rest := [], stash;
      while i < |stash|
        invariant 0 <= i == |kept| && stash == kept + rest
        invariant drained + T.Drained(rest, end) == T.Drained(old(stash), next)
        invariant kept + T.Undrained(rest, end) == T.Undrained(old(stash), next)
        decreases |rest|
      {
        assert stash[i] == rest[0];
        if stash[i].key == end {
          drained, end := drained + stash[i].data, end + |stash[i].data|;
          stash := stash[..i] + stash[i + 1..];
        } else {
          i, kept := i + 1, kept + [rest[0]];
        }
        rest := rest[1..];
      }
    }

    /** An arrival that starts later is kept, and the peer told what is missing. */
    method KeepSegment(a: T.Arrival)
      modifies this`stash, this`rcvLastAcked, this`told
      ensures Value() == old(Value()).(rcv :=
        T.SendEmptyAck(old(Rcv()).(stash := T.Stash(old(stash), T.Stashed(a.seqno, a.payload)))))
    {
      StashSegment(a.seqno, a.payload);
      SendEmptyAck();
    }

    method TakePayload(payload: seq<nat>)
      requires |T.Drained(stash, rcvNxt + |payload|)| <= rcvWnd
      modifies this`stash, this`rcvNxt, this`rcvWnd, this`given
      ensures Rcv() == T.Take(old(Rcv()), payload)
    {
      var bytes := Assemble(payload);
      rcvNxt := Wrap(rcvNxt + |bytes|);
      if closeWindow {
        rcvWnd := rcvWnd - |bytes|;
      }
      given := given + bytes;
    }

    /** The payload with what it makes deliverable, trimmed to the window. */
    method Assemble(payload: seq<nat>) returns (bytes: seq<nat>)
      requires |T.Drained(stash, rcvNxt + |payload|)| <= rcvWnd
      modifies this`stash
      ensures bytes == T.Coalesced(old(Rcv()), payload) && stash == T.Undrained(old(stash), rcvNxt + |payload|)
    {
      var drained := DrainStash(rcvNxt + |payload|);
      var head := payload;
      if |payload| + |drained| > rcvWnd {
        head := head[..|head| - (|payload| + |drained| - rcvWnd)];
      }
      bytes := head + drained;
    }

    method Deliver(payload: seq<nat>, us: seq<T.User>)
      requires |T.Drained(stash, rcvNxt + |payload|)| <= rcvWnd
      modifies this
      ensures Value() == T.UserSteps(old(Value()).(rcv := T.Take(old(Rcv()), payload)), us)
    {
      TakePayload(payload);
      Upcall(us);
    }

    method PayloadPhase(a: T.Arrival, up: T.Upcalls) returns (go: bool)
      modifies this
      ensures Going(go) == T.PayloadPhase(old(Value()), a, up)
    {
      go := true;
      if a.payload != [] {
        if state == T.Established {
          if GT(a.seqno, rcvNxt) {
            KeepSegment(a);
            go := false;
          } else if |T.Drained(stash, rcvNxt + |a.payload|)| > rcvWnd {
            life := T.Halted;
            go := false;
          } else {
            Deliver(a.payload, up.data);
          }
        } else if state == T.FinWait1 || state == T.FinWait2 {
          Kill(T.Closed);
          go := false;
        }
      }
    }

    method TakeFin(next: nat)
      modifies this`rcvNxt, this`finIn
      ensures Value() == old(Value()).(rcv := old(Rcv()).(nxt := next, finIn := true))
    {
      rcvNxt := next;
      finIn := true;
    }

    method AfterFin(now: nat, up: T.Upcalls)
      modifies this
      ensures Value() == T.AfterFin(old(Value()), now, up)
    {
      match state {
        case Established | SynReceived =>
          state := T.CloseWait;
          Upcall(up.close);
        case FinWait1 =>
          state := T.Closing;
        case FinWait2 | TimeWait =>
          EnterTimeWait(now);
        case _ =>
      }
    }

    method FinPhase(a: T.Arrival, len: nat, now: nat, up: T.Upcalls)
      modifies this
      ensures Value() == T.FinPhase(old(Value()), a, len, now, up)
    {
      if life == T.Alive && a.fin {
        TakeFin(Wrap(a.seqno + len));
        AfterFin(now, up);
      }
    }

    /** The payload, then the FIN. */
    method TakeIn(a: T.Arrival, now: nat, up: T.Upcalls)
      modifies this
      ensures Value() == T.TakeIn(old(Value()), a, now, up)
    {
      var cut := a.payload != [] && state == T.Established
                 && |a.payload| + |T.Drained(stash, rcvNxt + |a.payload|)| > rcvWnd;
      var go := PayloadPhase(a, up);
      if go {
        FinPhase(a, if cut && a.fin then a.TcpLen() - 1 else a.TcpLen(), now, up);
      }
    }

    method SeqPhase(a: T.Arrival, now: nat, up: T.Upcalls)
      modifies this
      ensures Value() == T.SeqPhase(old(Value()), a, now, up)
    {
      if (rcvWnd > 0 && Between(a.seqno, rcvNxt, Wrap(rcvNxt + rcvWnd))) || (a.TcpLen() == 0 && a.seqno == rcvNxt) {
        if a.rst || a.syn {
          Kill(T.Closed);
        } else if a.ack && a.urg {
          life := T.Halted;
        } else if a.ack {
          TakeIn(a, now, up);
        }
      } else if pending == [] && !a.rst {
        SendEmptyAck();
      }
    }

    /** Whether the connection is still there afterwards. */
    method Receive(a: T.Arrival, now: nat, up: T.Upcalls) returns (alive: bool)
      modifies this
      ensures Value() == T.Receive(old(Value()), a, now, up) && alive == (life == T.Alive)
    {
      if state == T.SynSent {
        AnswerToSyn(a, up);
      } else {
        var go := AckPhase(a, now, up);
        if go && life == T.Alive {
          SeqPhase(a, now, up);
        }
      }
      alive := life == T.Alive;
    }

    method Input(a: T.Arrival, now: nat, up: T.Upcalls)
      modifies this
      ensures Value() == T.InputStep(old(Value()), a, now, up)
      ensures old(Valid() && life == T.Alive) && P.WellFormed(a) ==> Valid() && Rearmed()
    {
      InputIsSafe(Value(), a, now, up);
      var alive := Receive(a, now, up);
      if alive {
        Push(now);
      }
    }
  }

  lemma AcceptIsSafe(number: nat, a: T.Arrival, script: seq<T.User>, now: nat)
    ensures number < M ==> P.Good(T.Accept(number, a, script, now))
  {
    if number < M { P.BeginGood(P.Passive(number, a, script, now)); }
  }

  lemma OutputSends(t: T.Tcb, now: nat)
    ensures t.life == T.Alive && P.Tiled(t.snd) && O.Windowed(t.snd) ==>
      exists n :: O.WentOut(t.snd, t.snd.unacked, t.snd.pending, n, T.OutputStep(t, now).snd)
  {
    if t.life == T.Alive && P.Tiled(t.snd) && O.Windowed(t.snd) { var n := O.OutputMeaning(t, now); }
  }

  lemma FireSends(t: T.Tcb, now: nat)
    ensures t.life == T.Alive && P.Tiled(t.snd) && O.Windowed(t.snd) ==>
      exists n :: O.Fired(t, now, n, T.FireStep(t, now))
  {
    if t.life == T.Alive && P.Tiled(t.snd) && O.Windowed(t.snd) { var n := O.FireMeaning(t, now); }
  }

  lemma FireIsSafe(t: T.Tcb, now: nat)
    ensures P.Good(t) && t.life == T.Alive ==> P.Good(T.FireStep(t, now))
  {
    if P.Good(t) && t.life == T.Alive { P.FireKeeps(t, now); }
  }

  lemma FireKeepsQueue(t: T.Tcb, now: nat)
    ensures T.FireStep(t, now).life != T.Destroyed ==> T.FireStep(t, now).snd.Queue() == t.snd.Queue()
  {
    var m := t.timers.(armed := false);
    if m.timeWait != 0 && now >= m.timeWait {
    } else if m.retransmit != 0 && now >= m.retransmit {
      PushKeepsQueue(t.(timers := m.(retransmit := 0), snd := T.Retreat(t.snd)), now);
    } else {
      PushKeepsQueue(t.(timers := m), now);
    }
  }

  lemma PushKeepsQueue(t: T.Tcb, now: nat)
    ensures T.Push(t, now).snd.Queue() == t.snd.Queue()
  {
    P.OutputMoves(t, now);
  }

  lemma DoIsSafe(t: T.Tcb, u: T.User)
    ensures P.Good(t) ==> P.Good(T.UserStep(t, u))
  {
    if P.Good(t) { P.UserStepKeeps(t, u); }
  }

  lemma InputIsSafe(t: T.Tcb, a: T.Arrival, now: nat, up: T.Upcalls)
    ensures P.Good(t) && t.life == T.Alive && P.WellFormed(a) ==> P.Good(T.InputStep(t, a, now, up))
  {
    if P.Good(t) && t.life == T.Alive && P.WellFormed(a) { P.InputKeeps(t, a, now, up); }
  }

  lemma {:induction false} InsertedBehind(s: seq<T.Stashed>, i: nat, e: T.Stashed)
    requires 0 < i <= |s|
    ensures [s[0]] + (s[1..][..i - 1] + [e] + s[1..][i - 1..]) == s[..i] + [e] + s[i..]
  {
    assert s[1..][..i - 1] == s[1..i] && s[1..][i - 1..] == s[i..];
    assert [s[0]] + s[1..i] == s[..i];
  }

  /** Where an ordered map puts an entry. */
  lemma {:induction false} StashAt(s: seq<T.Stashed>, i: nat, e: T.Stashed)
    requires i <= |s| && (forall j | 0 <= j < i :: s[j].key < e.key) && (i < |s| ==> s[i].key >= e.key)
    ensures T.Stash(s, e) == if i == |s| || s[i].key != e.key then s[..i] + [e] + s[i..] else s
  {
    if i == 0 {
      assert s[..0] + [e] + s[0..] == [e] + s;
    } else {
      StashAt(s[1..], i - 1, e);
      InsertedBehind(s, i, e);
      assert [s[0]] + s[1..] == s;
    }
  }
}
