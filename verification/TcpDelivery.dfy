/** In-order delivery: the application is given a prefix of what the peer sent. */
module TcpDelivery {
  import opened TcpSeq
  import opened Tcp
  import opened TcpProofs
  import opened TcpInput
  import opened Sequences

  /** Numbering from the peer's initial sequence number, neither the stream nor a
      window into it wraps. */
  predicate NoWrap(irs: nat, stream: seq<nat>) {
    irs + 1 + |stream| < M && |stream| + TCP_WND < M
  }

  /** These bytes are what the peer's stream has at this number. */
  predicate Slice(irs: nat, stream: seq<nat>, key: nat, data: seq<nat>) {
    irs + 1 <= key && key - (irs + 1) + |data| <= |stream|
    && data == stream[key - (irs + 1)..key - (irs + 1) + |data|]
  }

  predicate FromPeer(a: Arrival, irs: nat, stream: seq<nat>) {
    WellFormed(a) && (a.payload != [] ==> Slice(irs, stream, a.seqno, a.payload)) && (a.syn ==> a.seqno == irs)
  }

  predicate Slices(s: seq<Stashed>, irs: nat, stream: seq<nat>) {
    s == [] || (s[0].data != [] && Slice(irs, stream, s[0].key, s[0].data) && Slices(s[1..], irs, stream))
  }

  /** The order in which a std::map iterates, with no key below lo. */
  predicate Ascending(s: seq<Stashed>, lo: nat) {
    s == [] || (lo <= s[0].key && s[0].data != [] && Ascending(s[1..], s[0].key + 1))
  }

  predicate Ordered(r: Receiver, irs: nat, stream: seq<nat>) {
    r.nxt == irs + 1 + |r.given| && r.given <= stream && Slices(r.stash, irs, stream) && Ascending(r.stash, 0)
  }

  /** Until a FIN is taken in. */
  predicate Delivering(t: Tcb, irs: nat, stream: seq<nat>) {
    t.life == Alive && !t.rcv.finIn ==>
      if t.state == SynSent then t.rcv.given == [] && t.rcv.stash == [] else Ordered(t.rcv, irs, stream)
  }

  // -------------------------------------------------------------------- stash

  predicate HasKey(s: seq<Stashed>, key: nat) {
    s != [] && (s[0].key == key || HasKey(s[1..], key))
  }

  lemma {:induction false} StashKeeps(s: seq<Stashed>, e: Stashed, irs: nat, stream: seq<nat>, lo: nat)
    requires Slices(s, irs, stream) && Ascending(s, lo) && lo <= e.key
    requires e.data != [] && Slice(irs, stream, e.key, e.data)
    ensures Slices(Stash(s, e), irs, stream) && Ascending(Stash(s, e), lo)
  {
    if s == [] || e.key < s[0].key {
      assert ([e] + s)[1..] == s;
    } else if e.key > s[0].key {
      StashKeeps(s[1..], e, irs, stream, s[0].key + 1);
      assert ([s[0]] + Stash(s[1..], e))[1..] == Stash(s[1..], e);
    }
  }

  /** What one pass takes is what the stream has next. */
  lemma {:induction false} DrainedIsNext(s: seq<Stashed>, irs: nat, stream: seq<nat>, next: nat)
    requires Slices(s, irs, stream) && irs + 1 <= next <= irs + 1 + |stream|
    ensures Slice(irs, stream, next, Drained(s, next))
  {
    if s != [] {
      if s[0].key == next {
        var d := s[0].data;
        DrainedIsNext(s[1..], irs, stream, next + |d|);
        JoinSlices(irs, stream, next, d, Drained(s[1..], next + |d|));
      } else {
        DrainedIsNext(s[1..], irs, stream, next);
      }
    }
  }

  lemma JoinSlices(irs: nat, stream: seq<nat>, at: nat, x: seq<nat>, y: seq<nat>)
    requires Slice(irs, stream, at, x) && Slice(irs, stream, at + |x|, y)
    ensures Slice(irs, stream, at, x + y)
  {
  }

  lemma {:induction false} UndrainedKeeps(s: seq<Stashed>, irs: nat, stream: seq<nat>, next: nat, lo: nat)
    requires Slices(s, irs, stream) && Ascending(s, lo)
    ensures Slices(Undrained(s, next), irs, stream) && Ascending(Undrained(s, next), lo)
  {
    if s != [] {
      if s[0].key == next {
        UndrainedKeeps(s[1..], irs, stream, next + |s[0].data|, s[0].key + 1);
        LowerBound(Undrained(s, next), s[0].key + 1, lo);
      } else {
        UndrainedKeeps(s[1..], irs, stream, next, s[0].key + 1);
        assert ([s[0]] + Undrained(s[1..], next))[1..] == Undrained(s[1..], next);
      }
    }
  }

  lemma LowerBound(s: seq<Stashed>, hi: nat, lo: nat)
    requires Ascending(s, hi) && lo <= hi
    ensures Ascending(s, lo)
  {
  }

  lemma {:induction false} KeysAbove(s: seq<Stashed>, lo: nat, key: nat)
    requires Ascending(s, lo) && HasKey(s, key)
    ensures lo <= key
  {
    if s[0].key != key {
      KeysAbove(s[1..], s[0].key + 1, key);
    }
  }

  lemma {:induction false} DrainedNeedsKey(s: seq<Stashed>, next: nat)
    requires Drained(s, next) != []
    ensures HasKey(s, next)
  {
    if s[0].key != next {
      DrainedNeedsKey(s[1..], next);
    }
  }

  /** One ascending pass is enough: nothing that could follow is left behind. */
  lemma {:induction false} OnePassIsEnough(s: seq<Stashed>, next: nat, lo: nat)
    requires Ascending(s, lo)
    ensures !HasKey(Undrained(s, next), next + |Drained(s, next)|)
  {
    if s != [] {
      if s[0].key == next {
        OnePassIsEnough(s[1..], next + |s[0].data|, s[0].key + 1);
      } else {
        OnePassIsEnough(s[1..], next, s[0].key + 1);
        assert ([s[0]] + Undrained(s[1..], next))[1..] == Undrained(s[1..], next);
        if Drained(s[1..], next) != [] {
          DrainedNeedsKey(s[1..], next);
          KeysAbove(s[1..], s[0].key + 1, next);
        }
      }
    }
  }

  // ----------------------------------------------------------------- trimming

  /** Trimming the tail keeps the order exactly when nothing had come off the stash:
      the bytes that go are those of the arrival, in front of the stashed ones. */
  lemma TrimmedInOrderIff(payload: seq<nat>, drained: seq<nat>, wnd: nat)
    requires |drained| <= wnd
    ensures |payload| + |drained| <= wnd || drained == [] ==> Trimmed(payload, drained, wnd) <= payload + drained
    ensures Distinct(payload + drained) ==>
      (Trimmed(payload, drained, wnd) <= payload + drained <==> |payload| + |drained| <= wnd || drained == [])
  {
    var p, all := Trimmed(payload, drained, wnd), payload + drained;
    if |payload| + |drained| > wnd && drained != [] {
      var cut := wnd - |drained|;
      assert p[cut] == all[|payload|] && all[cut] == payload[cut];
    }
  }

  /** The window holds all that becomes deliverable, or only the arrival itself. */
  predicate Fits(r: Receiver, a: Arrival) {
    var drained := Drained(r.stash, r.nxt + |a.payload|);
    |drained| <= r.wnd && (|a.payload| + |drained| <= r.wnd || drained == [])
  }

  lemma GivenGrows(given: seq<nat>, irs: nat, stream: seq<nat>, more: seq<nat>, bytes: seq<nat>)
    requires given <= stream && Slice(irs, stream, irs + 1 + |given|, more) && bytes <= more
    ensures given + bytes <= stream
  {
  }

  lemma CoalescedIsNext(r: Receiver, payload: seq<nat>, irs: nat, stream: seq<nat>)
    requires Ordered(r, irs, stream) && Slice(irs, stream, r.nxt, payload)
    requires var d := Drained(r.stash, r.nxt + |payload|);
      |d| <= r.wnd && (|payload| + |d| <= r.wnd || d == [])
    ensures r.given + Coalesced(r, payload) <= stream
  {
    var drained := Drained(r.stash, r.nxt + |payload|);
    DrainedIsNext(r.stash, irs, stream, r.nxt + |payload|);
    JoinSlices(irs, stream, r.nxt, payload, drained);
    TrimmedInOrderIff(payload, drained, r.wnd);
    GivenGrows(r.given, irs, stream, payload + drained, Coalesced(r, payload));
  }

  /** An in-sequence arrival extends the prefix, and the numbers keep count. */
  lemma TakeOrdered(r: Receiver, a: Arrival, irs: nat, stream: seq<nat>)
    requires NoWrap(irs, stream) && Ordered(r, irs, stream) && Fits(r, a)
    requires Slice(irs, stream, r.nxt, a.payload)
    ensures Ordered(Take(r, a.payload), irs, stream)
  {
    UndrainedKeeps(r.stash, irs, stream, r.nxt + |a.payload|, 0);
    CoalescedIsNext(r, a.payload, irs, stream);
    var bytes := Coalesced(r, a.payload);
    assert |r.given| + |bytes| <= |stream|;
    WrapCase(r.nxt + |bytes|, 0);
    assert Take(r, a.payload).given == r.given + bytes;
  }

  /** If the window holds all that became deliverable, nothing that is left in the
      stash starts at the next byte expected. */
  lemma NothingWaits(r: Receiver, payload: seq<nat>)
    requires Ascending(r.stash, 0) && r.nxt + |payload| + |Drained(r.stash, r.nxt + |payload|)| < M
    requires |payload| + |Drained(r.stash, r.nxt + |payload|)| <= r.wnd
    ensures !HasKey(Take(r, payload).stash, Take(r, payload).nxt)
  {
    OnePassIsEnough(r.stash, r.nxt + |payload|, 0);
    WrapCase(r.nxt + |Coalesced(r, payload)|, 0);
  }

  // --------------------------------------------------------------------- steps

  /** The front of an arrival is never trimmed: one that starts before the next byte
      expected is not in the window. */
  lemma NoFrontTrim(r: Receiver, a: Arrival)
    requires r.nxt < M && a.seqno < M && r.wnd < H && InWindow(r, a)
    ensures !GT(r.nxt, a.seqno)
  {
    WrapCase(r.nxt, 0);
    WrapCase(a.seqno, 0);
    SubWrap(r.nxt + r.wnd, r.nxt);
    WrapCase(r.wnd, 0);
    WrapCase(a.seqno - r.nxt, if a.seqno < r.nxt then -1 else 0);
    WrapCase(r.nxt - a.seqno, if r.nxt < a.seqno then -1 else 0);
  }

  lemma InWindowMeans(r: Receiver, a: Arrival, irs: nat, stream: seq<nat>)
    requires NoWrap(irs, stream) && FromPeer(a, irs, stream) && a.payload != [] && r.wnd <= TCP_WND
    requires Ordered(r, irs, stream) && InWindow(r, a)
    ensures r.nxt <= a.seqno && (GT(a.seqno, r.nxt) <==> a.seqno > r.nxt)
  {
    WrapCase(r.nxt, 0);
    SubWrap(r.nxt + r.wnd, r.nxt);
    WrapCase(r.wnd, 0);
    WrapCase(a.seqno - r.nxt, if a.seqno < r.nxt then -1 else 0);
  }

  /** What an arrival must meet where the connection takes it in. */
  predicate Taken(t: Tcb, a: Arrival) {
    t.state == Established && a.payload != [] && InWindow(t.rcv, a) && !GT(a.seqno, t.rcv.nxt)
  }

  lemma TakeDelivers(t: Tcb, a: Arrival, us: seq<User>, irs: nat, stream: seq<nat>)
    requires Good(t) && t.life == Alive && t.state == Established && Delivering(t, irs, stream)
    requires NoWrap(irs, stream) && FromPeer(a, irs, stream) && Taken(t, a) && Fits(t.rcv, a)
    ensures Delivering(UserSteps(t.(rcv := Take(t.rcv, a.payload)), us), irs, stream)
  {
    var u := t.(rcv := Take(t.rcv, a.payload));
    if !t.rcv.finIn {
      InWindowMeans(t.rcv, a, irs, stream);
      TakeOrdered(t.rcv, a, irs, stream);
    }
    ReceiverKeeps(t, u.rcv);
    AppDelivers(u, us, irs, stream);
  }

  /** Nothing the application does changes what it has been given. */
  lemma AppDelivers(t: Tcb, us: seq<User>, irs: nat, stream: seq<nat>)
    requires Good(t) && t.state != SynSent && Delivering(t, irs, stream)
    ensures Delivering(UserSteps(t, us), irs, stream) && UserSteps(t, us).state != SynSent
  {
    UserStepsKeep(t, us);
    StaysOpen(t, us);
  }

  lemma PayloadDelivers(t: Tcb, a: Arrival, up: Upcalls, irs: nat, stream: seq<nat>)
    requires Good(t) && t.life == Alive && t.state != SynSent && Delivering(t, irs, stream)
    requires NoWrap(irs, stream) && FromPeer(a, irs, stream) && InWindow(t.rcv, a) && (Taken(t, a) ==> Fits(t.rcv, a))
    ensures var p := PayloadPhase(t, a, up).t; Delivering(p, irs, stream) && p.state != SynSent
  {
    if a.payload != [] && t.state == Established {
      if !GT(a.seqno, t.rcv.nxt) {
        TakeDelivers(t, a, up.data, irs, stream);
        StaysOpen(t.(rcv := Take(t.rcv, a.payload)), up.data);
      } else if !t.rcv.finIn {
        InWindowMeans(t.rcv, a, irs, stream);
        StashKeeps(t.rcv.stash, Stashed(a.seqno, a.payload), irs, stream, 0);
      }
    }
  }

  /** The application cannot bring back the state before the SYN was answered. */
  lemma {:induction false} StaysOpen(t: Tcb, us: seq<User>)
    requires t.state != SynSent
    ensures UserSteps(t, us).state != SynSent
    decreases |us|
  {
    if us != [] {
      StaysOpen(UserStep(t, us[0]), us[1..]);
    }
  }

  lemma AnswerDelivers(t: Tcb, a: Arrival, up: Upcalls, irs: nat, stream: seq<nat>)
    requires Good(t) && t.life == Alive && t.state == SynSent && Delivering(t, irs, stream)
    requires NoWrap(irs, stream) && FromPeer(a, irs, stream)
    ensures Delivering(AnswerToSyn(t, a, up), irs, stream)
  {
    if a.syn && a.ack && !a.rst && !LEQ(a.ackno, t.snd.una) && !GT(a.ackno, t.snd.nxt) && a.TcpLen() <= 1 {
      WrapCase(a.seqno + 1, 0);
      ReceiverKeeps(t, SynTaken(t, a).rcv);
      AnsweredGood(SynTaken(t, a), a);
      AppDelivers(Answered(SynTaken(t, a), a), up.connected, irs, stream);
    }
  }

  lemma AckConnectedStaysOpen(t: Tcb, a: Arrival, now: nat, up: Upcalls)
    requires t.state != SynSent
    ensures AckConnected(t, a, now, up).t.state != SynSent
  {
    StaysOpen(ClearAcked(t.(snd := TakeAckAndWindow(t.snd, a)), a.ackno), up.window);
  }

  lemma AckStaysOpen(t: Tcb, a: Arrival, now: nat, up: Upcalls)
    requires t.state != SynSent
    ensures AckPhase(t, a, now, up).t.state != SynSent
  {
    AckConnectedStaysOpen(t, a, now, up);
    AckConnectedStaysOpen(t.(state := Established, snd := TakeWindow(t.snd, a)), a, now, up);
  }

  /** What has arrived is what it was, and so is what was delivered. */
  lemma SameDelivers(t: Tcb, p: Tcb, irs: nat, stream: seq<nat>)
    requires t.life == Alive && t.state != SynSent && Delivering(t, irs, stream)
    requires SameArrived(t.rcv, p.rcv) && p.state != SynSent
    ensures Delivering(p, irs, stream)
  {
  }

  lemma AckDelivers(t: Tcb, a: Arrival, now: nat, up: Upcalls, irs: nat, stream: seq<nat>)
    requires Good(t) && t.life == Alive && t.state != SynSent && Delivering(t, irs, stream) && WellFormed(a)
    ensures var p := AckPhase(t, a, now, up).t; Delivering(p, irs, stream) && p.state != SynSent
  {
    var p := AckPhase(t, a, now, up).t;
    assert SameArrived(t.rcv, p.rcv) by { AckPhaseKeeps(t, a, now, up); }
    AckStaysOpen(t, a, now, up);
    SameDelivers(t, p, irs, stream);
  }

  lemma SeqDelivers(t: Tcb, a: Arrival, now: nat, up: Upcalls, irs: nat, stream: seq<nat>)
    requires Good(t) && t.life == Alive && t.state != SynSent && Delivering(t, irs, stream)
    requires NoWrap(irs, stream) && FromPeer(a, irs, stream) && (Taken(t, a) ==> Fits(t.rcv, a))
    ensures Delivering(SeqPhase(t, a, now, up), irs, stream)
  {
    if InWindow(t.rcv, a) {
      PayloadDelivers(t, a, up, irs, stream);
      PayloadPhaseKeeps(t, a, up);
      var p := PayloadPhase(t, a, up).t;
      FinDelivers(p, a, if Cut(t, a) && a.fin then a.TcpLen() - 1 else a.TcpLen(), now, up, irs, stream);
    }
  }

  lemma FinDelivers(t: Tcb, a: Arrival, len: nat, now: nat, up: Upcalls, irs: nat, stream: seq<nat>)
    requires Good(t) && Delivering(t, irs, stream)
    ensures Delivering(FinPhase(t, a, len, now, up), irs, stream)
  {
    if t.life == Alive && a.fin && (t.state == Established || t.state == SynReceived) {
      var r := t.rcv.(nxt := Wrap(a.seqno + len), finIn := true);
      ReceiverKeeps(t, r);
      FinMoves(t.(rcv := r), CloseWait, t.timers);
      UserStepsKeep(t.(rcv := r, state := CloseWait), up.close);
    }
  }

  lemma PushDelivers(t: Tcb, now: nat, irs: nat, stream: seq<nat>)
    requires Good(t) && t.life == Alive && Delivering(t, irs, stream)
    ensures Delivering(Push(t, now), irs, stream)
  {
    PushMoves(t, now);
  }

  /** Every arrival is a piece of the peer's stream, and where it is taken in the
      window holds what becomes deliverable. */
  predicate Decent(t: Tcb, e: Event, irs: nat, stream: seq<nat>) {
    e.Input? ==>
      FromPeer(e.a, irs, stream)
      && (t.life == Alive && t.state != SynSent ==> var p := AckPhase(t, e.a, e.now, e.up);
          p.Go? && p.t.life == Alive && Taken(p.t, e.a) ==> Fits(p.t.rcv, e.a))
  }

  lemma InputDelivers(t: Tcb, a: Arrival, now: nat, up: Upcalls, irs: nat, stream: seq<nat>)
    requires Good(t) && t.life == Alive && Delivering(t, irs, stream)
    requires NoWrap(irs, stream) && Decent(t, Input(a, now, up), irs, stream)
    ensures Delivering(InputStep(t, a, now, up), irs, stream)
  {
    var r := Receive(t, a, now, up);
    if t.state == SynSent {
      AnswerDelivers(t, a, up, irs, stream);
      AnswerToSynKeeps(t, a, up);
    } else {
      var p := AckPhase(t, a, now, up);
      AckDelivers(t, a, now, up, irs, stream);
      AckPhaseKeeps(t, a, now, up);
      if p.Go? && p.t.life == Alive {
        SeqDelivers(p.t, a, now, up, irs, stream);
        SeqPhaseKeeps(p.t, a, now, up);
      }
    }
    if r.life == Alive {
      PushDelivers(r, now, irs, stream);
    }
  }

  lemma StepDelivers(t: Tcb, e: Event, irs: nat, stream: seq<nat>)
    requires Good(t) && Delivering(t, irs, stream) && NoWrap(irs, stream) && Decent(t, e, irs, stream)
    ensures Good(Step(t, e)) && Delivering(Step(t, e), irs, stream)
  {
    StepKeeps(t, e);
    if t.life == Alive {
      match e
      case Input(a, now, up) => InputDelivers(t, a, now, up, irs, stream);
      case Fire(now) => FireDelivers(t, now, irs, stream);
      case App(u) => AppStepDelivers(t, u, irs, stream);
    }
  }

  lemma FireDelivers(t: Tcb, now: nat, irs: nat, stream: seq<nat>)
    requires Good(t) && t.life == Alive && Delivering(t, irs, stream)
    ensures Delivering(FireStep(t, now), irs, stream)
  {
    var m := t.timers.(armed := false);
    if !(m.timeWait != 0 && now >= m.timeWait) {
      if m.retransmit != 0 && now >= m.retransmit {
        PushMoves(t.(timers := m.(retransmit := 0), snd := Retreat(t.snd)), now);
      } else {
        PushMoves(t.(timers := m), now);
      }
    }
  }

  lemma AppStepDelivers(t: Tcb, u: User, irs: nat, stream: seq<nat>)
    requires Good(t) && t.life == Alive && Delivering(t, irs, stream)
    ensures Delivering(UserStep(t, u), irs, stream)
  {
    UserStepKeeps(t, u);
    StateAfter(t, u);
  }

  /** Only a close takes the connection to another state, and none before the SYN is
      answered. */
  lemma StateAfter(t: Tcb, u: User)
    requires t.life == Alive
    ensures UserStep(t, u).life == Alive ==> (t.state == SynSent <==> UserStep(t, u).state == SynSent)
  {
    UserStepMoves(t, u);
  }

  // ---------------------------------------------------------------------- runs

  /** The k-th event is decent where it happens. */
  predicate DecentAt(r: Run, k: nat, irs: nat, stream: seq<nat>)
    requires |r.states| == |r.events| + 1 && k < |r.events|
  {
    Decent(r.states[k], r.events[k], irs, stream)
  }

  predicate DecentRun(r: Run, irs: nat, stream: seq<nat>) {
    IsRun(r) && (r.opening.Passive? ==> WellFormed(r.opening.a) && r.opening.a.seqno == irs)
    && forall k {:trigger DecentAt(r, k, irs, stream)} | 0 <= k < |r.events| :: DecentAt(r, k, irs, stream)
  }

  lemma {:induction false} RunDelivers(r: Run, k: nat, irs: nat, stream: seq<nat>)
    requires DecentRun(r, irs, stream) && NoWrap(irs, stream) && k < |r.states|
    ensures Good(r.states[k]) && Delivering(r.states[k], irs, stream)
  {
    assert Follows(r, k);
    if k == 0 {
      BeginDelivers(r.opening, irs, stream);
    } else {
      RunDelivers(r, k - 1, irs, stream);
      assert DecentAt(r, k - 1, irs, stream);
      StepDelivers(r.states[k - 1], r.events[k - 1], irs, stream);
    }
  }

  lemma BeginDelivers(o: Opening, irs: nat, stream: seq<nat>)
    requires o.iss < M && NoWrap(irs, stream) && (o.Passive? ==> WellFormed(o.a) && o.a.seqno == irs)
    ensures Good(Begin(o)) && Delivering(Begin(o), irs, stream)
  {
    match o
    case Active(iss, now) => ConnectDelivers(iss, now, irs, stream);
    case Passive(iss, a, script, now) => AcceptDelivers(iss, a, script, now, stream);
  }

  lemma ConnectDelivers(iss: nat, now: nat, irs: nat, stream: seq<nat>)
    requires iss < M
    ensures Good(Connect(iss, now)) && Delivering(Connect(iss, now), irs, stream)
  {
    var t := Opened(SynSent, iss, TCP_WND, 0);
    OpenedGood(SynSent, iss, TCP_WND, 0);
    PushKeeps(t, now);
    PushMoves(t, now);
  }

  lemma AcceptDelivers(iss: nat, a: Arrival, script: seq<User>, now: nat, stream: seq<nat>)
    requires iss < M && WellFormed(a) && NoWrap(a.seqno, stream)
    ensures Good(Accept(iss, a, script, now)) && Delivering(Accept(iss, a, script, now), a.seqno, stream)
  {
    var t := Opened(SynReceived, iss, a.wnd * WINDOW_SCALE, Wrap(a.seqno + 1));
    OpenedGood(SynReceived, iss, a.wnd * WINDOW_SCALE, Wrap(a.seqno + 1));
    WrapCase(a.seqno + 1, 0);
    assert t.rcv.given == [] && t.rcv.stash == [];
    AcceptedDelivers(t, a, script, now, stream);
  }

  lemma AcceptedDelivers(t: Tcb, a: Arrival, script: seq<User>, now: nat, stream: seq<nat>)
    requires Good(t) && t.state != SynSent && Delivering(t, a.seqno, stream)
    ensures Good(Accepted(t, a, script, now)) && Delivering(Accepted(t, a, script, now), a.seqno, stream)
  {
    AcceptedGood(t, a, script, now);
    UserStepsKeep(t, script);
    AppDelivers(t, script, a.seqno, stream);
    var e := UserSteps(t, script);
    if e.life == Alive {
      PushMoves(e, now);
    }
  }

  /** In-order delivery: until a FIN is taken in, at every point of every run the
      application has been given a prefix of the peer's stream, and rcv_nxt counts
      exactly those bytes. */
  lemma InOrderDelivery(r: Run, k: nat, irs: nat, stream: seq<nat>)
    requires DecentRun(r, irs, stream) && NoWrap(irs, stream) && k < |r.states|
    requires r.states[k].life == Alive && !r.states[k].rcv.finIn
    ensures r.states[k].rcv.given <= stream
    ensures r.states[k].state != SynSent ==> r.states[k].rcv.nxt == irs + 1 + |r.states[k].rcv.given|
  {
    RunDelivers(r, k, irs, stream);
  }
}
