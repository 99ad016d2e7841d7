/** Nothing that is stashed is lost: it stays in the stash until the application has
    been given the byte it begins with. */
module TcpStash {
  import opened TcpSeq
  import opened Tcp
  import opened TcpProofs
  import opened TcpDelivery

  /** The stash gains the key and nothing else, and loses nothing. */
  lemma {:induction false} StashedKeys(s: seq<Stashed>, e: Stashed, key: nat)
    ensures HasKey(Stash(s, e), key) <==> HasKey(s, key) || key == e.key
  {
    if s == [] || e.key < s[0].key {
      assert ([e] + s)[1..] == s;
    } else if e.key != s[0].key {
      StashedKeys(s[1..], e, key);
      assert ([s[0]] + Stash(s[1..], e))[1..] == Stash(s[1..], e);
    }
  }

  /** What is stashed under a key. */
  function Lookup(s: seq<Stashed>, key: nat): seq<nat>
    requires HasKey(s, key)
  {
    if s[0].key == key then s[0].data else Lookup(s[1..], key)
  }

  /** An entry that is there stays as it is; a second one of the same key is dropped. */
  lemma {:induction false} StashedLookup(s: seq<Stashed>, e: Stashed, key: nat, lo: nat)
    requires Ascending(s, lo) && (HasKey(s, key) || key == e.key)
    ensures HasKey(Stash(s, e), key) && Lookup(Stash(s, e), key) == if HasKey(s, key) then Lookup(s, key) else e.data
  {
    StashedKeys(s, e, key);
    if s == [] || e.key < s[0].key {
      assert ([e] + s)[1..] == s;
      if key == e.key && HasKey(s, key) { KeysAbove(s, s[0].key, key); }
    } else if e.key != s[0].key {
      assert ([s[0]] + Stash(s[1..], e))[1..] == Stash(s[1..], e);
      if key != s[0].key { StashedLookup(s[1..], e, key, s[0].key + 1); }
    }
  }

  /** What a pass leaves in the stash it leaves as it was. */
  lemma {:induction false} UndrainedLookup(s: seq<Stashed>, next: nat, key: nat, lo: nat)
    requires Ascending(s, lo) && HasKey(Undrained(s, next), key)
    ensures HasKey(s, key) && Lookup(Undrained(s, next), key) == Lookup(s, key)
  {
    if s[0].key == next {
      UndrainedLookup(s[1..], next + |s[0].data|, key, s[0].key + 1);
      KeysAbove(s[1..], s[0].key + 1, key);
    } else {
      assert ([s[0]] + Undrained(s[1..], next))[1..] == Undrained(s[1..], next);
      if key != s[0].key { UndrainedLookup(s[1..], next, key, s[0].key + 1); }
    }
  }

  /** A pass takes a key out of the stash only by taking its bytes. */
  lemma {:induction false} DrainAccounts(s: seq<Stashed>, next: nat, key: nat, lo: nat)
    requires Ascending(s, lo) && HasKey(s, key)
    ensures HasKey(Undrained(s, next), key) || next <= key < next + |Drained(s, next)|
  {
    if s[0].key == next {
      if key != next { DrainAccounts(s[1..], next + |s[0].data|, key, s[0].key + 1); }
    } else {
      if key != s[0].key { DrainAccounts(s[1..], next, key, s[0].key + 1); }
      assert ([s[0]] + Undrained(s[1..], next))[1..] == Undrained(s[1..], next);
    }
  }

  /** The segment with this key is in the stash, or its first byte has been given. */
  predicate Accounted(r: Receiver, key: nat, irs: nat) {
    HasKey(r.stash, key) || key < irs + 1 + |r.given|
  }

  predicate Kept(t: Tcb, key: nat, irs: nat) {
    t.life == Alive && !t.rcv.finIn ==> Accounted(t.rcv, key, irs)
  }

  lemma TakeAccounts(r: Receiver, a: Arrival, key: nat, irs: nat, stream: seq<nat>)
    requires Ordered(r, irs, stream) && Fits(r, a) && Accounted(r, key, irs)
    ensures Accounted(Take(r, a.payload), key, irs)
  {
    if HasKey(r.stash, key) {
      DrainAccounts(r.stash, r.nxt + |a.payload|, key, 0);
    }
  }

  lemma PayloadAccounts(t: Tcb, a: Arrival, up: Upcalls, key: nat, irs: nat, stream: seq<nat>)
    requires Good(t) && t.life == Alive && t.state != SynSent && Delivering(t, irs, stream) && Kept(t, key, irs)
    requires InWindow(t.rcv, a) && (Taken(t, a) ==> Fits(t.rcv, a))
    ensures Kept(PayloadPhase(t, a, up).t, key, irs)
  {
    if a.payload != [] && t.state == Established {
      if !GT(a.seqno, t.rcv.nxt) {
        var u := t.(rcv := Take(t.rcv, a.payload));
        if !t.rcv.finIn { TakeAccounts(t.rcv, a, key, irs, stream); }
        ReceiverKeeps(t, u.rcv);
        UserStepsKeep(u, up.data);
      } else {
        StashedKeys(t.rcv.stash, Stashed(a.seqno, a.payload), key);
      }
    }
  }

  /** An arrival beyond the next byte expected goes into the stash. */
  lemma EarlyArrivalIsStashed(t: Tcb, a: Arrival, up: Upcalls)
    requires t.state == Established && a.payload != [] && GT(a.seqno, t.rcv.nxt)
    ensures HasKey(PayloadPhase(t, a, up).t.rcv.stash, a.seqno) && PayloadPhase(t, a, up).t.rcv.given == t.rcv.given
  {
    StashedKeys(t.rcv.stash, Stashed(a.seqno, a.payload), a.seqno);
  }

  lemma FinAccounts(t: Tcb, a: Arrival, len: nat, now: nat, up: Upcalls, key: nat, irs: nat)
    requires Good(t) && Kept(t, key, irs)
    ensures Kept(FinPhase(t, a, len, now, up), key, irs)
  {
    if t.life == Alive && a.fin && (t.state == Established || t.state == SynReceived) {
      var r := t.rcv.(nxt := Wrap(a.seqno + len), finIn := true);
      ReceiverKeeps(t, r);
      FinMoves(t.(rcv := r), CloseWait, t.timers);
      UserStepsKeep(t.(rcv := r, state := CloseWait), up.close);
    }
  }

  lemma SeqAccounts(t: Tcb, a: Arrival, now: nat, up: Upcalls, key: nat, irs: nat, stream: seq<nat>)
    requires Good(t) && t.life == Alive && t.state != SynSent && Delivering(t, irs, stream) && Kept(t, key, irs)
    requires Taken(t, a) ==> Fits(t.rcv, a)
    ensures Kept(SeqPhase(t, a, now, up), key, irs)
  {
    if InWindow(t.rcv, a) {
      PayloadAccounts(t, a, up, key, irs, stream);
      PayloadPhaseKeeps(t, a, up);
      var p := PayloadPhase(t, a, up).t;
      FinAccounts(p, a, if Cut(t, a) && a.fin then a.TcpLen() - 1 else a.TcpLen(), now, up, key, irs);
    }
  }

  lemma AnswerAccounts(t: Tcb, a: Arrival, up: Upcalls, key: nat, irs: nat)
    requires Good(t) && t.life == Alive && t.state == SynSent && Kept(t, key, irs) && WellFormed(a)
    ensures Kept(AnswerToSyn(t, a, up), key, irs)
  {
    if a.syn && a.ack && !a.rst && !LEQ(a.ackno, t.snd.una) && !GT(a.ackno, t.snd.nxt) && a.TcpLen() <= 1 {
      ReceiverKeeps(t, SynTaken(t, a).rcv);
      AnsweredGood(SynTaken(t, a), a);
      UserStepsKeep(Answered(SynTaken(t, a), a), up.connected);
    }
  }

  lemma ReceiveAccounts(t: Tcb, a: Arrival, now: nat, up: Upcalls, key: nat, irs: nat, stream: seq<nat>)
    requires Good(t) && t.life == Alive && Delivering(t, irs, stream) && Kept(t, key, irs)
    requires Decent(t, Input(a, now, up), irs, stream)
    ensures Kept(Receive(t, a, now, up), key, irs)
  {
    if t.state == SynSent {
      AnswerAccounts(t, a, up, key, irs);
    } else {
      var p := AckPhase(t, a, now, up);
      AckDelivers(t, a, now, up, irs, stream);
      AckPhaseKeeps(t, a, now, up);
      if p.Go? && p.t.life == Alive {
        SeqAccounts(p.t, a, now, up, key, irs, stream);
      }
    }
  }

  /** The timer, the application and what goes out leave the stash alone. */
  lemma OtherwiseUntouched(t: Tcb, e: Event)
    requires Good(t) && t.life == Alive && !e.Input?
    ensures Step(t, e).life == Alive ==> SameArrived(t.rcv, Step(t, e).rcv)
  {
    match e
    case Fire(now) =>
      var m := t.timers.(armed := false);
      if !(m.timeWait != 0 && now >= m.timeWait) {
        if m.retransmit != 0 && now >= m.retransmit {
          PushMoves(t.(timers := m.(retransmit := 0), snd := Retreat(t.snd)), now);
        } else {
          PushMoves(t.(timers := m), now);
        }
      }
    case App(u) => UserStepKeeps(t, u);
  }

  lemma StepAccounts(t: Tcb, e: Event, key: nat, irs: nat, stream: seq<nat>)
    requires Good(t) && Delivering(t, irs, stream) && Decent(t, e, irs, stream) && Kept(t, key, irs)
    ensures Kept(Step(t, e), key, irs)
  {
    if t.life == Alive {
      if e.Input? {
        ReceiveAccounts(t, e.a, e.now, e.up, key, irs, stream);
        InputKeeps(t, e.a, e.now, e.up);
      } else {
        OtherwiseUntouched(t, e);
      }
    }
  }

  lemma {:induction false} RunStepAccounts(r: Run, k: nat, key: nat, irs: nat, stream: seq<nat>)
    requires DecentRun(r, irs, stream) && NoWrap(irs, stream) && k < |r.events| && Kept(r.states[k], key, irs)
    ensures Kept(r.states[k + 1], key, irs)
  {
    RunDelivers(r, k, irs, stream);
    assert Follows(r, k + 1) && DecentAt(r, k, irs, stream);
    StepAccounts(r.states[k], r.events[k], key, irs, stream);
  }

  lemma {:induction false} RunAccounts(r: Run, i: nat, k: nat, key: nat, irs: nat, stream: seq<nat>)
    requires DecentRun(r, irs, stream) && NoWrap(irs, stream) && i <= k < |r.states|
    requires HasKey(r.states[i].rcv.stash, key)
    ensures Kept(r.states[k], key, irs)
    decreases k
  {
    if i < k {
      RunAccounts(r, i, k - 1, key, irs, stream);
      RunStepAccounts(r, k - 1, key, irs, stream);
    }
  }

  /** What is in the stash at some point of a run is at every later point still there,
      or the byte it begins with has been given, at its place in the stream. */
  lemma NothingStashedIsLost(r: Run, i: nat, k: nat, key: nat, irs: nat, stream: seq<nat>)
    requires DecentRun(r, irs, stream) && NoWrap(irs, stream) && i <= k < |r.states|
    requires HasKey(r.states[i].rcv.stash, key) && r.states[k].life == Alive && !r.states[k].rcv.finIn
    ensures HasKey(r.states[k].rcv.stash, key)
      || (r.states[k].rcv.given <= stream && key < irs + 1 + |r.states[k].rcv.given|)
  {
    RunAccounts(r, i, k, key, irs, stream);
    InOrderDelivery(r, k, irs, stream);
  }
}
