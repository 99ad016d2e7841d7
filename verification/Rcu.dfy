/** All cores together: events come and go on every core, one token travels
    round the ring, and deferred callbacks wait for two visits of the token. */
module Rcu {
  import opened EventManager

  /** A live event: the generation it was entered in, and whether its context
      is saved (blocked) rather than running or runnable. */
  datatype Activity = Activity(generation: nat, blocked: bool)

  /** A deferred callback. `before` is a history variable: the (core, event)
      pairs that were live, on any core, when DoRcu was called. */
  datatype Ticket = Ticket(id: nat, before: set<(nat, nat)>)

  /** One core. `interrupts` counts token interrupts not yet taken; `ready`
      holds the callbacks Fire is handing to SpawnLocal. The last three fields
      are history: increments that were never undone, every ticket ever queued
      here, and how many of those have been run. */
  datatype Node = Node(
    manager: Manager<Ticket>,
    live: map<nat, Activity>,
    interrupts: nat,
    ready: seq<Ticket>,
    leaked: seq<nat>,
    queued: seq<Ticket>,
    started: nat)

  datatype System = System(nodes: seq<Node>, booted: bool, nextEvent: nat, nextTicket: nat)

  datatype Action =
    | Boot
    | Start(cpu: nat)
    | Finish(cpu: nat, event: nat)
    | Block(cpu: nat, event: nat)
    | Activate(cpu: nat, event: nat)
    | DoRcu(cpu: nat)
    | ReceiveToken(cpu: nat)
    | FireTimer(cpu: nat)
    | RunCallback(cpu: nat)

  ghost function LiveEvents(s: System): set<(nat, nat)> {
    set c: nat, e: nat | 0 <= c < |s.nodes| && e in s.nodes[c].live.Keys :: (c, e)
  }

  predicate NodeValid(n: Node) {
    Valid(n.manager) && |n.leaked| == 2
  }

  predicate SystemValid(s: System) {
    |s.nodes| > 0 && forall c | 0 <= c < |s.nodes| :: NodeValid(s.nodes[c])
  }

  predicate Cpu(s: System, c: nat) {
    c < |s.nodes|
  }

  /** When each action can happen. Steps of different cores interleave freely. */
  predicate Enabled(s: System, a: Action)
    requires SystemValid(s)
  {
    match a
    case Boot => !s.booted
    case Start(c) => Cpu(s, c)
    case Finish(c, e) =>
      Cpu(s, c) && e in s.nodes[c].live && !s.nodes[c].live[e].blocked
      && s.nodes[c].manager.count[s.nodes[c].live[e].generation % 2] > 0
    case Block(c, e) => Cpu(s, c) && e in s.nodes[c].live && !s.nodes[c].live[e].blocked
    case Activate(c, e) => Cpu(s, c) && e in s.nodes[c].live && s.nodes[c].live[e].blocked
    case DoRcu(c) => Cpu(s, c)
    case ReceiveToken(c) => Cpu(s, c) && s.nodes[c].interrupts > 0
    case FireTimer(c) => Cpu(s, c) && s.nodes[c].manager.armed
    case RunCallback(c) => Cpu(s, c) && s.nodes[c].ready != []
  }

  function AddEvent(n: Node, e: nat): Node
    requires NodeValid(n)
  {
    n.(manager := Enter(n.manager), live := n.live[e := Activity(n.manager.generation, false)])
  }

  /** The activation task is itself entered through InvokeFunction but switches
      to the saved context and never comes back to its decrement. */
  function ActivateEvent(n: Node, e: nat): Node
    requires NodeValid(n) && e in n.live
  {
    var p := n.manager.generation % 2;
    n.(manager := Enter(n.manager),
       live := n.live[e := n.live[e].(blocked := false)],
       leaked := n.leaked[p := n.leaked[p] + 1])
  }

  function FireNode(n: Node, cpus: nat): Node
    requires NodeValid(n)
  {
    var f := Fire(n.manager, cpus);
    n.(manager := f.manager, ready := n.ready + f.tasks)
  }

  function Successor(s: System, c: nat): nat
    requires |s.nodes| > 0
  {
    (c + 1) % |s.nodes|
  }

  /** The token interrupt arrives at the next core when Fire sent it. */
  function Deliver(s: System, c: nat, sent: bool): System
    requires |s.nodes| > 0
  {
    if !sent then s else
    var d := Successor(s, c);
    s.(nodes := s.nodes[d := s.nodes[d].(interrupts := s.nodes[d].interrupts + 1)])
  }

  ghost function Step(s: System, a: Action): System
    requires SystemValid(s) && Enabled(s, a)
  {
    match a
    case Boot =>
      s.(nodes := s.nodes[0 := s.nodes[0].(manager := TakeToken(s.nodes[0].manager))], booted := true)
    case Start(c) =>
      s.(nodes := s.nodes[c := AddEvent(s.nodes[c], s.nextEvent)], nextEvent := s.nextEvent + 1)
    case Finish(c, e) =>
      var n := s.nodes[c];
      s.(nodes := s.nodes[c := n.(manager := Leave(n.manager, n.live[e].generation), live := n.live - {e})])
    case Block(c, e) =>
      var n := s.nodes[c];
      s.(nodes := s.nodes[c := n.(live := n.live[e := n.live[e].(blocked := true)])])
    case Activate(c, e) =>
      s.(nodes := s.nodes[c := ActivateEvent(s.nodes[c], e)])
    case DoRcu(c) =>
      var n := s.nodes[c];
      var t := Ticket(s.nextTicket, LiveEvents(s));
      s.(nodes := s.nodes[c := n.(manager := Defer(n.manager, t), queued := n.queued + [t])],
         nextTicket := s.nextTicket + 1)
    case ReceiveToken(c) =>
      var n := s.nodes[c];
      s.(nodes := s.nodes[c := n.(manager := TakeToken(n.manager), interrupts := n.interrupts - 1)])
    case FireTimer(c) =>
      var n := s.nodes[c];
      var sent := Fire(n.manager, |s.nodes|).sent;
      Deliver(s.(nodes := s.nodes[c := FireNode(n, |s.nodes|)]), c, sent)
    case RunCallback(c) =>
      var n := s.nodes[c];
      s.(nodes := s.nodes[c := AddEvent(n, s.nextEvent).(ready := n.ready[1..], started := n.started + 1)],
         nextEvent := s.nextEvent + 1)
  }

  function InitialNode(): Node {
    Node(Initial(), map[], 0, [], [0, 0], [], 0)
  }

  ghost predicate Init(s: System) {
    |s.nodes| > 0 && !s.booted && s.nextEvent == 0 && s.nextTicket == 0
    && forall c | 0 <= c < |s.nodes| :: s.nodes[c] == InitialNode()
  }

  // ----------------------------------------------------------- the invariant

  ghost function LiveOfParity(live: map<nat, Activity>, p: nat): set<nat> {
    set e | e in live && live[e].generation % 2 == p
  }

  /** The counters are exactly the live events of each parity plus the
      increments that activations never undo. */
  ghost predicate CountsExact(n: Node)
    requires NodeValid(n)
  {
    forall p | 0 <= p < 2 :: n.manager.count[p] == |LiveOfParity(n.live, p)| + n.leaked[p]
  }

  /** Only the current generation is live, and the pending one while the token
      is held here. */
  ghost predicate GenerationsBounded(n: Node) {
    var m := n.manager;
    (m.armed ==> m.generation == (m.pending + 1) % SIZE_T)
    && forall e | e in n.live :: n.live[e].generation == m.generation
                                || (m.armed && n.live[e].generation == m.pending)
  }

  /** Callbacks run in the order they were queued, each at most once. */
  ghost predicate QueuesFifo(n: Node) {
    n.started <= |n.queued| && n.queued[n.started..] == n.ready + n.manager.prev + n.manager.curr
  }

  ghost predicate IdsKnown(s: System, n: Node) {
    (forall e | e in n.live :: e < s.nextEvent)
    && (forall t | t in n.queued :: t.id < s.nextTicket && forall x | x in t.before :: x.1 < s.nextEvent)
  }

  ghost predicate NodeInv(s: System, n: Node) {
    NodeValid(n) && CountsExact(n) && GenerationsBounded(n) && QueuesFifo(n) && IdsKnown(s, n)
  }

  function Tokens(n: Node): nat {
    n.interrupts + if n.manager.armed then 1 else 0
  }

  /** There is exactly one token after boot, at core h. */
  ghost predicate OneToken(s: System, h: nat) {
    h < |s.nodes|
    && forall c | 0 <= c < |s.nodes| :: Tokens(s.nodes[c]) == if s.booted && c == h then 1 else 0
  }

  /** Cores the token passes after leaving c before it is at j. */
  function Distance(s: System, c: nat, j: nat): nat
    requires c < |s.nodes| && j < |s.nodes|
  {
    if j > c then j - c - 1 else |s.nodes| + j - c - 1
  }

  ghost predicate LiveAt(s: System, x: (nat, nat)) {
    x.0 < |s.nodes| && x.1 in s.nodes[x.0].live
  }

  /** A ticket that core c has already seen one token with: whatever it must
      still wait for lives ahead of the token, or at the token's core in the
      generation that core is waiting for. */
  ghost predicate WaitsAhead(s: System, h: nat, c: nat, t: Ticket)
    requires h < |s.nodes| && c < |s.nodes|
  {
    forall x | x in t.before && LiveAt(s, x) ::
      Distance(s, c, x.0) > Distance(s, c, h)
      || (x.0 == h && (s.nodes[h].manager.armed ==>
            s.nodes[h].live[x.1].generation == s.nodes[h].manager.pending))
  }

  ghost predicate Quiet(s: System, t: Ticket) {
    forall x | x in t.before :: !LiveAt(s, x)
  }

  ghost predicate TicketsInv(s: System, h: nat, c: nat)
    requires h < |s.nodes| && c < |s.nodes|
  {
    var n := s.nodes[c];
    (!s.booted ==> n.ready == [] && n.manager.prev == [])
    && (forall t | t in n.ready :: Quiet(s, t))
    && (forall t | t in n.manager.prev :: WaitsAhead(s, h, c, t))
  }

  ghost predicate InvAt(s: System, h: nat) {
    OneToken(s, h)
    && (forall c | 0 <= c < |s.nodes| :: NodeInv(s, s.nodes[c]))
    && (forall c | 0 <= c < |s.nodes| :: TicketsInv(s, h, c))
  }

  ghost predicate Inv(s: System) {
    exists h :: InvAt(s, h)
  }

  // ------------------------------------------------------------ preservation

  lemma InitHolds(s: System)
    requires Init(s)
    ensures InvAt(s, 0)
  {
    assert LiveOfParity(map[], 0) == {} && LiveOfParity(map[], 1) == {};
  }

  /** One event more, of the current generation. */
  lemma EnterCounts(n: Node, e: nat)
    requires NodeValid(n) && CountsExact(n) && e !in n.live
    ensures CountsExact(AddEvent(n, e))
  {
    var n' := AddEvent(n, e);
    var p := n.manager.generation % 2;
    assert e !in LiveOfParity(n.live, p);
    assert LiveOfParity(n'.live, p) == LiveOfParity(n.live, p) + {e};
    assert LiveOfParity(n'.live, 1 - p) == LiveOfParity(n.live, 1 - p);
  }

  lemma LeaveCounts(n: Node, e: nat)
    requires NodeValid(n) && CountsExact(n) && e in n.live
    ensures n.manager.count[n.live[e].generation % 2] > 0
    ensures CountsExact(n.(manager := Leave(n.manager, n.live[e].generation), live := n.live - {e}))
  {
    var p := n.live[e].generation % 2;
    assert e in LiveOfParity(n.live, p);
    assert LiveOfParity(n.live - {e}, p) == LiveOfParity(n.live, p) - {e};
    assert LiveOfParity(n.live - {e}, 1 - p) == LiveOfParity(n.live, 1 - p);
  }

  lemma BlockCounts(n: Node, e: nat, blocked: bool)
    requires NodeValid(n) && CountsExact(n) && e in n.live
    ensures forall p :: LiveOfParity(n.live[e := n.live[e].(blocked := blocked)], p) == LiveOfParity(n.live, p)
  {
  }

  /** An armed core completes its pending generation exactly when no event of
      that generation is live on it and none of its increments has leaked. */
  lemma FireCompletesIff(s: System, h: nat, c: nat)
    requires InvAt(s, h) && c < |s.nodes| && s.nodes[c].manager.armed
    ensures var n := s.nodes[c];
            Complete(n.manager) <==>
              n.leaked[n.manager.pending % 2] == 0
              && forall e | e in n.live :: n.live[e].generation == n.manager.generation
  {
    var n := s.nodes[c];
    assert NodeInv(s, n);
    var p := n.manager.pending % 2;
    assert n.manager.generation % 2 != p;
    if Complete(n.manager) {
      assert LiveOfParity(n.live, p) == {};
      forall e | e in n.live
        ensures n.live[e].generation == n.manager.generation
      {
        assert e !in LiveOfParity(n.live, p);
      }
    } else if n.leaked[p] == 0 {
      assert LiveOfParity(n.live, p) != {};
      var e :| e in LiveOfParity(n.live, p);
      assert n.live[e].generation != n.manager.generation;
    }
  }

  /** No event that a ticket may be waiting for appears or changes generation,
      and the token, the ready callbacks and the aged ones stay where they are. */
  ghost predicate Settled(s: System, s': System) {
    |s'.nodes| == |s.nodes| && s'.booted == s.booted
    && (forall c | 0 <= c < |s.nodes| ::
          s'.nodes[c].manager.prev == s.nodes[c].manager.prev
          && s'.nodes[c].manager.armed == s.nodes[c].manager.armed
          && s'.nodes[c].manager.pending == s.nodes[c].manager.pending
          && (s'.nodes[c].ready == s.nodes[c].ready
              || (s.nodes[c].ready != [] && s'.nodes[c].ready == s.nodes[c].ready[1..])))
    && (forall c, e | 0 <= c < |s.nodes| && e in s'.nodes[c].live && e < s.nextEvent ::
          e in s.nodes[c].live && s'.nodes[c].live[e].generation == s.nodes[c].live[e].generation)
  }

  lemma TicketsSettled(s: System, s': System, h: nat)
    requires InvAt(s, h) && Settled(s, s')
    ensures forall c | 0 <= c < |s'.nodes| :: TicketsInv(s', h, c)
  {
    forall c | 0 <= c < |s'.nodes|
      ensures TicketsInv(s', h, c)
    {
      var n := s.nodes[c];
      assert NodeInv(s, n) && TicketsInv(s, h, c);
      forall t | t in n.ready || t in n.manager.prev
        ensures forall x | x in t.before && LiveAt(s', x) :: LiveAt(s, x)
      {
        assert t in n.queued[n.started..];
        assert t in n.queued;
      }
      forall t | t in s'.nodes[c].ready
        ensures Quiet(s', t)
      {
        assert t in n.ready;
        assert Quiet(s, t);
      }
      forall t | t in n.manager.prev
        ensures WaitsAhead(s', h, c, t)
      {
        assert WaitsAhead(s, h, c, t);
      }
    }
  }

  /** The other cores' own invariants survive when the id counters only grow. */
  lemma OthersKept(s: System, s': System, h: nat, c: nat)
    requires InvAt(s, h) && c < |s.nodes| == |s'.nodes|
    requires s'.nextEvent >= s.nextEvent && s'.nextTicket >= s.nextTicket
    requires forall d | 0 <= d < |s.nodes| && d != c :: s'.nodes[d] == s.nodes[d]
    ensures forall d | 0 <= d < |s.nodes| && d != c :: NodeInv(s', s'.nodes[d])
  {
    forall d | 0 <= d < |s.nodes| && d != c
      ensures NodeInv(s', s'.nodes[d])
    {
      assert NodeInv(s, s.nodes[d]);
    }
  }

  /** The core an event action happens on keeps its own invariant. */
  lemma CountNodeHolds(s: System, h: nat, a: Action)
    requires InvAt(s, h) && SystemValid(s) && Enabled(s, a) && (a.Start? || a.Finish?)
    ensures NodeInv(Step(s, a), Step(s, a).nodes[a.cpu])
  {
    var n := s.nodes[a.cpu];
    assert NodeInv(s, n);
    if a.Start? {
      EnterCounts(n, s.nextEvent);
    } else {
      LeaveCounts(n, a.event);
    }
    assert CountsExact(Step(s, a).nodes[a.cpu]);
  }

  lemma BlockNodeHolds(s: System, h: nat, a: Action)
    requires InvAt(s, h) && SystemValid(s) && Enabled(s, a) && (a.Block? || a.Activate?)
    ensures NodeInv(Step(s, a), Step(s, a).nodes[a.cpu])
  {
    var n := s.nodes[a.cpu];
    assert NodeInv(s, n);
    BlockCounts(n, a.event, a.Block?);
    assert CountsExact(Step(s, a).nodes[a.cpu]);
  }

  lemma CallbackNodeHolds(s: System, h: nat, c: nat)
    requires InvAt(s, h) && SystemValid(s) && Enabled(s, RunCallback(c))
    ensures NodeInv(Step(s, RunCallback(c)), Step(s, RunCallback(c)).nodes[c])
  {
    var n := s.nodes[c];
    assert NodeInv(s, n);
    EnterCounts(n, s.nextEvent);
    var n' := Step(s, RunCallback(c)).nodes[c];
    assert CountsExact(n');
    assert n.queued[n.started..][1..] == n.queued[n.started + 1..];
    assert (n.ready + n.manager.prev + n.manager.curr)[1..] == n.ready[1..] + n.manager.prev + n.manager.curr;
  }

  /** One core on which nothing that matters to a ticket happens. */
  ghost predicate NodeSettled(n: Node, n': Node, next: nat) {
    n'.manager.prev == n.manager.prev && n'.manager.armed == n.manager.armed && n'.manager.pending == n.manager.pending
    && (n'.ready == n.ready || (n.ready != [] && n'.ready == n.ready[1..]))
    && forall e | e in n'.live && e < next :: e in n.live && n'.live[e].generation == n.live[e].generation
  }

  lemma OneNodeSettles(s: System, s': System, c: nat)
    requires |s'.nodes| == |s.nodes| && s'.booted == s.booted && c < |s.nodes| && s'.nodes == s.nodes[c := s'.nodes[c]]
    requires NodeSettled(s.nodes[c], s'.nodes[c], s.nextEvent)
    ensures Settled(s, s')
  {
  }

  lemma EventSettles(s: System, h: nat, a: Action)
    requires InvAt(s, h) && SystemValid(s) && Enabled(s, a)
    requires a.Start? || a.Finish? || a.Block? || a.Activate? || a.RunCallback?
    ensures Settled(s, Step(s, a))
  {
    OneNodeSettles(s, Step(s, a), a.cpu);
  }

  lemma EventStepHolds(s: System, h: nat, a: Action)
    requires InvAt(s, h) && SystemValid(s) && Enabled(s, a)
    requires a.Start? || a.Finish? || a.Block? || a.Activate? || a.RunCallback?
    ensures InvAt(Step(s, a), h)
  {
    var s' := Step(s, a);
    if a.RunCallback? {
      CallbackNodeHolds(s, h, a.cpu);
    } else if a.Start? || a.Finish? {
      CountNodeHolds(s, h, a);
    } else {
      BlockNodeHolds(s, h, a);
    }
    OthersKept(s, s', h, a.cpu);
    EventSettles(s, h, a);
    TicketsSettled(s, s', h);
  }

  lemma DoRcuHolds(s: System, h: nat, c: nat)
    requires InvAt(s, h) && SystemValid(s) && c < |s.nodes|
    ensures InvAt(Step(s, DoRcu(c)), h)
  {
    var s' := Step(s, DoRcu(c));
    var n, n' := s.nodes[c], s'.nodes[c];
    assert NodeInv(s, n);
    var t := Ticket(s.nextTicket, LiveEvents(s));
    forall x | x in t.before
      ensures x.1 < s.nextEvent
    {
      assert NodeInv(s, s.nodes[x.0]);
    }
    assert n'.queued[n.started..] == n.queued[n.started..] + [t];
    assert n.ready + n.manager.prev + (n.manager.curr + [t]) == n.ready + n.manager.prev + n.manager.curr + [t];
    OthersKept(s, s', h, c);
    assert NodeInv(s', n');
    TicketsSettled(s, s', h);
  }

  /** The token reaches core h: every event live there is of the generation it
      now waits for. */
  lemma TokenTaken(s: System, s': System, h: nat)
    requires InvAt(s, h) && SystemValid(s) && s.booted
    requires !s.nodes[h].manager.armed
    requires s' == s.(nodes := s.nodes[h := s.nodes[h].(manager := TakeToken(s.nodes[h].manager), interrupts := 0)])
    ensures InvAt(s', h)
  {
    var n := s.nodes[h];
    assert NodeInv(s, n);
    OthersKept(s, s', h, h);
    assert NodeInv(s', s'.nodes[h]);
    forall c | 0 <= c < |s'.nodes|
      ensures TicketsInv(s', h, c)
    {
      assert TicketsInv(s, h, c);
      forall t | t in s'.nodes[c].ready
        ensures Quiet(s', t)
      {
        assert Quiet(s, t);
        assert forall x | LiveAt(s', x) :: LiveAt(s, x);
      }
      forall t | t in s'.nodes[c].manager.prev
        ensures WaitsAhead(s', h, c, t)
      {
        assert WaitsAhead(s, h, c, t);
        assert forall x | LiveAt(s', x) :: LiveAt(s, x);
      }
    }
  }

  lemma ReceiveTokenHolds(s: System, h: nat, c: nat)
    requires InvAt(s, h) && SystemValid(s) && Enabled(s, ReceiveToken(c))
    ensures c == h && InvAt(Step(s, ReceiveToken(c)), h)
  {
    assert Tokens(s.nodes[c]) == 1 && c == h;
    TokenTaken(s, Step(s, ReceiveToken(c)), h);
  }

  lemma BootHolds(s: System, h: nat)
    requires InvAt(s, h) && SystemValid(s) && !s.booted
    ensures InvAt(Step(s, Boot), 0)
  {
    var s' := Step(s, Boot);
    assert Tokens(s.nodes[0]) == 0;
    assert NodeInv(s, s.nodes[0]);
    OthersKept(s, s', h, 0);
    assert NodeInv(s', s'.nodes[0]);
    forall c | 0 <= c < |s'.nodes|
      ensures TicketsInv(s', 0, c)
    {
      assert TicketsInv(s, h, c);
    }
    forall c | 0 <= c < |s'.nodes|
      ensures Tokens(s'.nodes[c]) == if c == 0 then 1 else 0
    {
      assert Tokens(s.nodes[c]) == 0;
    }
  }

  /** When core h completes, nothing a ticket aged at c waits for is live at h. */
  lemma DrainedAtToken(s: System, h: nat, c: nat, t: Ticket)
    requires InvAt(s, h) && s.nodes[h].manager.armed && Complete(s.nodes[h].manager)
    requires c < |s.nodes| && t in s.nodes[c].manager.prev
    ensures forall x | x in t.before && LiveAt(s, x) :: Distance(s, c, x.0) > Distance(s, c, h)
  {
    FireCompletesIff(s, h, h);
    assert TicketsInv(s, h, c) && WaitsAhead(s, h, c, t);
    assert s.nodes[h].manager.generation != s.nodes[h].manager.pending;
  }

  /** A ticket aged at the token's own core has nothing left to wait for. */
  lemma AgedIsQuiet(s: System, h: nat, t: Ticket)
    requires InvAt(s, h) && s.nodes[h].manager.armed && Complete(s.nodes[h].manager)
    requires t in s.nodes[h].manager.prev
    ensures Quiet(s, t)
  {
    DrainedAtToken(s, h, h, t);
    assert Distance(s, h, h) == |s.nodes| - 1;
  }

  lemma FireRetryHolds(s: System, h: nat)
    requires InvAt(s, h) && SystemValid(s)
    requires s.nodes[h].manager.armed && !Complete(s.nodes[h].manager)
    ensures Step(s, FireTimer(h)) == s
  {
    assert s.nodes[h].ready + [] == s.nodes[h].ready;
    assert s.nodes[h := s.nodes[h]] == s.nodes;
  }

  lemma FiredNode(s: System, s': System, h: nat)
    requires InvAt(s, h) && SystemValid(s)
    requires s.nodes[h].manager.armed && Complete(s.nodes[h].manager)
    requires s' == Step(s, FireTimer(h))
    ensures forall c | 0 <= c < |s.nodes| :: NodeInv(s', s'.nodes[c])
  {
    var n, n' := s.nodes[h], s'.nodes[h];
    assert NodeInv(s, n);
    FireCompletesIff(s, h, h);
    assert n'.ready + n'.manager.prev + n'.manager.curr == n.ready + n.manager.prev + n.manager.curr;
    assert NodeInv(s', n');
    forall c | 0 <= c < |s.nodes| && c != h
      ensures NodeInv(s', s'.nodes[c])
    {
      assert NodeInv(s, s.nodes[c]);
    }
  }

  lemma FiredLives(s: System, s': System, h: nat)
    requires InvAt(s, h) && SystemValid(s) && s.nodes[h].manager.armed && Complete(s.nodes[h].manager)
    requires s' == Step(s, FireTimer(h))
    ensures |s'.nodes| == |s.nodes| && forall x :: LiveAt(s', x) <==> LiveAt(s, x)
  {
  }

  lemma FiredReady(s: System, s': System, h: nat, c: nat, t: Ticket)
    requires InvAt(s, h) && SystemValid(s) && s.nodes[h].manager.armed && Complete(s.nodes[h].manager)
    requires s' == Step(s, FireTimer(h)) && c < |s.nodes| == |s'.nodes| && t in s'.nodes[c].ready
    ensures Quiet(s', t)
  {
    FiredLives(s, s', h);
    assert TicketsInv(s, h, c);
    if t in s.nodes[c].ready {
      assert Quiet(s, t);
    } else {
      AgedIsQuiet(s, h, t);
    }
  }

  lemma NextRound(s: System, h: nat)
    requires h < |s.nodes|
    ensures Successor(s, h) == if h + 1 == |s.nodes| then 0 else h + 1
  {
  }

  lemma FiredWaiting(s: System, s': System, h: nat, c: nat, t: Ticket)
    requires InvAt(s, h) && SystemValid(s) && s.nodes[h].manager.armed && Complete(s.nodes[h].manager)
    requires s' == Step(s, FireTimer(h)) && c < |s.nodes| == |s'.nodes| && t in s'.nodes[c].manager.prev
    ensures WaitsAhead(s', Successor(s, h), c, t)
  {
    var h' := Successor(s, h);
    FiredLives(s, s', h);
    NextRound(s, h);
    assert TicketsInv(s, h, c);
    if c != h {
      DrainedAtToken(s, h, c, t);
      assert Distance(s, c, h') == Distance(s, c, h) + 1;
    } else {
      FireCompletesIff(s, h, h);
      assert Distance(s, c, h') == 0;
    }
  }

  lemma FiredTickets(s: System, s': System, h: nat, c: nat)
    requires InvAt(s, h) && SystemValid(s) && s.booted
    requires s.nodes[h].manager.armed && Complete(s.nodes[h].manager)
    requires s' == Step(s, FireTimer(h)) && c < |s.nodes|
    ensures TicketsInv(s', Successor(s, h), c)
  {
    FiredLives(s, s', h);
    forall t | t in s'.nodes[c].ready ensures Quiet(s', t) { FiredReady(s, s', h, c, t); }
    forall t | t in s'.nodes[c].manager.prev
      ensures WaitsAhead(s', Successor(s, h), c, t)
    {
      FiredWaiting(s, s', h, c, t);
    }
  }

  lemma FireCompleteHolds(s: System, h: nat)
    requires InvAt(s, h) && SystemValid(s)
    requires s.nodes[h].manager.armed && Complete(s.nodes[h].manager)
    ensures InvAt(Step(s, FireTimer(h)), Successor(s, h))
  {
    var s' := Step(s, FireTimer(h));
    var h' := Successor(s, h);
    assert s.booted by { assert Tokens(s.nodes[h]) != 0; }
    FiredNode(s, s', h);
    forall c | 0 <= c < |s'.nodes|
      ensures Tokens(s'.nodes[c]) == if c == h' then 1 else 0
    {
      assert Tokens(s.nodes[c]) == if c == h then 1 else 0;
    }
    forall c | 0 <= c < |s'.nodes|
      ensures TicketsInv(s', h', c)
    {
      FiredTickets(s, s', h, c);
    }
  }

  /** Every action keeps the invariant; the token is at the returned core. */
  lemma StepHolds(s: System, h: nat, a: Action) returns (h': nat)
    requires InvAt(s, h) && SystemValid(s) && Enabled(s, a)
    ensures InvAt(Step(s, a), h')
  {
    h' := h;
    match a {
      case Boot => BootHolds(s, h); h' := 0;
      case DoRcu(c) => DoRcuHolds(s, h, c);
      case ReceiveToken(c) => ReceiveTokenHolds(s, h, c);
      case FireTimer(c) =>
        assert Tokens(s.nodes[c]) != 0 && c == h;
        if Complete(s.nodes[h].manager) {
          FireCompleteHolds(s, h);
          h' := Successor(s, h);
        } else {
          FireRetryHolds(s, h);
        }
      case _ => EventStepHolds(s, h, a);
    }
  }

  /** An event stays live until its own Finish. */
  lemma EventPersists(s: System, a: Action, x: (nat, nat))
    requires SystemValid(s) && Enabled(s, a) && LiveAt(s, x) && a != Finish(x.0, x.1)
    ensures LiveAt(Step(s, a), x)
  {
  }

  // --------------------------------------------------------------- whole runs

  datatype Run = Run(states: seq<System>, actions: seq<Action>)

  ghost predicate StepsTo(s: System, a: Action, s': System) {
    SystemValid(s) && Enabled(s, a) && s' == Step(s, a)
  }

  ghost predicate IsRun(r: Run) {
    |r.states| == |r.actions| + 1 && Init(r.states[0])
    && forall i {:trigger r.actions[i]} | 0 <= i < |r.actions| :: StepsTo(r.states[i], r.actions[i], r.states[i + 1])
  }

  lemma {:induction false} RunHolds(r: Run, k: nat) returns (h: nat)
    requires IsRun(r) && k < |r.states|
    ensures InvAt(r.states[k], h) && SystemValid(r.states[k])
  {
    if k == 0 {
      InitHolds(r.states[0]);
      h := 0;
    } else {
      h := RunHolds(r, k - 1);
      assert StepsTo(r.states[k - 1], r.actions[k - 1], r.states[k]);
      h := StepHolds(r.states[k - 1], h, r.actions[k - 1]);
    }
    assert forall c | 0 <= c < |r.states[k].nodes| :: NodeInv(r.states[k], r.states[k].nodes[c]);
  }

  /** In every reachable state the parity counters are the live events of that
      parity plus the leaked increments, and no decrement can underflow. */
  lemma CountersExact(r: Run, k: nat, c: nat)
    requires IsRun(r) && k < |r.states| && c < |r.states[k].nodes|
    ensures var n := r.states[k].nodes[c];
            NodeValid(n) && CountsExact(n)
            && forall e | e in n.live :: n.manager.count[n.live[e].generation % 2] > 0
  {
    var h := RunHolds(r, k);
    var n := r.states[k].nodes[c];
    assert NodeInv(r.states[k], n);
    forall e | e in n.live
      ensures n.manager.count[n.live[e].generation % 2] > 0
    {
      LeaveCounts(n, e);
    }
  }

  /** In every reachable state after boot there is exactly one token. */
  lemma TokenUnique(r: Run, k: nat)
    requires IsRun(r) && k < |r.states| && r.states[k].booted
    ensures exists h :: OneToken(r.states[k], h)
  {
    var h := RunHolds(r, k);
  }

  /** A ticket is queued by the DoRcu that makes it, with what is live then. */
  lemma QueuedBy(s: System, a: Action, c: nat, t: Ticket)
    requires SystemValid(s) && Enabled(s, a) && c < |Step(s, a).nodes| && t in Step(s, a).nodes[c].queued
    ensures |Step(s, a).nodes| == |s.nodes|
    ensures t in s.nodes[c].queued || (a.DoRcu? && t == Ticket(s.nextTicket, LiveEvents(s)))
  {
  }

  lemma CountsTickets(s: System, a: Action)
    requires SystemValid(s) && Enabled(s, a)
    ensures Step(s, a).nextTicket == s.nextTicket + if a.DoRcu? then 1 else 0
  {
  }

  lemma {:induction false} TicketRemembered(r: Run, i: nat, k: nat)
    requires IsRun(r) && i < k < |r.states| && r.actions[i].DoRcu?
    ensures r.states[k].nextTicket > r.states[i].nextTicket
    ensures forall c, t | 0 <= c < |r.states[k].nodes| && t in r.states[k].nodes[c].queued
                          && t.id == r.states[i].nextTicket ::
              t.before == LiveEvents(r.states[i])
  {
    var s, a := r.states[k - 1], r.actions[k - 1];
    assert StepsTo(s, a, r.states[k]);
    var h := RunHolds(r, k - 1);
    CountsTickets(s, a);
    if k > i + 1 {
      TicketRemembered(r, i, k - 1);
    }
    forall c, t | 0 <= c < |r.states[k].nodes| && t in r.states[k].nodes[c].queued && t.id == r.states[i].nextTicket
      ensures t.before == LiveEvents(r.states[i])
    {
      QueuedBy(s, a, c, t);
      assert NodeInv(s, s.nodes[c]);
    }
  }

  lemma {:induction false} TicketsMonotone(r: Run, i: nat, k: nat)
    requires IsRun(r) && i <= k < |r.states|
    ensures r.states[i].nextTicket <= r.states[k].nextTicket
  {
    if i < k {
      assert StepsTo(r.states[k - 1], r.actions[k - 1], r.states[k]);
      TicketsMonotone(r, i, k - 1);
    }
  }

  /** The ticket whose callback RunCallback(c) starts. */
  function Running(s: System, c: nat): Ticket
    requires c < |s.nodes| && s.nodes[c].ready != []
  {
    s.nodes[c].ready[0]
  }

  /** Grace period: when the callback queued by step i starts at step k, no
      event that was live on any core at step i, running or blocked, is live. */
  lemma GracePeriod(r: Run, i: nat, k: nat)
    requires IsRun(r) && i < |r.actions| && k < |r.actions|
    requires r.actions[i].DoRcu? && r.actions[k].RunCallback?
    requires StepsTo(r.states[k], r.actions[k], r.states[k + 1])
    requires Running(r.states[k], r.actions[k].cpu).id == r.states[i].nextTicket
    ensures i < k
    ensures LiveEvents(r.states[i]) !! LiveEvents(r.states[k])
  {
    var s, c := r.states[k], r.actions[k].cpu;
    var h := RunHolds(r, k);
    var n, t := s.nodes[c], Running(s, c);
    assert NodeInv(s, n) && TicketsInv(s, h, c);
    assert t in n.queued by {
      assert n.queued[n.started..][0] == t;
    }
    if k <= i {
      TicketsMonotone(r, k, i);
      assert false;
    }
    TicketRemembered(r, i, k);
    assert Quiet(s, t);
  }

  ghost function Deferred(r: Run, k: nat, c: nat): seq<nat>
    requires k <= |r.actions| <= |r.states|
  {
    if k == 0 then []
    else Deferred(r, k - 1, c) + if r.actions[k - 1] == DoRcu(c) then [r.states[k - 1].nextTicket] else []
  }

  ghost function Ran(r: Run, k: nat, c: nat): seq<nat>
    requires IsRun(r) && k <= |r.actions|
  {
    if k == 0 then []
    else
      assert StepsTo(r.states[k - 1], r.actions[k - 1], r.states[k]);
      Ran(r, k - 1, c) + if r.actions[k - 1] == RunCallback(c) then [Running(r.states[k - 1], c).id] else []
  }

  function Ids(ts: seq<Ticket>): seq<nat> {
    seq(|ts|, i requires 0 <= i < |ts| => ts[i].id)
  }

  lemma IdsAppend(ts: seq<Ticket>, t: Ticket)
    ensures Ids(ts + [t]) == Ids(ts) + [t.id]
  {
  }

  /** What one core has queued and run. */
  ghost predicate HistoryGrows(n: Node, n': Node, deferred: seq<nat>, ran: seq<nat>) {
    n.started <= |n.queued| && n'.started <= |n'.queued|
    && Ids(n'.queued) == Ids(n.queued) + deferred
    && Ids(n'.queued[..n'.started]) == Ids(n.queued[..n.started]) + ran
  }

  lemma RanGrows(s: System, h: nat, c: nat)
    requires InvAt(s, h) && SystemValid(s) && Enabled(s, RunCallback(c))
    ensures HistoryGrows(s.nodes[c], Step(s, RunCallback(c)).nodes[c], [], [Running(s, c).id])
  {
    var n, n' := s.nodes[c], Step(s, RunCallback(c)).nodes[c];
    assert NodeInv(s, n);
    assert n.queued[n.started..][0] == n.queued[n.started] == n.ready[0];
    assert n'.queued[..n'.started] == n.queued[..n.started] + [n.ready[0]];
    IdsAppend(n.queued[..n.started], n.ready[0]);
  }

  lemma DeferredGrows(s: System, h: nat, c: nat)
    requires InvAt(s, h) && SystemValid(s) && Enabled(s, DoRcu(c))
    ensures HistoryGrows(s.nodes[c], Step(s, DoRcu(c)).nodes[c], [s.nextTicket], [])
  {
    var n, n' := s.nodes[c], Step(s, DoRcu(c)).nodes[c];
    assert NodeInv(s, n);
    assert n'.queued[..n.started] == n.queued[..n.started];
    IdsAppend(n.queued, Ticket(s.nextTicket, LiveEvents(s)));
  }

  lemma HistoryStays(s: System, h: nat, a: Action, c: nat)
    requires InvAt(s, h) && SystemValid(s) && Enabled(s, a) && c < |s.nodes| && a != DoRcu(c) && a != RunCallback(c)
    ensures HistoryGrows(s.nodes[c], Step(s, a).nodes[c], [], [])
  {
    var n, n' := s.nodes[c], Step(s, a).nodes[c];
    assert NodeInv(s, n);
    assert n'.queued == n.queued && n'.started == n.started;
  }

  lemma HistoryStep(s: System, h: nat, a: Action, c: nat)
    requires InvAt(s, h) && SystemValid(s) && Enabled(s, a) && c < |s.nodes|
    ensures HistoryGrows(s.nodes[c], Step(s, a).nodes[c],
                         if a == DoRcu(c) then [s.nextTicket] else [],
                         if a == RunCallback(c) then [Running(s, c).id] else [])
  {
    if a == RunCallback(c) {
      RanGrows(s, h, c);
    } else if a == DoRcu(c) {
      DeferredGrows(s, h, c);
    } else {
      HistoryStays(s, h, a, c);
    }
  }

  lemma {:induction false} HistoryKept(r: Run, k: nat, c: nat)
    requires IsRun(r) && k <= |r.actions| && c < |r.states[k].nodes|
    ensures Deferred(r, k, c) == Ids(r.states[k].nodes[c].queued)
    ensures r.states[k].nodes[c].started <= |r.states[k].nodes[c].queued|
    ensures Ran(r, k, c) == Ids(r.states[k].nodes[c].queued[..r.states[k].nodes[c].started])
  {
    if k > 0 {
      var s, a := r.states[k - 1], r.actions[k - 1];
      assert StepsTo(s, a, r.states[k]);
      assert |r.states[k].nodes| == |s.nodes|;
      var h := RunHolds(r, k - 1);
      HistoryKept(r, k - 1, c);
      HistoryStep(s, h, a, c);
    }
  }

  /** Ticket numbers of one core's DoRcu calls grow, so they are all distinct. */
  lemma {:induction false} DeferredIncreasing(r: Run, k: nat, c: nat)
    requires IsRun(r) && k <= |r.actions|
    ensures forall i, j | 0 <= i < j < |Deferred(r, k, c)| :: Deferred(r, k, c)[i] < Deferred(r, k, c)[j]
    ensures forall i | 0 <= i < |Deferred(r, k, c)| :: Deferred(r, k, c)[i] < r.states[k].nextTicket
  {
    if k > 0 {
      assert StepsTo(r.states[k - 1], r.actions[k - 1], r.states[k]);
      DeferredIncreasing(r, k - 1, c);
    }
  }

  /** The callbacks a core has run are a prefix of those queued on it: none is
      lost, repeated or overtaken. */
  lemma RunsOnceInOrder(r: Run, k: nat, c: nat)
    requires IsRun(r) && k <= |r.actions| && c < |r.states[k].nodes|
    ensures Ran(r, k, c) <= Deferred(r, k, c)
    ensures forall i, j | 0 <= i < j < |Ran(r, k, c)| :: Ran(r, k, c)[i] != Ran(r, k, c)[j]
  {
    HistoryKept(r, k, c);
    DeferredIncreasing(r, k, c);
    var ran, deferred := Ran(r, k, c), Deferred(r, k, c);
    assert forall i | 0 <= i < |ran| :: ran[i] == deferred[i];
  }

  // ----------------------------------------------- what a resumed context costs

  /** Core c waits for a generation one of whose increments is never undone. */
  ghost predicate Stalled(s: System, c: nat) {
    c < |s.nodes| && NodeValid(s.nodes[c]) && s.nodes[c].manager.armed
    && s.nodes[c].leaked[s.nodes[c].manager.pending % 2] > 0
  }

  /** What a stalled core keeps, and that nothing becomes ready anywhere. */
  ghost predicate StaysStalled(s: System, s': System, c: nat)
    requires c < |s.nodes|
  {
    |s'.nodes| == |s.nodes| && Stalled(s', c)
    && s'.nodes[c].manager.generation == s.nodes[c].manager.generation
    && forall d | 0 <= d < |s.nodes| ::
         s'.nodes[d].started + |s'.nodes[d].ready| == s.nodes[d].started + |s.nodes[d].ready|
  }

  /** The timer of the stalled core fires in vain, and no other is set. */
  lemma StalledTimer(s: System, h: nat, c: nat, d: nat)
    requires InvAt(s, h) && SystemValid(s) && Stalled(s, c) && Enabled(s, FireTimer(d))
    ensures Step(s, FireTimer(d)) == s
  {
    assert Tokens(s.nodes[c]) == 1 && c == h && Tokens(s.nodes[d]) > 0 && d == h;
    FireCompletesIff(s, h, h);
    FireRetryHolds(s, h);
  }

  /** No token is under way to another core. */
  lemma StalledToken(s: System, h: nat, c: nat)
    requires InvAt(s, h) && SystemValid(s) && Stalled(s, c)
    ensures s.booted && forall d | 0 <= d < |s.nodes| :: s.nodes[d].interrupts == 0
  {
    assert Tokens(s.nodes[c]) == 1 && c == h;
    assert forall d | 0 <= d < |s.nodes| :: Tokens(s.nodes[d]) == if d == h then 1 else 0;
  }

  /** All else happens on one core and leaves its token, pending generation and the number
      of callbacks made ready alone. */
  lemma StalledOther(s: System, h: nat, c: nat, a: Action)
    requires InvAt(s, h) && SystemValid(s) && Stalled(s, c) && Enabled(s, a)
    requires !a.FireTimer? && !a.ReceiveToken? && !a.Boot?
    ensures StaysStalled(s, Step(s, a), c)
  {
    var n, n' := s.nodes[a.cpu], Step(s, a).nodes[a.cpu];
    assert n'.started + |n'.ready| == n.started + |n.ready| && n'.manager.generation == n.manager.generation;
  }

  lemma StalledStep(s: System, h: nat, c: nat, a: Action)
    requires InvAt(s, h) && SystemValid(s) && Stalled(s, c) && Enabled(s, a)
    ensures StaysStalled(s, Step(s, a), c)
  {
    StalledToken(s, h, c);
    if a.FireTimer? {
      StalledTimer(s, h, c, a.cpu);
    } else {
      StalledOther(s, h, c, a);
    }
  }

  /** Once a core is stalled no callback, on any core, becomes ready again: at
      every later time, only those ready at the stall can have been run. */
  lemma {:induction false} StallIsForever(r: Run, i: nat, k: nat, c: nat)
    requires IsRun(r) && i <= k < |r.states| && Stalled(r.states[i], c)
    ensures |r.states[k].nodes| == |r.states[i].nodes| && Stalled(r.states[k], c)
    ensures forall d | 0 <= d < |r.states[i].nodes| ::
              r.states[k].nodes[d].started + |r.states[k].nodes[d].ready|
              == r.states[i].nodes[d].started + |r.states[i].nodes[d].ready|
  {
    if i < k {
      StallIsForever(r, i, k - 1, c);
      assert StepsTo(r.states[k - 1], r.actions[k - 1], r.states[k]);
      var h := RunHolds(r, k - 1);
      StalledStep(r.states[k - 1], h, c, r.actions[k - 1]);
    }
  }

  /** A single core on which nothing was ever deferred. */
  function OneCore(m: Manager<Ticket>, live: map<nat, Activity>, leaked: seq<nat>, booted: bool, events: nat): System {
    System([Node(m, live, 0, [], leaked, [], 0)], booted, events, 0)
  }

  function Counting(generation: nat, count: seq<nat>, pending: nat): Manager<Ticket> {
    Manager(generation, count, pending, true, [], [])
  }

  /** The token is taken at boot, and an event starts, blocks and is resumed. */
  lemma ResumedOnce(s: seq<System>)
    requires s == [
      OneCore(Initial(), map[], [0, 0], false, 0),
      OneCore(Counting(1, [0, 0], 0), map[], [0, 0], true, 0),
      OneCore(Counting(1, [0, 1], 0), map[0 := Activity(1, false)], [0, 0], true, 1),
      OneCore(Counting(1, [0, 1], 0), map[0 := Activity(1, true)], [0, 0], true, 1),
      OneCore(Counting(1, [0, 2], 0), map[0 := Activity(1, false)], [0, 1], true, 1)]
    ensures Init(s[0]) && StepsTo(s[0], Boot, s[1]) && StepsTo(s[1], Start(0), s[2])
    ensures StepsTo(s[2], Block(0, 0), s[3]) && StepsTo(s[3], Activate(0, 0), s[4])
  {
    var running, blocked := Activity(1, false), Activity(1, true);
    var none: map<nat, Activity> := map[];
    assert [0, 0][1 := 1] == [0, 1] && [0, 1][1 := 2] == [0, 2] && none[0 := running] == map[0 := running];
    assert map[0 := running][0 := blocked] == map[0 := blocked];
    assert map[0 := blocked][0 := running] == map[0 := running];
    assert Step(s[1], Start(0)).nodes == s[2].nodes;
    assert Step(s[2], Block(0, 0)).nodes == s[3].nodes;
    assert Step(s[3], Activate(0, 0)).nodes == s[4].nodes;
  }

  lemma ThenFires(s: System, s': System)
    requires s == OneCore(Counting(1, [0, 2], 0), map[0 := Activity(1, false)], [0, 1], true, 1)
    requires s' == OneCore(Counting(2, [0, 2], 1), map[0 := Activity(1, false)], [0, 1], true, 1)
    ensures StepsTo(s, FireTimer(0), s') && Stalled(s', 0)
  {
    var n: seq<Ticket> := [];
    assert n + [] == n;
  }

  /** A single core that resumes one blocked context and then completes a generation has
      stalled, so no callback will ever be ready. */
  lemma ResumingStalls() returns (r: Run)
    ensures IsRun(r) && r.actions == [Boot, Start(0), Block(0, 0), Activate(0, 0), FireTimer(0)]
    ensures Stalled(r.states[5], 0)
  {
    var s := [
      OneCore(Initial(), map[], [0, 0], false, 0),
      OneCore(Counting(1, [0, 0], 0), map[], [0, 0], true, 0),
      OneCore(Counting(1, [0, 1], 0), map[0 := Activity(1, false)], [0, 0], true, 1),
      OneCore(Counting(1, [0, 1], 0), map[0 := Activity(1, true)], [0, 0], true, 1),
      OneCore(Counting(1, [0, 2], 0), map[0 := Activity(1, false)], [0, 1], true, 1)];
    var end := OneCore(Counting(2, [0, 2], 1), map[0 := Activity(1, false)], [0, 1], true, 1);
    ResumedOnce(s);
    ThenFires(s[4], end);
    r := Run(s + [end], [Boot, Start(0), Block(0, 0), Activate(0, 0), FireTimer(0)]);
  }

  ghost predicate Capped(n: Node, g: nat) {
    NodeValid(n) && n.leaked[g % 2] > 0
    && (n.manager.generation == g
        || (n.manager.generation == (g + 1) % SIZE_T && n.manager.armed && n.manager.pending == g))
  }

  /** Holding the token for good. */
  lemma CappedStays(s: System, h: nat, c: nat, a: Action, g: nat)
    requires InvAt(s, h) && SystemValid(s) && c < |s.nodes| && Enabled(s, a)
    requires g < SIZE_T && Capped(s.nodes[c], g) && s.nodes[c].manager.generation != g
    ensures |Step(s, a).nodes| == |s.nodes| && Capped(Step(s, a).nodes[c], g)
  {
    StalledStep(s, h, c, a);
    assert c == h by { assert Tokens(s.nodes[c]) != 0; }
    match a {
      case FireTimer(d) =>
        assert Tokens(s.nodes[d]) != 0;
        FireRetryHolds(s, h);
      case _ =>
    }
  }

  /** Not yet: the token may come. */
  lemma CappedMoves(s: System, h: nat, c: nat, a: Action, g: nat)
    requires InvAt(s, h) && SystemValid(s) && c < |s.nodes| && Enabled(s, a) && !a.FireTimer?
    requires g < SIZE_T && Capped(s.nodes[c], g) && s.nodes[c].manager.generation == g
    ensures |Step(s, a).nodes| == |s.nodes| && Capped(Step(s, a).nodes[c], g)
  {
    assert NodeInv(s, s.nodes[c]);
  }

  /** A timer here or elsewhere leaves the core as it is. */
  lemma CappedFires(s: System, h: nat, c: nat, d: nat, g: nat)
    requires InvAt(s, h) && SystemValid(s) && c < |s.nodes| && Enabled(s, FireTimer(d))
    requires g < SIZE_T && Capped(s.nodes[c], g) && s.nodes[c].manager.generation == g
    ensures |Step(s, FireTimer(d)).nodes| == |s.nodes| && Capped(Step(s, FireTimer(d)).nodes[c], g)
  {
    assert NodeInv(s, s.nodes[c]);
    assert Tokens(s.nodes[d]) != 0;
  }

  lemma CappedStep(s: System, h: nat, c: nat, a: Action, g: nat)
    requires InvAt(s, h) && SystemValid(s) && c < |s.nodes| && Enabled(s, a)
    requires g < SIZE_T && Capped(s.nodes[c], g)
    ensures |Step(s, a).nodes| == |s.nodes| && Capped(Step(s, a).nodes[c], g)
  {
    if s.nodes[c].manager.generation != g {
      CappedStays(s, h, c, a, g);
    } else if a.FireTimer? {
      CappedFires(s, h, c, a.cpu, g);
    } else {
      CappedMoves(s, h, c, a, g);
    }
  }

  lemma ActivationCaps(s: System, h: nat, a: Action)
    requires InvAt(s, h) && SystemValid(s) && Enabled(s, a) && a.Activate?
    ensures |Step(s, a).nodes| == |s.nodes| && s.nodes[a.cpu].manager.generation < SIZE_T
    ensures Capped(Step(s, a).nodes[a.cpu], s.nodes[a.cpu].manager.generation)
  {
    assert NodeInv(s, s.nodes[a.cpu]);
  }

  /** Resuming one blocked context through ActivateContext freezes the core: its
      generation advances at most once more in the whole rest of the run, and
      when it has advanced the core holds the token for good. */
  lemma {:induction false} ActivationFreezesGeneration(r: Run, i: nat, k: nat)
    requires IsRun(r) && i < k < |r.states| && r.actions[i].Activate?
    requires r.actions[i].cpu < |r.states[i].nodes|
    ensures var c, g := r.actions[i].cpu, r.states[i].nodes[r.actions[i].cpu].manager.generation;
            |r.states[k].nodes| == |r.states[i].nodes| && g < SIZE_T
            && Capped(r.states[k].nodes[c], g)
            && (r.states[k].nodes[c].manager.generation != g ==> Stalled(r.states[k], c))
  {
    var c, g := r.actions[i].cpu, r.states[i].nodes[r.actions[i].cpu].manager.generation;
    var h := RunHolds(r, k - 1);
    assert StepsTo(r.states[k - 1], r.actions[k - 1], r.states[k]);
    if k > i + 1 {
      ActivationFreezesGeneration(r, i, k - 1);
      CappedStep(r.states[k - 1], h, c, r.actions[k - 1], g);
    } else {
      ActivationCaps(r.states[i], h, r.actions[i]);
    }
  }
}
