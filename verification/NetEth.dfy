/** The queue of packet operations that wait for a hardware address. */
module OperationQueue {
  import opened Options

  /** A heap-allocated packet operation: `address` is what the compare-and-swap
      on the queue head compares, and may be reused after the operation is freed. */
  datatype Op = Op(id: nat, address: nat)

  function Head(queue: seq<Op>): Option<nat> {
    if queue == [] then None else Some(queue[0].address)
  }

  class Operation {
    const op: Op
    var next: Operation?

    constructor (op: Op)
      ensures this.op == op && next == null
    {
      this.op, next := op, null;
    }
  }

  class OperationQueue {
    var head: Operation?
    ghost var nodes: seq<Operation>

    ghost predicate Valid()
      reads this, nodes
    {
      head == After(-1)
      && forall i {:trigger nodes[i].next} | 0 <= i < |nodes| :: nodes[i].next == After(i)
    }

    /** What follows the i-th node. */
    ghost function After(i: int): Operation?
      requires -1 <= i < |nodes|
      reads this
    {
      if i + 1 < |nodes| then nodes[i + 1] else null
    }

    ghost function Contents(): (c: seq<Op>)
      reads this
      ensures |c| == |nodes| && forall i | 0 <= i < |c| :: c[i] == nodes[i].op
    {
      seq(|nodes|, i requires 0 <= i < |nodes| reads this => nodes[i].op)
    }

    constructor ()
      ensures Valid() && Contents() == [] && nodes == []
    {
      head, nodes := null, [];
    }

    /** A new node is linked in front. Without interference the compare-and-swap succeeds
        at once; module Arp has the interference. */
    method Push(op: Op)
      requires Valid()
      modifies this
      ensures Valid() && fresh(set n | n in nodes && n !in old(nodes))
      ensures Contents() == [op] + old(Contents())
    {
      var operation := new Operation(op);
      operation.next := head;
      head := operation;
      nodes := [operation] + nodes;
    }

    /** The move constructor: the new queue has all the nodes, the source none. */
    method Move() returns (moved: OperationQueue)
      requires Valid()
      modifies this
      ensures fresh(moved) && moved.Valid() && moved.Contents() == old(Contents())
      ensures Valid() && Contents() == []
    {
      moved := new OperationQueue();
      moved.head, moved.nodes := head, nodes;
      head, nodes := null, [];
    }

    /** Invokes newest first; queue_ itself is not reset. */
    method InvokeAndClear(log: seq<Op>) returns (invoked: seq<Op>)
      requires Valid()
      ensures invoked == log + Contents()
    {
      invoked := log;
      var current := head;
      ghost var i := 0;
      while current != null
        invariant 0 <= i <= |nodes| && current == After(i - 1)
        invariant invoked == log + Contents()[..i]
        decreases |nodes| - i
      {
        assert current == nodes[i];
        invoked := invoked + [current.op];
        current := current.next;
        i := i + 1;
      }
    }
  }
}

/** One ARP entry under concurrency: senders that found no address and are about
    to push, the first SetAddr, and the deferred second sweep of the queue, all
    running as events of the RCU system. */
module Arp {
  import opened OperationQueue
  import opened Options
  import Rcu

  type Event = (nat, nat)

  /** A sender between reading a null address and its successful swap. */
  datatype Sender = Committed(op: Op) | Loaded(op: Op, head: Option<nat>)

  /** How far the first SetAddr has come. */
  datatype Setter =
    | Unset
    | Exchanged(event: Event)
    | Sweeping(event: Event, rest: seq<Op>)
    | Waiting(ticket: nat)
    | Draining(event: Event, rest: seq<Op>)
    | Done

  /** `submitted` and `invoked` are history: every operation handed to
      EthArpSend for this entry, and the log of invocations. */
  datatype Entry = Entry(
    hwaddr: Option<nat>,
    queue: seq<Op>,
    senders: map<Event, Sender>,
    setter: Setter,
    submitted: set<Op>,
    invoked: seq<Op>)

  datatype World = World(rcu: Rcu.System, entry: Entry)

  datatype Action =
    | Runtime(action: Rcu.Action)
    | Send(event: Event, op: Op)
    | LoadHead(event: Event)
    | Swap(event: Event)
    | SetAddr(event: Event, address: nat)
    | MoveQueue
    | InvokeOne
    | Defer
    | FinishSweep

  ghost predicate Busy(e: Entry, ev: Event) {
    ev in e.senders
    || ((e.setter.Exchanged? || e.setter.Sweeping? || e.setter.Draining?) && e.setter.event == ev)
  }

  ghost predicate Idle(w: World, ev: Event) {
    Rcu.LiveAt(w.rcu, ev) && !Busy(w.entry, ev)
  }

  ghost predicate Enabled(w: World, a: Action)
    requires Rcu.SystemValid(w.rcu)
  {
    match a
    case Runtime(r) => Rcu.Enabled(w.rcu, r) && (r.Finish? ==> !Busy(w.entry, (r.cpu, r.event)))
    case Send(ev, op) => Idle(w, ev) && op !in w.entry.submitted
    case LoadHead(ev) => ev in w.entry.senders
    case Swap(ev) => ev in w.entry.senders && w.entry.senders[ev].Loaded?
    case SetAddr(ev, _) => Idle(w, ev)
    case MoveQueue => w.entry.setter.Exchanged?
    case InvokeOne => (w.entry.setter.Sweeping? || w.entry.setter.Draining?) && w.entry.setter.rest != []
    case Defer =>
      w.entry.setter.Sweeping? && w.entry.setter.rest == []
      && Rcu.Enabled(w.rcu, Rcu.DoRcu(w.entry.setter.event.0))
    case FinishSweep => w.entry.setter.Draining? && w.entry.setter.rest == []
  }

  /** The callback this entry deferred starts when the runtime runs its ticket. */
  ghost predicate OurCallback(w: World, r: Rcu.Action)
    requires Rcu.SystemValid(w.rcu) && Rcu.Enabled(w.rcu, r)
  {
    r.RunCallback? && w.entry.setter.Waiting? && Rcu.Running(w.rcu, r.cpu).id == w.entry.setter.ticket
  }

  /** EthArpSend's lookup path: push later when there is no address, else send now. */
  function Sent(e: Entry, ev: Event, op: Op): Entry {
    var e' := e.(submitted := e.submitted + {op});
    if e.hwaddr.None? then e'.(senders := e.senders[ev := Committed(op)])
    else e'.(invoked := e.invoked + [op])
  }

  function Swapped(e: Entry, ev: Event): Entry
    requires ev in e.senders && e.senders[ev].Loaded?
  {
    var Loaded(op, head) := e.senders[ev];
    if Head(e.queue) == head then e.(queue := [op] + e.queue, senders := e.senders - {ev})
    else e.(senders := e.senders[ev := Committed(op)])
  }

  function AddrSet(e: Entry, ev: Event, address: nat): Entry {
    e.(hwaddr := Some(address), setter := if e.hwaddr.None? then Exchanged(ev) else e.setter)
  }

  ghost function Step(w: World, a: Action): World
    requires Rcu.SystemValid(w.rcu) && Enabled(w, a)
  {
    var e := w.entry;
    match a
    case Runtime(r) =>
      World(Rcu.Step(w.rcu, r),
            if OurCallback(w, r) then e.(setter := Draining((r.cpu, w.rcu.nextEvent), e.queue)) else e)
    case Send(ev, op) => w.(entry := Sent(e, ev, op))
    case LoadHead(ev) => w.(entry := e.(senders := e.senders[ev := Loaded(e.senders[ev].op, Head(e.queue))]))
    case Swap(ev) => w.(entry := Swapped(e, ev))
    case SetAddr(ev, address) => w.(entry := AddrSet(e, ev, address))
    case MoveQueue => w.(entry := e.(queue := [], setter := Sweeping(e.setter.event, e.queue)))
    case InvokeOne =>
      w.(entry := e.(invoked := e.invoked + [e.setter.rest[0]],
                     setter := e.setter.(rest := e.setter.rest[1..])))
    case Defer =>
      World(Rcu.Step(w.rcu, Rcu.DoRcu(e.setter.event.0)), e.(setter := Waiting(w.rcu.nextTicket)))
    case FinishSweep => w.(entry := e.(setter := Done))
  }

  /** EthArpSend has just inserted the entry: its creator pushes without looking. */
  ghost predicate Init(w: World, creator: Event, op: Op) {
    Rcu.Inv(w.rcu) && Rcu.LiveAt(w.rcu, creator)
    && w.entry == Entry(None, [], map[creator := Committed(op)], Unset, {op}, [])
  }

  // ----------------------------------------------------------- the invariant

  /** Operations that are on some list and will still be invoked. */
  ghost function Pending(e: Entry): seq<Op> {
    match e.setter
    case Sweeping(_, rest) => rest + e.queue
    case Draining(_, rest) => rest
    case Done => []
    case _ => e.queue
  }

  ghost function Held(e: Entry): set<Op> {
    set ev | ev in e.senders :: e.senders[ev].op
  }

  ghost function Copies(e: Entry, op: Op): nat {
    multiset(e.invoked)[op] + multiset(Pending(e))[op] + if op in Held(e) then 1 else 0
  }

  /** Every submitted operation is in exactly one place, once. */
  ghost predicate Accounted(e: Entry) {
    (forall op: Op :: Copies(e, op) == if op in e.submitted then 1 else 0)
    && (forall a, b | a in e.senders && b in e.senders && e.senders[a].op == e.senders[b].op :: a == b)
  }

  ghost predicate SweepInv(w: World) {
    var e := w.entry;
    (e.setter.Unset? <==> e.hwaddr.None?)
    && (e.setter.Draining? || e.setter.Done? ==> e.senders == map[])
    && (e.setter.Waiting? ==>
          e.setter.ticket < w.rcu.nextTicket
          && forall c, t | 0 <= c < |w.rcu.nodes| && t in w.rcu.nodes[c].queued && t.id == e.setter.ticket ::
               e.senders.Keys <= t.before)
  }

  ghost predicate Inv(w: World) {
    Rcu.Inv(w.rcu) && (forall ev | ev in w.entry.senders :: Rcu.LiveAt(w.rcu, ev))
    && SweepInv(w) && Accounted(w.entry)
  }

  lemma InitHolds(w: World, creator: Event, op: Op)
    requires Init(w, creator, op)
    ensures Inv(w)
  {
    assert w.entry.senders.Keys == {creator};
    assert w.entry.senders[creator].op == op;
    assert Held(w.entry) == {op};
  }

  /** A callback that starts leaves no sender behind: all of them were live when
      it was queued, and its grace period is over. */
  lemma CallbackSeesNoSender(w: World, r: Rcu.Action)
    requires Inv(w) && Rcu.SystemValid(w.rcu) && Rcu.Enabled(w.rcu, r) && OurCallback(w, r)
    ensures w.entry.senders == map[]
  {
    var h :| Rcu.InvAt(w.rcu, h);
    var n := w.rcu.nodes[r.cpu];
    var t := Rcu.Running(w.rcu, r.cpu);
    assert Rcu.NodeInv(w.rcu, n) && Rcu.TicketsInv(w.rcu, h, r.cpu);
    assert n.queued[n.started..][0] == t;
    assert t in n.queued && Rcu.Quiet(w.rcu, t);
    assert forall ev | ev in w.entry.senders :: ev in t.before && Rcu.LiveAt(w.rcu, ev);
    assert w.entry.senders.Keys == {};
  }

  lemma RuntimeInv(s: Rcu.System, r: Rcu.Action)
    requires Rcu.Inv(s) && Rcu.SystemValid(s) && Rcu.Enabled(s, r)
    ensures Rcu.Inv(Rcu.Step(s, r))
  {
    var h :| Rcu.InvAt(s, h);
    var h' := Rcu.StepHolds(s, h, r);
  }

  lemma SweepKept(w: World, r: Rcu.Action)
    requires Inv(w) && Rcu.SystemValid(w.rcu) && Rcu.Enabled(w.rcu, r)
    ensures SweepInv(w.(rcu := Rcu.Step(w.rcu, r)))
  {
    var s' := Rcu.Step(w.rcu, r);
    assert |s'.nodes| == |w.rcu.nodes| && s'.nextTicket >= w.rcu.nextTicket;
    if w.entry.setter.Waiting? {
      forall c, t | 0 <= c < |s'.nodes| && t in s'.nodes[c].queued && t.id == w.entry.setter.ticket
        ensures w.entry.senders.Keys <= t.before
      {
        Rcu.QueuedBy(w.rcu, r, c, t);
      }
    }
  }

  lemma RuntimeHolds(w: World, r: Rcu.Action)
    requires Inv(w) && Rcu.SystemValid(w.rcu) && Enabled(w, Runtime(r))
    ensures Inv(Step(w, Runtime(r)))
  {
    var w' := Step(w, Runtime(r));
    RuntimeInv(w.rcu, r);
    forall ev | ev in w.entry.senders
      ensures Rcu.LiveAt(w'.rcu, ev)
    {
      assert Busy(w.entry, ev);
      Rcu.EventPersists(w.rcu, r, ev);
    }
    SweepKept(w, r);
    if OurCallback(w, r) {
      CallbackSeesNoSender(w, r);
      assert Pending(w'.entry) == Pending(w.entry) && Held(w'.entry) == Held(w.entry);
      assert forall op: Op :: Copies(w'.entry, op) == Copies(w.entry, op);
    }
  }

  lemma DeferHolds(w: World)
    requires Inv(w) && Rcu.SystemValid(w.rcu) && Enabled(w, Defer)
    ensures Inv(Step(w, Defer))
  {
    var w' := Step(w, Defer);
    var d := Rcu.DoRcu(w.entry.setter.event.0);
    RuntimeInv(w.rcu, d);
    forall ev | ev in w.entry.senders
      ensures Rcu.LiveAt(w'.rcu, ev)
    {
      Rcu.EventPersists(w.rcu, d, ev);
    }
    assert Pending(w'.entry) == Pending(w.entry);
    assert forall op: Op :: Copies(w'.entry, op) == Copies(w.entry, op);
    var h :| Rcu.InvAt(w.rcu, h);
    forall c, t | 0 <= c < |w'.rcu.nodes| && t in w'.rcu.nodes[c].queued && t.id == w.rcu.nextTicket
      ensures w.entry.senders.Keys <= t.before
    {
      assert Rcu.NodeInv(w.rcu, w.rcu.nodes[c]);
      assert t.before == Rcu.LiveEvents(w.rcu);
    }
  }

  lemma SendHeld(e: Entry, ev: Event, op: Op)
    requires ev !in e.senders && e.hwaddr.None?
    ensures Held(Sent(e, ev, op)) == Held(e) + {op}
  {
    var e' := Sent(e, ev, op);
    assert e'.senders[ev].op == op;
    forall o | o in Held(e)
      ensures o in Held(e')
    {
      var k :| k in e.senders && e.senders[k].op == o;
      assert k in e'.senders && e'.senders[k].op == o;
    }
  }

  lemma SendAccounted(e: Entry, ev: Event, op: Op)
    requires Accounted(e) && op !in e.submitted && ev !in e.senders
    ensures Accounted(Sent(e, ev, op))
  {
    var e' := Sent(e, ev, op);
    assert Copies(e, op) == 0;
    assert Pending(e') == Pending(e);
    if e.hwaddr.None? {
      SendHeld(e, ev, op);
      forall k | k in e.senders
        ensures e.senders[k].op != op
      {
        assert e.senders[k].op in Held(e);
      }
    } else {
      assert multiset(e'.invoked) == multiset(e.invoked) + multiset{op};
      assert Held(e') == Held(e);
    }
    forall o: Op
      ensures Copies(e', o) == if o == op then 1 else Copies(e, o)
    {
    }
  }

  /** Reloading or retrying keeps the operation with its sender. */
  lemma RetryAccounted(e: Entry, e': Entry, ev: Event)
    requires Accounted(e) && ev in e.senders
    requires e' == e.(senders := e'.senders) && e'.senders.Keys == e.senders.Keys
    requires forall k | k in e.senders :: e'.senders[k].op == e.senders[k].op
    ensures Accounted(e')
  {
    assert Held(e') == Held(e) by {
      forall k | k in e.senders
        ensures e.senders[k].op in Held(e') && e'.senders[k].op in Held(e)
      {
        assert k in e'.senders;
      }
    }
    assert forall o: Op :: Copies(e', o) == Copies(e, o);
  }

  /** A sender whose swap succeeds no longer holds its operation. */
  lemma PushedHeld(e: Entry, ev: Event)
    requires Accounted(e) && ev in e.senders && e.senders[ev].Loaded? && Head(e.queue) == e.senders[ev].head
    ensures Held(Swapped(e, ev)) == Held(e) - {e.senders[ev].op} && e.senders[ev].op in Held(e)
  {
    var e', op := Swapped(e, ev), e.senders[ev].op;
    forall o | o in Held(e) && o != op
      ensures o in Held(e')
    {
      var k :| k in e.senders && e.senders[k].op == o;
      assert k in e'.senders && e'.senders[k].op == o;
    }
  }

  lemma PushedPending(e: Entry, ev: Event)
    requires ev in e.senders && e.senders[ev].Loaded? && Head(e.queue) == e.senders[ev].head
    requires !e.setter.Draining? && !e.setter.Done?
    ensures multiset(Pending(Swapped(e, ev))) == multiset(Pending(e)) + multiset{e.senders[ev].op}
  {
  }

  lemma SwapAccounted(e: Entry, ev: Event)
    requires Accounted(e) && ev in e.senders && e.senders[ev].Loaded?
    requires !e.setter.Draining? && !e.setter.Done?
    ensures Accounted(Swapped(e, ev))
  {
    var e' := Swapped(e, ev);
    var op := e.senders[ev].op;
    if Head(e.queue) != e.senders[ev].head {
      RetryAccounted(e, e', ev);
    } else {
      PushedHeld(e, ev);
      PushedPending(e, ev);
      assert forall o: Op | o != op :: Copies(e', o) == Copies(e, o);
      assert Copies(e', op) == Copies(e, op);
    }
  }

  lemma OneMoved(x: seq<Op>, o: Op, y: seq<Op>, p: Op)
    ensures multiset(x + [o])[p] + multiset(y)[p] == multiset(x)[p] + multiset([o] + y)[p]
  {
    assert multiset(x + [o]) + multiset(y) == multiset(x) + multiset([o] + y);
    assert (multiset(x + [o]) + multiset(y))[p] == (multiset(x) + multiset([o] + y))[p];
  }

  lemma MovedAccounted(e: Entry, e': Entry, o: Op)
    requires Accounted(e) && e'.senders == e.senders && e'.submitted == e.submitted
    requires e'.invoked == e.invoked + [o] && Pending(e) == [o] + Pending(e')
    ensures Accounted(e')
  {
    assert Held(e') == Held(e);
    forall p: Op
      ensures Copies(e', p) == Copies(e, p)
    {
      OneMoved(e.invoked, o, Pending(e'), p);
    }
  }

  lemma InvokeAccounted(e: Entry)
    requires Accounted(e) && (e.setter.Sweeping? || e.setter.Draining?) && e.setter.rest != []
    ensures Accounted(e.(invoked := e.invoked + [e.setter.rest[0]], setter := e.setter.(rest := e.setter.rest[1..])))
  {
    var e' := e.(invoked := e.invoked + [e.setter.rest[0]], setter := e.setter.(rest := e.setter.rest[1..]));
    assert Pending(e) == [e.setter.rest[0]] + Pending(e');
    MovedAccounted(e, e', e.setter.rest[0]);
  }

  /** The setter moves on without touching an operation. */
  lemma SameAccounted(e: Entry, e': Entry)
    requires Accounted(e) && e'.invoked == e.invoked && e'.senders == e.senders && e'.submitted == e.submitted
    requires Pending(e') == Pending(e)
    ensures Accounted(e')
  {
    assert Held(e') == Held(e);
    assert forall o: Op :: Copies(e', o) == Copies(e, o);
  }

  lemma EntryStepAccounted(w: World, a: Action)
    requires Inv(w) && Rcu.SystemValid(w.rcu) && Enabled(w, a) && !a.Runtime? && !a.Defer?
    ensures Accounted(Step(w, a).entry)
  {
    var e, e' := w.entry, Step(w, a).entry;
    match a {
      case Send(ev, op) => SendAccounted(e, ev, op);
      case LoadHead(ev) => RetryAccounted(e, e', ev);
      case Swap(ev) => SwapAccounted(e, ev);
      case InvokeOne => InvokeAccounted(e);
      case SetAddr(_, _) => SameAccounted(e, e');
      case MoveQueue => SameAccounted(e, e');
      case FinishSweep => SameAccounted(e, e');
    }
  }

  lemma EntryStepHolds(w: World, a: Action)
    requires Inv(w) && Rcu.SystemValid(w.rcu) && Enabled(w, a) && !a.Runtime? && !a.Defer?
    ensures Inv(Step(w, a))
  {
    EntryStepAccounted(w, a);
  }

  // --------------------------------------------------------------- whole runs

  ghost predicate StepsTo(w: World, a: Action, w': World) {
    Rcu.SystemValid(w.rcu) && Enabled(w, a) && w' == Step(w, a)
  }

  ghost predicate IsRun(worlds: seq<World>, actions: seq<Action>, creator: Event, op: Op) {
    |worlds| == |actions| + 1 && Init(worlds[0], creator, op)
    && forall i {:trigger actions[i]} | 0 <= i < |actions| :: StepsTo(worlds[i], actions[i], worlds[i + 1])
  }

  lemma {:induction false} RunHolds(worlds: seq<World>, actions: seq<Action>, creator: Event, op: Op, k: nat)
    requires IsRun(worlds, actions, creator, op) && k < |worlds|
    ensures Inv(worlds[k])
  {
    if k == 0 {
      InitHolds(worlds[0], creator, op);
    } else {
      RunHolds(worlds, actions, creator, op, k - 1);
      var w, a := worlds[k - 1], actions[k - 1];
      assert StepsTo(w, a, worlds[k]);
      if a.Runtime? {
        RuntimeHolds(w, a.action);
      } else if a.Defer? {
        DeferHolds(w);
      } else {
        EntryStepHolds(w, a);
      }
    }
  }

  // ------------------------------------------------------------------ what was sent

  /** What EthArpSend has been given for this entry: the operation of its creator and
      that of every Send so far. */
  function SentOps(actions: seq<Action>, op: Op, k: nat): set<Op>
    requires k <= |actions|
  {
    if k == 0 then {op}
    else SentOps(actions, op, k - 1) + if actions[k - 1].Send? then {actions[k - 1].op} else {}
  }

  lemma {:induction false} SubmittedIs(worlds: seq<World>, actions: seq<Action>, creator: Event, op: Op, k: nat)
    requires IsRun(worlds, actions, creator, op) && k < |worlds|
    ensures worlds[k].entry.submitted == SentOps(actions, op, k)
  {
    if k > 0 {
      SubmittedIs(worlds, actions, creator, op, k - 1);
      assert StepsTo(worlds[k - 1], actions[k - 1], worlds[k]);
    }
  }

  lemma PlacedOnce(e: Entry)
    requires Accounted(e)
    ensures forall o: Op :: multiset(e.invoked)[o] <= if o in e.submitted then 1 else 0
    ensures forall o | o in e.submitted :: multiset(e.invoked)[o] == 1 || o in Pending(e) || o in Held(e)
  {
    forall o: Op
      ensures multiset(e.invoked)[o] <= if o in e.submitted then 1 else 0
      ensures o in e.submitted ==> multiset(e.invoked)[o] == 1 || o in Pending(e) || o in Held(e)
    {
      assert Copies(e, o) == if o in e.submitted then 1 else 0;
    }
  }

  /** In every interleaving no operation is ever invoked twice, none that was not sent,
      and one that has not been invoked is on its way; once the deferred sweep is done
      every operation sent so far has been invoked exactly once and no sender is about to
      push. */
  lemma ExactlyOnce(worlds: seq<World>, actions: seq<Action>, creator: Event, op: Op, k: nat)
    requires IsRun(worlds, actions, creator, op) && k < |worlds|
    ensures var e, sent := worlds[k].entry, SentOps(actions, op, k);
      && (forall o: Op :: multiset(e.invoked)[o] <= if o in sent then 1 else 0)
      && (forall o | o in sent :: multiset(e.invoked)[o] == 1 || o in Pending(e) || o in Held(e))
      && (e.setter.Done? ==> e.senders == map[] && forall o | o in sent :: multiset(e.invoked)[o] == 1)
  {
    RunHolds(worlds, actions, creator, op, k);
    SubmittedIs(worlds, actions, creator, op, k);
    var e := worlds[k].entry;
    PlacedOnce(e);
    assert e.setter.Done? ==> Held(e) == {} && Pending(e) == [];
  }

  lemma SentOnce(e: Entry, ev: Event, op: Op)
    requires Accounted(e) && op !in e.submitted && ev !in e.senders
    ensures multiset(Sent(e, ev, op).invoked)[op] == if e.hwaddr.Some? then 1 else 0
  {
    PlacedOnce(e);
    assert e.hwaddr.Some? ==> multiset(e.invoked + [op]) == multiset(e.invoked) + multiset{op};
  }

  /** A packet for a known address goes out at once, and once; one for an unknown address
      is with its sender. */
  lemma SendIsDone(worlds: seq<World>, actions: seq<Action>, creator: Event, op: Op, k: nat)
    requires IsRun(worlds, actions, creator, op) && k < |actions| && actions[k].Send?
    ensures var e, e', o := worlds[k].entry, worlds[k + 1].entry, actions[k].op;
      if e.hwaddr.Some? then e'.invoked == e.invoked + [o] && multiset(e'.invoked)[o] == 1
      else e'.invoked == e.invoked && actions[k].event in e'.senders && e'.senders[actions[k].event].op == o
  {
    assert StepsTo(worlds[k], actions[k], worlds[k + 1]);
    assert Accounted(worlds[k].entry) by { RunHolds(worlds, actions, creator, op, k); }
    SentOnce(worlds[k].entry, actions[k].event, actions[k].op);
  }

  // -------------------------------------------------------------------- how it goes on

  /** The address that was set last. */
  function LastAddress(actions: seq<Action>, k: nat): Option<nat>
    requires k <= |actions|
  {
    if k == 0 then None
    else if actions[k - 1].SetAddr? then Some(actions[k - 1].address) else LastAddress(actions, k - 1)
  }

  /** An entry has the address that was set last, and its first sweep begins with the
      first one. */
  lemma {:induction false} AddressIs(worlds: seq<World>, actions: seq<Action>, creator: Event, op: Op, k: nat)
    requires IsRun(worlds, actions, creator, op) && k < |worlds|
    ensures worlds[k].entry.hwaddr == LastAddress(actions, k)
    ensures worlds[k].entry.setter.Unset? <==> LastAddress(actions, k).None?
  {
    RunHolds(worlds, actions, creator, op, k);
    if k > 0 {
      AddressIs(worlds, actions, creator, op, k - 1);
      assert StepsTo(worlds[k - 1], actions[k - 1], worlds[k]);
    }
  }

  /** What the setter still has to do, most important first. */
  function Stage(s: Setter): nat {
    match s
    case Unset => 5
    case Exchanged(_) => 4
    case Sweeping(_, _) => 3
    case Waiting(_) => 2
    case Draining(_, _) => 1
    case Done => 0
  }

  function Rest(s: Setter): nat {
    if s.Sweeping? || s.Draining? then |s.rest| else 0
  }

  predicate Nearer(s: Setter, s': Setter) {
    Stage(s') < Stage(s) || (Stage(s') == Stage(s) && Rest(s') < Rest(s))
  }

  ghost predicate Sweeps(w: World, a: Action)
    requires Rcu.SystemValid(w.rcu) && Enabled(w, a)
  {
    a.MoveQueue? || a.InvokeOne? || a.Defer? || a.FinishSweep? || (a.Runtime? && OurCallback(w, a.action))
  }

  /** What the setter does next, when it need not wait. */
  function NextSweep(s: Setter): Action {
    match s
    case Exchanged(_) => MoveQueue
    case Sweeping(_, rest) => if rest != [] then InvokeOne else Defer
    case Draining(_, rest) => if rest != [] then InvokeOne else FinishSweep
    case _ => FinishSweep
  }

  lemma SetterStays(w: World, a: Action)
    requires Rcu.SystemValid(w.rcu) && Enabled(w, a)
    requires var s := w.entry.setter;
      s.Exchanged? || s.Sweeping? || s.Draining? ==> Rcu.LiveAt(w.rcu, s.event)
    ensures var s := Step(w, a).entry.setter;
      s.Exchanged? || s.Sweeping? || s.Draining? ==> Rcu.LiveAt(Step(w, a).rcu, s.event)
  {
    var s := w.entry.setter;
    if a.Runtime? && (s.Exchanged? || s.Sweeping? || s.Draining?) {
      assert Busy(w.entry, s.event);
      Rcu.EventPersists(w.rcu, a.action, s.event);
    }
  }

  /** A setter that sweeps is an event under way. */
  lemma {:induction false} SetterLives(worlds: seq<World>, actions: seq<Action>, creator: Event, op: Op, k: nat)
    requires IsRun(worlds, actions, creator, op) && k < |worlds|
    ensures var s := worlds[k].entry.setter;
      s.Exchanged? || s.Sweeping? || s.Draining? ==> Rcu.LiveAt(worlds[k].rcu, s.event)
  {
    if k > 0 {
      SetterLives(worlds, actions, creator, op, k - 1);
      var w, a := worlds[k - 1], actions[k - 1];
      assert StepsTo(w, a, worlds[k]);
      SetterStays(w, a);
    }
  }

  /** Once an address is set the sweep only comes nearer its end, with every step it
      takes, and it can take one unless it waits for its callback or is done. */
  lemma SweepProceeds(worlds: seq<World>, actions: seq<Action>, creator: Event, op: Op, k: nat)
    requires IsRun(worlds, actions, creator, op) && k < |actions| && LastAddress(actions, k).Some?
    ensures Rcu.SystemValid(worlds[k].rcu) && Enabled(worlds[k], actions[k])
    ensures var s, s' := worlds[k].entry.setter, worlds[k + 1].entry.setter;
      && (if Sweeps(worlds[k], actions[k]) then Nearer(s, s') else s' == s)
      && (!s.Waiting? && !s.Done? ==> Enabled(worlds[k], NextSweep(s)))
  {
    AddressIs(worlds, actions, creator, op, k);
    SetterLives(worlds, actions, creator, op, k);
    assert StepsTo(worlds[k], actions[k], worlds[k + 1]);
  }

  /** The ticket is queued on some core and its callback has not started. */
  ghost predicate Queued(s: Rcu.System, ticket: nat) {
    exists c, i | 0 <= c < |s.nodes| && s.nodes[c].started <= i < |s.nodes[c].queued| ::
      s.nodes[c].queued[i].id == ticket
  }

  lemma QueueGrows(s: Rcu.System, r: Rcu.Action, c: nat)
    requires Rcu.SystemValid(s) && Rcu.Enabled(s, r) && c < |s.nodes|
    ensures |Rcu.Step(s, r).nodes| == |s.nodes|
    ensures var n, n' := s.nodes[c], Rcu.Step(s, r).nodes[c];
      n.queued <= n'.queued && n'.started == n.started + if r == Rcu.RunCallback(c) then 1 else 0
  {
  }

  lemma FirstRuns(s: Rcu.System, h: nat, c: nat)
    requires Rcu.InvAt(s, h) && Rcu.SystemValid(s) && Rcu.Enabled(s, Rcu.RunCallback(c))
    ensures var n := s.nodes[c]; n.started < |n.queued| && n.queued[n.started] == Rcu.Running(s, c)
  {
    var n := s.nodes[c];
    assert Rcu.NodeInv(s, n);
    assert n.queued[n.started..][0] == n.ready[0];
  }

  lemma QueuedStays(s: Rcu.System, h: nat, r: Rcu.Action, ticket: nat)
    requires Rcu.InvAt(s, h) && Rcu.SystemValid(s) && Rcu.Enabled(s, r) && Queued(s, ticket)
    requires r.RunCallback? ==> Rcu.Running(s, r.cpu).id != ticket
    ensures Queued(Rcu.Step(s, r), ticket)
  {
    var c, i :| 0 <= c < |s.nodes| && s.nodes[c].started <= i < |s.nodes[c].queued| && s.nodes[c].queued[i].id == ticket;
    QueueGrows(s, r, c);
    if r == Rcu.RunCallback(c) { FirstRuns(s, h, c); }
    assert Rcu.Step(s, r).nodes[c].queued[i] == s.nodes[c].queued[i];
  }

  lemma QueuedFirst(s: Rcu.System, h: nat, c: nat)
    requires Rcu.InvAt(s, h) && Rcu.SystemValid(s) && Rcu.Enabled(s, Rcu.DoRcu(c))
    ensures Queued(Rcu.Step(s, Rcu.DoRcu(c)), s.nextTicket)
  {
    var n, n' := s.nodes[c], Rcu.Step(s, Rcu.DoRcu(c)).nodes[c];
    assert Rcu.NodeInv(s, n);
    assert n'.queued[|n.queued|].id == s.nextTicket;
  }

  lemma WaitingNext(w: World, a: Action)
    requires Rcu.Inv(w.rcu) && Rcu.SystemValid(w.rcu) && Enabled(w, a)
    requires w.entry.setter.Waiting? ==> Queued(w.rcu, w.entry.setter.ticket)
    ensures var w' := Step(w, a); w'.entry.setter.Waiting? ==> Queued(w'.rcu, w'.entry.setter.ticket)
  {
    var h :| Rcu.InvAt(w.rcu, h);
    if a.Runtime? && w.entry.setter.Waiting? && !OurCallback(w, a.action) {
      QueuedStays(w.rcu, h, a.action, w.entry.setter.ticket);
    } else if a.Defer? {
      QueuedFirst(w.rcu, h, w.entry.setter.event.0);
    }
  }

  /** While the second sweep waits, its callback is queued: it cannot be lost. */
  lemma {:induction false} WaitingIsQueued(worlds: seq<World>, actions: seq<Action>, creator: Event, op: Op, k: nat)
    requires IsRun(worlds, actions, creator, op) && k < |worlds| && worlds[k].entry.setter.Waiting?
    ensures Queued(worlds[k].rcu, worlds[k].entry.setter.ticket)
  {
    if k > 0 {
      if worlds[k - 1].entry.setter.Waiting? { WaitingIsQueued(worlds, actions, creator, op, k - 1); }
      assert Rcu.Inv(worlds[k - 1].rcu) by { RunHolds(worlds, actions, creator, op, k - 1); }
      assert StepsTo(worlds[k - 1], actions[k - 1], worlds[k]);
      WaitingNext(worlds[k - 1], actions[k - 1]);
    }
  }

  /** A sender that loads the head and swaps with nobody in between has pushed: its
      operation is in front of the queue. Any sender can always do so. */
  lemma UndisturbedPushes(worlds: seq<World>, actions: seq<Action>, creator: Event, op: Op, k: nat, ev: Event)
    requires IsRun(worlds, actions, creator, op) && k + 1 < |actions| && ev in worlds[k].entry.senders
    ensures Rcu.SystemValid(worlds[k].rcu) && Enabled(worlds[k], LoadHead(ev))
    ensures actions[k] == LoadHead(ev) && actions[k + 1] == Swap(ev) ==>
      ev !in worlds[k + 2].entry.senders
      && worlds[k + 2].entry.queue == [worlds[k].entry.senders[ev].op] + worlds[k].entry.queue
  {
    assert StepsTo(worlds[k], actions[k], worlds[k + 1]);
    assert StepsTo(worlds[k + 1], actions[k + 1], worlds[k + 2]);
  }

  /** No push can happen once the deferred sweep has read the queue. */
  lemma NoPushAfterSweep(worlds: seq<World>, actions: seq<Action>, creator: Event, op: Op, k: nat)
    requires IsRun(worlds, actions, creator, op) && k < |actions|
    requires worlds[k].entry.setter.Draining? || worlds[k].entry.setter.Done?
    ensures !actions[k].Swap? && !actions[k].LoadHead?
    ensures worlds[k + 1].entry.queue == worlds[k].entry.queue
  {
    RunHolds(worlds, actions, creator, op, k);
    assert StepsTo(worlds[k], actions[k], worlds[k + 1]);
  }
}
