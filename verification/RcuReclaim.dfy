/** Erase, then DoRcu, then delete: a list node is used again only after the callback
    that its erasure deferred has run. Readers traverse inside events, and the grace
    period of the event manager is what the list relies on. */
module RcuReclaim {
  import opened Options
  import R = RcuReaders
  import Rcu
  import T = RcuTraversal

  type Event = (nat, nat)

  /** `owner` is the event a traversal runs in, `retired` holds the nodes that are
      erased and not yet handed to DoRcu, `tickets` those whose callback has not run. */
  datatype World = World(
    rcu: Rcu.System,
    list: R.World,
    owner: map<nat, Event>,
    retired: set<nat>,
    tickets: map<nat, nat>)

  datatype Action =
    | Runtime(action: Rcu.Action)
    | Read(event: Event, reader: nat)
    | On(x: R.Action)
    | Defer(node: nat, cpu: nat)

  ghost predicate Reading(w: World, ev: Event) {
    exists r :: R.Active(w.list, r) && r in w.owner && w.owner[r] == ev
  }

  /** An event ends after its traversals. A node is pushed when it is new or has been
      deleted since; nothing is asked about the readers. */
  ghost predicate Enabled(w: World, a: Action) {
    match a
    case Runtime(x) =>
      Rcu.SystemValid(w.rcu) && Rcu.Enabled(w.rcu, x) && (x.Finish? ==> !Reading(w, (x.cpu, x.event)))
    case Read(ev, r) => Rcu.LiveAt(w.rcu, ev) && r !in w.list.readers
    case On(BeginPush(n)) => w.list.writer.Idle? && n !in w.list.list && n !in w.retired && n !in w.tickets
    case On(BeginRead(_)) => false
    case On(x) => R.Enabled(w.list, x)
    case Defer(n, c) => n in w.retired && Rcu.SystemValid(w.rcu) && Rcu.Enabled(w.rcu, Rcu.DoRcu(c))
  }

  ghost function Erased(l: R.World, x: R.Action): set<nat> {
    if x.Store? && l.writer.EraseUnlink? then {l.writer.node} else {}
  }

  /** A push begins, whoever may be reading; all else is as in RcuReaders. */
  ghost function Listed(l: R.World, x: R.Action): R.World
    requires x.BeginPush? || R.Enabled(l, x)
  {
    if x.BeginPush? then l.(writer := R.PushNext(x.node, l.links.head)) else R.Step(l, x)
  }

  ghost function Step(w: World, a: Action): World
    requires Enabled(w, a)
  {
    match a
    case Runtime(x) =>
      w.(rcu := Rcu.Step(w.rcu, x),
         tickets := if x.RunCallback? then
             map n | n in w.tickets && w.tickets[n] != Rcu.Running(w.rcu, x.cpu).id :: w.tickets[n]
           else w.tickets)
    case Read(ev, r) =>
      w.(list := R.Step(w.list, R.BeginRead(r)), owner := w.owner[r := ev])
    case On(x) =>
      w.(list := Listed(w.list, x), retired := w.retired + Erased(w.list, x))
    case Defer(n, c) =>
      w.(rcu := Rcu.Step(w.rcu, Rcu.DoRcu(c)), retired := w.retired - {n}, tickets := w.tickets[n := w.rcu.nextTicket])
  }

  ghost predicate Init(w: World) {
    Rcu.Init(w.rcu) && R.Init(w.list) && w.owner == map[] && w.retired == {} && w.tickets == map[]
  }

  // ------------------------------------------------------------- the invariant

  /** Every traversal under way runs in a live event. */
  ghost predicate Owned(w: World) {
    forall r | R.Active(w.list, r) :: r in w.owner && Rcu.LiveAt(w.rcu, w.owner[r])
  }

  /** The callback of an erased node waits for the traversals it must outlive. */
  ghost predicate Awaits(w: World, n: nat, t: Rcu.Ticket)
    requires n in w.list.waits
  {
    forall r | r in w.list.waits[n] && R.Active(w.list, r) :: r in w.owner && w.owner[r] in t.before
  }

  ghost predicate Ticketed(w: World) {
    (forall n | n in w.tickets :: n in w.list.waits && w.tickets[n] < w.rcu.nextTicket)
    && forall n, c, t | n in w.tickets && 0 <= c < |w.rcu.nodes| && t in w.rcu.nodes[c].queued && t.id == w.tickets[n] ::
         Awaits(w, n, t)
  }

  /** The node a push is about to publish. */
  ghost predicate Pushing(l: R.World, n: nat) {
    (l.writer.PushNext? || l.writer.PushPprev? || l.writer.PushHead?) && l.writer.node == n
  }

  ghost predicate Outside(w: World, n: nat) {
    n in w.list.waits && n !in w.list.list && !Pushing(w.list, n)
  }

  ghost predicate Apart(w: World) {
    (forall n | n in w.retired :: Outside(w, n)) && (forall n | n in w.tickets :: Outside(w, n))
  }

  /** An erased node that neither waits for DoRcu nor for its callback has no reader. */
  ghost predicate Reclaimed(w: World) {
    forall n | n in w.list.waits && n !in w.retired && n !in w.tickets :: R.GraceOver(w.list, n)
  }

  ghost predicate Inv(w: World) {
    Rcu.Inv(w.rcu) && R.Inv(w.list) && Owned(w) && Ticketed(w) && Apart(w) && Reclaimed(w)
  }

  /** What the list asks of a push, that the grace period is over, is met. */
  lemma Admitted(w: World, x: R.Action)
    requires Inv(w) && Enabled(w, On(x))
    ensures R.Enabled(w.list, x) && Listed(w.list, x) == R.Step(w.list, x)
  {
  }

  lemma InitHolds(w: World)
    requires Init(w)
    ensures Inv(w)
  {
    Rcu.InitHolds(w.rcu);
    R.InitHolds(w.list);
  }

  // ------------------------------------------------------------ the event manager

  lemma RuntimeInv(s: Rcu.System, x: Rcu.Action)
    requires Rcu.Inv(s) && Rcu.SystemValid(s) && Rcu.Enabled(s, x)
    ensures Rcu.Inv(Rcu.Step(s, x))
  {
    var h :| Rcu.InvAt(s, h);
    var h' := Rcu.StepHolds(s, h, x);
  }

  lemma OwnersStay(w: World, x: Rcu.Action)
    requires Owned(w) && Enabled(w, Runtime(x))
    ensures Owned(w.(rcu := Rcu.Step(w.rcu, x)))
  {
    forall r | R.Active(w.list, r)
      ensures Rcu.LiveAt(Rcu.Step(w.rcu, x), w.owner[r])
    {
      assert Reading(w, w.owner[r]);
      Rcu.EventPersists(w.rcu, x, w.owner[r]);
    }
  }

  /** When a callback starts, the traversals its node had to outlive are over. */
  lemma CallbackIsSafe(w: World, c: nat, n: nat)
    requires Inv(w) && Rcu.SystemValid(w.rcu) && Rcu.Enabled(w.rcu, Rcu.RunCallback(c))
    requires n in w.tickets && w.tickets[n] == Rcu.Running(w.rcu, c).id
    ensures R.GraceOver(w.list, n)
  {
    var h :| Rcu.InvAt(w.rcu, h);
    var node, t := w.rcu.nodes[c], Rcu.Running(w.rcu, c);
    assert Rcu.NodeInv(w.rcu, node) && Rcu.TicketsInv(w.rcu, h, c);
    assert node.queued[node.started..][0] == t;
    assert t in node.queued && Rcu.Quiet(w.rcu, t) && Awaits(w, n, t);
    assert forall r | r in w.list.waits[n] && R.Active(w.list, r) :: Rcu.LiveAt(w.rcu, w.owner[r]);
  }

  /** Tickets that are queued already keep what they wait for. */
  lemma TicketsStay(w: World, w': World, x: Rcu.Action)
    requires Ticketed(w) && Rcu.SystemValid(w.rcu) && Rcu.Enabled(w.rcu, x) && w'.rcu == Rcu.Step(w.rcu, x)
    requires w'.list == w.list && w'.owner == w.owner
    requires forall n | n in w'.tickets :: n in w.tickets && w'.tickets[n] == w.tickets[n]
    ensures Ticketed(w')
  {
    Rcu.CountsTickets(w.rcu, x);
    forall n, c, t | n in w'.tickets && 0 <= c < |w'.rcu.nodes| && t in w'.rcu.nodes[c].queued && t.id == w'.tickets[n]
      ensures Awaits(w', n, t)
    {
      Rcu.QueuedBy(w.rcu, x, c, t);
      assert Awaits(w, n, t);
    }
  }

  lemma RuntimeHolds(w: World, x: Rcu.Action)
    requires Inv(w) && Enabled(w, Runtime(x))
    ensures Inv(Step(w, Runtime(x)))
  {
    var w' := Step(w, Runtime(x));
    RuntimeInv(w.rcu, x);
    OwnersStay(w, x);
    TicketsStay(w, w', x);
    forall n | n in w'.list.waits && n !in w'.retired && n !in w'.tickets
      ensures R.GraceOver(w'.list, n)
    {
      if n in w.tickets { CallbackIsSafe(w, x.cpu, n); }
    }
  }

  /** The ticket of a node that is retired now waits for every traversal under way. */
  lemma NewTicket(w: World, n: nat, cpu: nat, c: nat, t: Rcu.Ticket)
    requires Inv(w) && Enabled(w, Defer(n, cpu)) && n in w.list.waits
    requires var s := Rcu.Step(w.rcu, Rcu.DoRcu(cpu)); c < |s.nodes| && t in s.nodes[c].queued
    requires t.id == w.rcu.nextTicket
    ensures Awaits(w, n, t)
  {
    var h :| Rcu.InvAt(w.rcu, h);
    Rcu.QueuedBy(w.rcu, Rcu.DoRcu(cpu), c, t);
    assert Rcu.NodeInv(w.rcu, w.rcu.nodes[c]);
    assert t.before == Rcu.LiveEvents(w.rcu);
  }

  lemma DeferTickets(w: World, n: nat, cpu: nat)
    requires Inv(w) && Enabled(w, Defer(n, cpu))
    ensures Ticketed(Step(w, Defer(n, cpu)))
  {
    var w', x := Step(w, Defer(n, cpu)), Rcu.DoRcu(cpu);
    Rcu.CountsTickets(w.rcu, x);
    assert Outside(w, n);
    forall m, c, t | m in w'.tickets && 0 <= c < |w'.rcu.nodes| && t in w'.rcu.nodes[c].queued && t.id == w'.tickets[m]
      ensures Awaits(w', m, t)
    {
      if m == n {
        NewTicket(w, n, cpu, c, t);
        assert Awaits(w, n, t);
      } else {
        Rcu.QueuedBy(w.rcu, x, c, t);
        assert Awaits(w, m, t);
      }
    }
  }

  lemma DeferHolds(w: World, n: nat, cpu: nat)
    requires Inv(w) && Enabled(w, Defer(n, cpu))
    ensures Inv(Step(w, Defer(n, cpu)))
  {
    var x := Rcu.DoRcu(cpu);
    RuntimeInv(w.rcu, x);
    assert Enabled(w, Runtime(x));
    OwnersStay(w, x);
    DeferTickets(w, n, cpu);
    assert Outside(w, n);
  }

  // --------------------------------------------------------------------- the list

  /** Only BeginRead starts a traversal. */
  lemma NoNewReader(l: R.World, x: R.Action, r: nat)
    requires R.Enabled(l, x) && !x.BeginRead? && R.Active(R.Step(l, x), r)
    ensures R.Active(l, r)
  {
  }

  /** How a step of the list changes who waits for what. */
  predicate WaitsStep(l: R.World, x: R.Action, waits: map<nat, set<nat>>) {
    if x.Store? && l.writer.EraseUnlink? then
      waits.Keys == l.waits.Keys + {l.writer.node}
      && forall n | n in l.waits && n != l.writer.node :: waits[n] == l.waits[n]
    else if x.Store? && l.writer.PushHead? then waits == l.waits - {l.writer.node}
    else waits == l.waits
  }

  lemma WaitsAfter(l: R.World, x: R.Action)
    requires R.Enabled(l, x)
    ensures WaitsStep(l, x, R.Step(l, x).waits)
  {
    if x.Store? && l.writer.EraseUnlink? {
      var n := l.writer.node;
      assert R.Unpublished(l, n).waits == l.waits[n := set r | r in l.readers && l.readers[r].pos.Some?];
    }
  }

  lemma {:induction false} WithoutHas(list: seq<nat>, n: nat, m: nat)
    requires m in R.RcuList.Without(list, n)
    ensures m in list
  {
    if list[0] != n && m != list[0] {
      WithoutHas(list[1..], n, m);
    }
  }

  /** What is not in the list gets into it only by being pushed. */
  lemma StaysOutside(l: R.World, x: R.Action, n: nat)
    requires R.Enabled(l, x) && n !in l.list && !Pushing(l, n) && x != R.BeginPush(n)
    ensures n !in R.Step(l, x).list && !Pushing(R.Step(l, x), n)
  {
    if x.Store? && l.writer.EraseUnlink? && n in R.Step(l, x).list {
      WithoutHas(l.list, l.writer.node, n);
    }
  }

  lemma OutsideStays(l: R.World, x: R.Action, n: nat)
    requires R.Inv(l) && R.Enabled(l, x) && x != R.BeginPush(n)
    requires n in l.waits && n !in l.list && !Pushing(l, n)
    ensures n in R.Step(l, x).waits && n !in R.Step(l, x).list && !Pushing(R.Step(l, x), n)
  {
    WaitsAfter(l, x);
    StaysOutside(l, x, n);
  }

  lemma ErasedIsOutside(l: R.World)
    requires R.Inv(l) && l.writer.EraseUnlink?
    ensures var l' := R.Stored(l); l.writer.node in l'.waits && l.writer.node !in l'.list && l'.writer.EraseBack?
  {
    var i := R.UnlinkedList(l);
  }

  lemma OutsideAfter(w: World, w': World, x: R.Action, n: nat)
    requires Inv(w) && Enabled(w, On(x)) && (n in w.retired || n in w.tickets)
    requires R.Enabled(w.list, x) && w'.list == R.Step(w.list, x)
    ensures Outside(w', n)
  {
    assert Outside(w, n);
    OutsideStays(w.list, x, n);
  }

  lemma ErasedAfter(w: World, w': World, n: nat)
    requires Inv(w) && w.list.writer.EraseUnlink? && n == w.list.writer.node && w'.list == R.Stored(w.list)
    ensures Outside(w', n)
  {
    ErasedIsOutside(w.list);
  }

  lemma OnApart(w: World, w': World, x: R.Action)
    requires Inv(w) && Enabled(w, On(x)) && R.Enabled(w.list, x) && w'.list == R.Step(w.list, x)
    requires w'.retired == w.retired + Erased(w.list, x) && w'.tickets == w.tickets
    ensures Apart(w')
  {
    forall n | n in w.retired || n in w.tickets
      ensures Outside(w', n)
    {
      OutsideAfter(w, w', x, n);
    }
    forall n | n in Erased(w.list, x)
      ensures Outside(w', n)
    {
      ErasedAfter(w, w', n);
    }
  }

  /** No traversal begins, and who waits for a ticketed node does not change. */
  lemma OnTickets(w: World, x: R.Action)
    requires Inv(w) && Enabled(w, On(x))
    ensures Ticketed(Step(w, On(x)))
  {
    var w' := Step(w, On(x));
    Admitted(w, x);
    WaitsAfter(w.list, x);
    forall n | n in w'.tickets
      ensures n in w'.list.waits && w'.list.waits[n] == w.list.waits[n]
    {
      assert Outside(w, n);
    }
    forall n, c, t | n in w'.tickets && 0 <= c < |w'.rcu.nodes| && t in w'.rcu.nodes[c].queued && t.id == w'.tickets[n]
      ensures Awaits(w', n, t)
    {
      assert Awaits(w, n, t);
      forall r | R.Active(w'.list, r) ensures R.Active(w.list, r) { NoNewReader(w.list, x, r); }
    }
  }

  lemma OnReclaims(w: World, x: R.Action)
    requires Inv(w) && Enabled(w, On(x))
    ensures Reclaimed(Step(w, On(x)))
  {
    var w' := Step(w, On(x));
    Admitted(w, x);
    WaitsAfter(w.list, x);
    forall n | n in w'.list.waits && n !in w'.retired && n !in w'.tickets
      ensures R.GraceOver(w'.list, n)
    {
      assert R.GraceOver(w.list, n);
      forall r | R.Active(w'.list, r) ensures R.Active(w.list, r) { NoNewReader(w.list, x, r); }
    }
  }

  lemma OnHolds(w: World, x: R.Action)
    requires Inv(w) && Enabled(w, On(x))
    ensures Inv(Step(w, On(x)))
  {
    var w' := Step(w, On(x));
    Admitted(w, x);
    R.StepHolds(w.list, x);
    forall r | R.Active(w'.list, r) ensures R.Active(w.list, r) { NoNewReader(w.list, x, r); }
    OnTickets(w, x);
    OnReclaims(w, x);
    OnApart(w, w', x);
  }

  /** A traversal that begins is waited for by no node erased before. */
  lemma ReadHolds(w: World, ev: Event, r: nat)
    requires Inv(w) && Enabled(w, Read(ev, r))
    ensures Inv(Step(w, Read(ev, r)))
  {
    var w' := Step(w, Read(ev, r));
    R.StepHolds(w.list, R.BeginRead(r));
    forall n, c, t | n in w'.tickets && 0 <= c < |w'.rcu.nodes| && t in w'.rcu.nodes[c].queued && t.id == w'.tickets[n]
      ensures Awaits(w', n, t)
    {
      assert Awaits(w, n, t);
    }
    forall n | n in w.retired || n in w.tickets
      ensures Outside(w', n)
    {
      assert Outside(w, n);
    }
    forall n | n in w'.list.waits && n !in w'.retired && n !in w'.tickets
      ensures R.GraceOver(w'.list, n)
    {
      assert R.GraceOver(w.list, n);
    }
  }

  lemma StepHolds(w: World, a: Action)
    requires Inv(w) && Enabled(w, a)
    ensures Inv(Step(w, a))
  {
    match a
    case Runtime(x) => RuntimeHolds(w, x);
    case Read(ev, r) => ReadHolds(w, ev, r);
    case On(x) => OnHolds(w, x);
    case Defer(n, c) => DeferHolds(w, n, c);
  }

  // ------------------------------------------------------------------- whole runs

  datatype Run = Run(worlds: seq<World>, actions: seq<Action>)

  ghost predicate StepsTo(w: World, a: Action, w': World) {
    Enabled(w, a) && w' == Step(w, a)
  }

  ghost predicate IsRun(r: Run) {
    |r.worlds| == |r.actions| + 1 && Init(r.worlds[0])
    && forall i {:trigger r.actions[i]} | 0 <= i < |r.actions| :: StepsTo(r.worlds[i], r.actions[i], r.worlds[i + 1])
  }

  lemma {:induction false} RunHolds(r: Run, k: nat)
    requires IsRun(r) && k < |r.worlds|
    ensures Inv(r.worlds[k])
  {
    if k == 0 {
      InitHolds(r.worlds[0]);
    } else {
      RunHolds(r, k - 1);
      assert StepsTo(r.worlds[k - 1], r.actions[k - 1], r.worlds[k]);
      StepHolds(r.worlds[k - 1], r.actions[k - 1]);
    }
  }

  /** A node is pushed again only when no traversal under way can come across it. */
  lemma ReuseIsSafe(r: Run, k: nat, id: nat)
    requires IsRun(r) && k < |r.actions| && r.actions[k].On? && r.actions[k].x.BeginPush?
    requires R.Active(r.worlds[k].list, id)
    ensures r.actions[k].x.node !in r.worlds[k].list.readers[id].reach
  {
    RunHolds(r, k);
    assert StepsTo(r.worlds[k], r.actions[k], r.worlds[k + 1]);
    var w, n := r.worlds[k], r.actions[k].x.node;
    Admitted(w, r.actions[k].x);
    R.OutOfReach(w.list, n, id);
  }

  /** Node n waits for its callback, and for nothing else. */
  ghost predicate AwaitsCallback(w: World, n: nat, ticket: nat) {
    n in w.tickets && w.tickets[n] == ticket && n !in w.retired && n !in w.list.list
  }

  /** Node n is free to be pushed. */
  ghost predicate Reusable(w: World, n: nat) {
    n !in w.tickets && n !in w.retired && n !in w.list.list
  }

  ghost predicate Starts(w: World, a: Action, ticket: nat) {
    a.Runtime? && a.action.RunCallback? && Enabled(w, a) && Rcu.Running(w.rcu, a.action.cpu).id == ticket
  }

  lemma AwaitsOn(w: World, x: R.Action, n: nat, ticket: nat)
    requires Inv(w) && Enabled(w, On(x)) && AwaitsCallback(w, n, ticket)
    ensures AwaitsCallback(Step(w, On(x)), n, ticket)
  {
    assert Outside(w, n);
    Admitted(w, x);
    OutsideStays(w.list, x, n);
  }

  lemma AwaitsStep(w: World, a: Action, n: nat, ticket: nat)
    requires Inv(w) && Enabled(w, a) && AwaitsCallback(w, n, ticket)
    ensures var w' := Step(w, a);
      if Starts(w, a, ticket) then Reusable(w', n) else AwaitsCallback(w', n, ticket)
  {
    if a.On? { AwaitsOn(w, a.x, n, ticket); }
  }

  /** The callback of this ticket starts at step k. */
  ghost predicate StartsAt(r: Run, k: nat, ticket: nat) {
    k < |r.actions| && k < |r.worlds| && Starts(r.worlds[k], r.actions[k], ticket)
  }

  ghost predicate Unstarted(r: Run, i: nat, k: nat, ticket: nat) {
    forall j: nat | i < j < k :: !StartsAt(r, j, ticket)
  }

  lemma AwaitsNext(r: Run, k: nat, n: nat, ticket: nat)
    requires IsRun(r) && k < |r.actions| && AwaitsCallback(r.worlds[k], n, ticket)
    ensures if StartsAt(r, k, ticket) then Reusable(r.worlds[k + 1], n) else AwaitsCallback(r.worlds[k + 1], n, ticket)
  {
    RunHolds(r, k);
    assert StepsTo(r.worlds[k], r.actions[k], r.worlds[k + 1]);
    AwaitsStep(r.worlds[k], r.actions[k], n, ticket);
  }

  lemma DeferAwaits(r: Run, i: nat, n: nat)
    requires IsRun(r) && i < |r.actions| && r.actions[i].Defer? && r.actions[i].node == n
    ensures AwaitsCallback(r.worlds[i + 1], n, r.worlds[i].rcu.nextTicket)
  {
    RunHolds(r, i);
    assert StepsTo(r.worlds[i], r.actions[i], r.worlds[i + 1]);
    assert Outside(r.worlds[i], n);
  }

  lemma {:induction false} AwaitsAlong(r: Run, i: nat, k: nat, n: nat, ticket: nat)
    requires IsRun(r) && i < k < |r.worlds| && AwaitsCallback(r.worlds[i + 1], n, ticket) && Unstarted(r, i, k, ticket)
    ensures AwaitsCallback(r.worlds[k], n, ticket)
    decreases k
  {
    if i + 1 < k {
      AwaitsAlong(r, i, k - 1, n, ticket);
      AwaitsNext(r, k - 1, n, ticket);
    }
  }

  /** A node handed to DoRcu cannot be pushed until its callback has started, and then
      it can, as soon as no other operation is under way. */
  lemma DeletedIsReusable(r: Run, i: nat, k: nat, n: nat)
    requires IsRun(r) && i < k < |r.actions| && r.actions[i].Defer? && r.actions[i].node == n
    requires Unstarted(r, i, k, r.worlds[i].rcu.nextTicket)
    ensures !Enabled(r.worlds[k], On(R.BeginPush(n)))
    ensures StartsAt(r, k, r.worlds[i].rcu.nextTicket) ==>
      (Enabled(r.worlds[k + 1], On(R.BeginPush(n))) <==> r.worlds[k + 1].list.writer.Idle?)
  {
    DeferAwaits(r, i, n);
    AwaitsAlong(r, i, k, n, r.worlds[i].rcu.nextTicket);
    AwaitsNext(r, k, n, r.worlds[i].rcu.nextTicket);
  }

  /** What happens to the list in a step. */
  ghost function Move(a: Action): Option<R.Action> {
    match a
    case Read(_, reader) => Some(R.BeginRead(reader))
    case On(x) => Some(x)
    case _ => None
  }

  /** The run as the list sees it. */
  ghost function ListPath(r: Run): T.Path {
    T.Path(seq(|r.worlds|, i requires 0 <= i < |r.worlds| => r.worlds[i].list),
           seq(|r.actions|, i requires 0 <= i < |r.actions| => Move(r.actions[i])))
  }

  lemma ListMoves(w: World, a: Action)
    requires Inv(w) && Enabled(w, a)
    ensures T.MovesTo(w.list, Move(a), Step(w, a).list)
  {
    if a.On? { Admitted(w, a.x); }
  }

  lemma ListMovesAt(r: Run, i: nat)
    requires IsRun(r) && i < |r.actions|
    ensures T.MovesTo(r.worlds[i].list, Move(r.actions[i]), r.worlds[i + 1].list)
  {
    RunHolds(r, i);
    assert StepsTo(r.worlds[i], r.actions[i], r.worlds[i + 1]);
    ListMoves(r.worlds[i], r.actions[i]);
  }

  lemma ListIsPath(r: Run)
    requires IsRun(r)
    ensures T.IsPath(ListPath(r))
  {
    var p := ListPath(r);
    forall i | 0 <= i < |p.moves|
      ensures T.MovesTo(p.worlds[i], p.moves[i], p.worlds[i + 1])
    {
      ListMovesAt(r, i);
    }
  }

  /** Erasing, deferring and deleting while events come and go, every traversal visits no
      node twice, ends, visits only what was in the list meanwhile, and misses no node
      that was in the list throughout. */
  lemma TraversalsStayCorrect(r: Run, i: nat, k: nat, id: nat)
    requires IsRun(r) && i < |r.actions| && i < k < |r.worlds| && r.actions[i].Read? && r.actions[i].reader == id
    ensures T.Correct(ListPath(r), i, k, id)
  {
    ListIsPath(r);
    T.PathCorrect(ListPath(r), i, k, id);
  }
}
