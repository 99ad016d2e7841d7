/** How long a deferred callback waits: it is ready after exactly two completed visits
    of the token to its core. */
module RcuProgress {
  import EventManager
  import opened Rcu

  /** The timer of core c finds its pending generation over. */
  predicate Completes(s: System, a: Action, c: nat) {
    a == FireTimer(c) && c < |s.nodes| && NodeValid(s.nodes[c]) && EventManager.Complete(s.nodes[c].manager)
  }

  /** Completed visits to core c in the steps from i up to k. */
  function Visits(r: Run, i: nat, k: nat, c: nat): nat
    requires i <= k <= |r.actions| && k <= |r.states|
  {
    if i == k then 0 else Visits(r, i, k - 1, c) + if Completes(r.states[k - 1], r.actions[k - 1], c) then 1 else 0
  }

  /** How many tickets have ever been made ready. */
  function MadeReady(n: Node): nat {
    n.started + |n.ready|
  }

  /** Where the p-th ticket of a core is after so many completed visits. */
  predicate Placed(n: Node, p: nat, visits: nat) {
    var aged := MadeReady(n) + |n.manager.prev|;
    && |n.queued| == aged + |n.manager.curr|
    && (if visits == 0 then aged <= p < |n.queued|
        else if visits == 1 then MadeReady(n) <= p < aged
        else p < MadeReady(n))
  }

  /** Only a completed visit moves what is queued. */
  predicate Unmoved(n: Node, n': Node) {
    && MadeReady(n') == MadeReady(n) && |n'.manager.prev| == |n.manager.prev|
    && |n'.queued| - |n.queued| == |n'.manager.curr| - |n.manager.curr| >= 0
  }

  /** What happens on one core but for its timer. */
  lemma UnmovedHere(s: System, h: nat, a: Action)
    requires InvAt(s, h) && SystemValid(s) && Enabled(s, a) && !a.FireTimer? && !a.Boot?
    ensures Unmoved(s.nodes[a.cpu], Step(s, a).nodes[a.cpu])
    ensures Step(s, a).nodes == s.nodes[a.cpu := Step(s, a).nodes[a.cpu]]
  {
  }

  /** A timer that does not complete, or one of another core. */
  lemma UnmovedTimer(s: System, h: nat, d: nat, c: nat)
    requires InvAt(s, h) && SystemValid(s) && Enabled(s, FireTimer(d)) && c < |s.nodes|
    requires !Completes(s, FireTimer(d), c)
    ensures |Step(s, FireTimer(d)).nodes| == |s.nodes| && Unmoved(s.nodes[c], Step(s, FireTimer(d)).nodes[c])
  {
    assert Tokens(s.nodes[d]) != 0 && d == h;
    if c == h { FireRetryHolds(s, h); }
  }

  lemma UnmovedStep(s: System, h: nat, a: Action, c: nat)
    requires InvAt(s, h) && SystemValid(s) && Enabled(s, a) && c < |s.nodes| && !Completes(s, a, c)
    ensures |Step(s, a).nodes| == |s.nodes| && Unmoved(s.nodes[c], Step(s, a).nodes[c])
  {
    if a.FireTimer? {
      UnmovedTimer(s, h, a.cpu, c);
    } else if !a.Boot? {
      UnmovedHere(s, h, a);
    }
  }

  lemma VisitMoves(s: System, h: nat, c: nat)
    requires InvAt(s, h) && SystemValid(s) && Enabled(s, FireTimer(c)) && Completes(s, FireTimer(c), c)
    ensures var s' := Step(s, FireTimer(c));
      |s'.nodes| == |s.nodes| && var n, n' := s.nodes[c], s'.nodes[c];
      && MadeReady(n') == MadeReady(n) + |n.manager.prev| && |n'.manager.prev| == |n.manager.curr|
      && n'.manager.curr == [] && n'.queued == n.queued
  {
  }

  lemma PlacedStep(s: System, h: nat, a: Action, c: nat, p: nat, visits: nat)
    requires InvAt(s, h) && SystemValid(s) && Enabled(s, a) && c < |s.nodes| && Placed(s.nodes[c], p, visits)
    ensures |Step(s, a).nodes| == |s.nodes|
    ensures Placed(Step(s, a).nodes[c], p, visits + if Completes(s, a, c) then 1 else 0)
  {
    if Completes(s, a, c) {
      VisitMoves(s, h, c);
    } else {
      UnmovedStep(s, h, a, c);
    }
  }

  lemma PlacedFirst(s: System, h: nat, c: nat)
    requires InvAt(s, h) && SystemValid(s) && Enabled(s, DoRcu(c))
    ensures Placed(Step(s, DoRcu(c)).nodes[c], |s.nodes[c].queued|, 0)
  {
    var n := s.nodes[c];
    assert NodeInv(s, n);
    assert |n.queued[n.started..]| == |n.ready| + |n.manager.prev| + |n.manager.curr|;
  }

  lemma {:induction false} PlacedNext(r: Run, i: nat, k: nat, c: nat, p: nat)
    requires IsRun(r) && i <= k < |r.actions| && c < |r.states[k].nodes|
    requires Placed(r.states[k].nodes[c], p, Visits(r, i, k, c))
    ensures c < |r.states[k + 1].nodes| && Placed(r.states[k + 1].nodes[c], p, Visits(r, i, k + 1, c))
  {
    var h := RunHolds(r, k);
    assert StepsTo(r.states[k], r.actions[k], r.states[k + 1]);
    PlacedStep(r.states[k], h, r.actions[k], c, p, Visits(r, i, k, c));
  }

  lemma {:induction false} PlacedAlong(r: Run, i: nat, k: nat, c: nat)
    requires IsRun(r) && i < k <= |r.actions| && r.actions[i] == DoRcu(c) && c < |r.states[i].nodes|
    ensures c < |r.states[k].nodes|
    ensures Placed(r.states[k].nodes[c], |r.states[i].nodes[c].queued|, Visits(r, i + 1, k, c))
    decreases k
  {
    if k == i + 1 {
      var h := RunHolds(r, i);
      assert StepsTo(r.states[i], r.actions[i], r.states[i + 1]);
      PlacedFirst(r.states[i], h, c);
    } else {
      PlacedAlong(r, i, k - 1, c);
      PlacedNext(r, i + 1, k - 1, c, |r.states[i].nodes[c].queued|);
    }
  }

  /** The ticket keeps its place among those deferred on its core. */
  lemma {:induction false} PlacesStay(r: Run, i: nat, k: nat, c: nat)
    requires i <= k <= |r.actions| <= |r.states|
    ensures Deferred(r, i, c) <= Deferred(r, k, c)
    decreases k
  {
    if i < k {
      PlacesStay(r, i, k - 1, c);
    }
  }

  lemma {:induction false} DeferredNext(r: Run, i: nat, c: nat)
    requires |r.actions| <= |r.states| && i < |r.actions| && r.actions[i] == DoRcu(c)
    ensures Deferred(r, i + 1, c) == Deferred(r, i, c) + [r.states[i].nextTicket]
  {
  }

  lemma {:induction false} DeferredCount(r: Run, i: nat, c: nat)
    requires IsRun(r) && i <= |r.actions| && c < |r.states[i].nodes|
    ensures |Deferred(r, i, c)| == |r.states[i].nodes[c].queued|
  {
    HistoryKept(r, i, c);
  }

  lemma PrefixAt(x: seq<nat>, y: nat, z: seq<nat>)
    requires x + [y] <= z
    ensures |x| < |z| && z[|x|] == y
  {
    assert (x + [y])[|x|] == z[|x|];
  }

  lemma {:induction false} DeferredPrefix(r: Run, i: nat, k: nat, c: nat)
    requires |r.actions| <= |r.states| && i < k <= |r.actions| && r.actions[i] == DoRcu(c)
    ensures Deferred(r, i, c) + [r.states[i].nextTicket] <= Deferred(r, k, c)
  {
    DeferredNext(r, i, c);
    PlacesStay(r, i + 1, k, c);
  }

  lemma {:induction false} DeferredPlace(r: Run, i: nat, k: nat, c: nat)
    requires IsRun(r) && i < k <= |r.actions| && r.actions[i] == DoRcu(c) && c < |r.states[i].nodes|
    ensures var p := |r.states[i].nodes[c].queued|;
      p < |Deferred(r, k, c)| && Deferred(r, k, c)[p] == r.states[i].nextTicket
  {
    DeferredCount(r, i, c);
    DeferredPrefix(r, i, k, c);
    PrefixAt(Deferred(r, i, c), r.states[i].nextTicket, Deferred(r, k, c));
  }

  lemma ReadyOrStarted(n: Node, p: nat)
    requires QueuesFifo(n) && p < |n.queued|
    requires forall i, j | 0 <= i < j < |n.queued| :: Ids(n.queued)[i] < Ids(n.queued)[j]
    ensures p < MadeReady(n)
      <==> Ids(n.queued)[p] in Ids(n.queued[..n.started]) || Ids(n.queued)[p] in Ids(n.ready)
  {
    var d, ran, ready := Ids(n.queued), Ids(n.queued[..n.started]), Ids(n.ready);
    assert forall j | 0 <= j < |ready| :: n.queued[n.started..][j] == n.ready[j];
    assert forall j | 0 <= j < |ready| :: ready[j] == d[n.started + j];
    assert forall j | 0 <= j < |ran| :: ran[j] == d[j];
    if p < n.started {
      assert ran[p] == d[p];
    } else if p < MadeReady(n) {
      assert ready[p - n.started] == d[p];
    }
  }

  /** Made ready means run, or waiting to be. */
  lemma ReadyIs(r: Run, k: nat, c: nat, p: nat)
    requires IsRun(r) && k <= |r.actions| && c < |r.states[k].nodes| && p < |Deferred(r, k, c)|
    ensures p < MadeReady(r.states[k].nodes[c])
      <==> Deferred(r, k, c)[p] in Ran(r, k, c) || Deferred(r, k, c)[p] in Ids(r.states[k].nodes[c].ready)
  {
    var h := RunHolds(r, k);
    assert NodeInv(r.states[k], r.states[k].nodes[c]);
    HistoryKept(r, k, c);
    DeferredIncreasing(r, k, c);
    ReadyOrStarted(r.states[k].nodes[c], p);
  }

  /** A callback deferred on core c is running or ready exactly when the timer of c has
      since completed twice, with nothing else to wait for. */
  lemma ReadyAfterTwoVisits(r: Run, i: nat, k: nat, c: nat)
    requires IsRun(r) && i < k <= |r.actions| && r.actions[i] == DoRcu(c) && c < |r.states[i].nodes|
    ensures c < |r.states[k].nodes|
    ensures var id := r.states[i].nextTicket;
      id in Ran(r, k, c) || id in Ids(r.states[k].nodes[c].ready) <==> Visits(r, i + 1, k, c) >= 2
  {
    PlacedAlong(r, i, k, c);
    DeferredPlace(r, i, k, c);
    ReadyIs(r, k, c, |r.states[i].nodes[c].queued|);
  }

  lemma TokenFired(s: System, h: nat)
    requires SystemValid(s) && OneToken(s, h) && s.booted && Enabled(s, FireTimer(h))
    ensures OneToken(Step(s, FireTimer(h)), if Completes(s, FireTimer(h), h) then (h + 1) % |s.nodes| else h)
  {
    assert Tokens(s.nodes[h]) == 1;
  }

  lemma TokenStep(s: System, a: Action, h: nat)
    requires SystemValid(s) && OneToken(s, h) && Enabled(s, a)
    ensures OneToken(Step(s, a),
                     if !s.booted then (if a.Boot? then 0 else h)
                     else if Completes(s, a, h) then (h + 1) % |s.nodes| else h)
  {
    if a.FireTimer? {
      assert Tokens(s.nodes[a.cpu]) > 0;
      TokenFired(s, h);
    } else if a.ReceiveToken? {
      assert Tokens(s.nodes[a.cpu]) == 1 && a.cpu == h;
    }
  }

  /** Where the token is after a step: a completed visit sends it to the next core of the
      ring, and nothing else moves it. */
  lemma TokenTravels(r: Run, k: nat, h: nat)
    requires IsRun(r) && k < |r.actions| && OneToken(r.states[k], h)
    ensures var s, a := r.states[k], r.actions[k];
      OneToken(r.states[k + 1],
               if !s.booted then (if a.Boot? then 0 else h)
               else if Completes(s, a, h) then (h + 1) % |s.nodes| else h)
  {
    assert StepsTo(r.states[k], r.actions[k], r.states[k + 1]);
    TokenStep(r.states[k], r.actions[k], h);
  }
}
