/** What each step does to the live events and to the counters, and the grace period
    told from the actions of a run alone: callbacks are events like any other. */
module RcuEvents {
  import opened Rcu

  /** A task or a deferred callback begins. */
  predicate Begins(a: Action) {
    a.Start? || a.RunCallback?
  }

  ghost predicate OneMore(s: System, s': System, x: (nat, nat)) {
    x !in LiveEvents(s) && LiveEvents(s') == LiveEvents(s) + {x}
  }

  ghost predicate OneLess(s: System, s': System, x: (nat, nat)) {
    x in LiveEvents(s) && LiveEvents(s') == LiveEvents(s) - {x}
  }

  function Counter(s: System, c: nat, p: nat): nat {
    if c < |s.nodes| && p < |s.nodes[c].manager.count| then s.nodes[c].manager.count[p] else 0
  }

  /** The parity under which events begin on core c. */
  function Parity(s: System, c: nat): nat
    requires c < |s.nodes|
  {
    s.nodes[c].manager.generation % 2
  }

  /** Of all counters of all cores only this one moves, by so much. */
  ghost predicate Counts(s: System, s': System, c: nat, p: nat, change: int) {
    forall d: nat, q: nat :: Counter(s', d, q) == Counter(s, d, q) + if d == c && q == p then change else 0
  }

  ghost predicate SameCounts(s: System, s': System) {
    forall d: nat, q: nat :: Counter(s', d, q) == Counter(s, d, q)
  }

  // ---------------------------------------------------------------- step by step

  /** One core changes; only what lives there can. */
  lemma LiveElsewhere(s: System, s': System, c: nat)
    requires c < |s.nodes| && |s'.nodes| == |s.nodes|
    requires forall d | 0 <= d < |s.nodes| && d != c :: s'.nodes[d].live == s.nodes[d].live
    ensures forall x: (nat, nat) | x.0 != c :: x in LiveEvents(s') <==> x in LiveEvents(s)
  {
  }

  lemma EventBegins(s: System, h: nat, a: Action)
    requires InvAt(s, h) && SystemValid(s) && Enabled(s, a) && Begins(a)
    ensures OneMore(s, Step(s, a), (a.cpu, s.nextEvent))
    ensures Counts(s, Step(s, a), a.cpu, Parity(s, a.cpu), 1)
  {
    var s', c := Step(s, a), a.cpu;
    assert NodeInv(s, s.nodes[c]);
    LiveElsewhere(s, s', c);
    assert s'.nodes[c].live.Keys == s.nodes[c].live.Keys + {s.nextEvent};
  }

  lemma EventEnds(s: System, c: nat, e: nat)
    requires SystemValid(s) && Enabled(s, Finish(c, e))
    ensures OneLess(s, Step(s, Finish(c, e)), (c, e))
    ensures Counts(s, Step(s, Finish(c, e)), c, s.nodes[c].live[e].generation % 2, -1)
  {
    var s' := Step(s, Finish(c, e));
    LiveElsewhere(s, s', c);
    assert s'.nodes[c].live.Keys == s.nodes[c].live.Keys - {e};
  }

  lemma SameLives(s: System, s': System)
    requires |s'.nodes| == |s.nodes| && forall c | 0 <= c < |s.nodes| :: s'.nodes[c].live.Keys == s.nodes[c].live.Keys
    ensures LiveEvents(s') == LiveEvents(s)
  {
  }

  lemma EventResumes(s: System, c: nat, e: nat)
    requires SystemValid(s) && Enabled(s, Activate(c, e))
    ensures LiveEvents(Step(s, Activate(c, e))) == LiveEvents(s)
    ensures Counts(s, Step(s, Activate(c, e)), c, Parity(s, c), 1)
  {
    var s' := Step(s, Activate(c, e));
    assert s'.nodes[c].live.Keys == s.nodes[c].live.Keys;
    SameLives(s, s');
  }

  lemma EventsStay(s: System, a: Action)
    requires SystemValid(s) && Enabled(s, a) && !Begins(a) && !a.Finish? && !a.Activate?
    ensures LiveEvents(Step(s, a)) == LiveEvents(s) && SameCounts(s, Step(s, a))
  {
    var s' := Step(s, a);
    assert a.Block? ==> s'.nodes[a.cpu].live.Keys == s.nodes[a.cpu].live.Keys;
    SameLives(s, s');
  }

  ghost predicate BlockedAt(s: System, x: (nat, nat)) {
    LiveAt(s, x) && s.nodes[x.0].live[x.1].blocked
  }

  /** Whether an event is blocked afterwards. */
  ghost predicate BlockedAfter(s: System, a: Action, x: (nat, nat)) {
    a == Block(x.0, x.1) || (BlockedAt(s, x) && a != Activate(x.0, x.1))
  }

  /** What happens on the core of the event. */
  lemma BlockedHere(s: System, h: nat, a: Action, e: nat)
    requires InvAt(s, h) && SystemValid(s) && Enabled(s, a) && !a.Boot? && !a.FireTimer?
    ensures BlockedAt(Step(s, a), (a.cpu, e)) <==> BlockedAfter(s, a, (a.cpu, e))
    ensures Step(s, a).nodes == s.nodes[a.cpu := Step(s, a).nodes[a.cpu]]
  {
    assert NodeInv(s, s.nodes[a.cpu]);
  }

  lemma BlockedStep(s: System, h: nat, a: Action, x: (nat, nat))
    requires InvAt(s, h) && SystemValid(s) && Enabled(s, a)
    ensures BlockedAt(Step(s, a), x) <==> BlockedAfter(s, a, x)
  {
    if !a.Boot? && !a.FireTimer? { BlockedHere(s, h, a, x.1); }
  }

  // ------------------------------------------------------------------------ runs

  /** An event is blocked from the saving of its context to its resumption. A live event
      that is not blocked can finish: no counter stands in its way. */
  lemma BlockedIff(r: Run, k: nat, x: (nat, nat))
    requires IsRun(r) && k < |r.actions|
    ensures BlockedAt(r.states[k + 1], x) <==> BlockedAfter(r.states[k], r.actions[k], x)
    ensures SystemValid(r.states[k])
    ensures Enabled(r.states[k], Finish(x.0, x.1)) <==> LiveAt(r.states[k], x) && !BlockedAt(r.states[k], x)
  {
    var s := r.states[k];
    assert StepsTo(s, r.actions[k], r.states[k + 1]);
    var h := RunHolds(r, k);
    BlockedStep(s, h, r.actions[k], x);
    if LiveAt(s, x) {
      assert NodeInv(s, s.nodes[x.0]);
      assert x.1 in LiveOfParity(s.nodes[x.0].live, s.nodes[x.0].live[x.1].generation % 2);
    }
  }

  /** What step k does to the live events and the counters. Finishing is the only way to
      end, and only a task or a callback that begins is a new event; resuming a context
      counts once more and adds none. */
  lemma EventsFollow(r: Run, k: nat) returns (e: nat)
    requires IsRun(r) && k < |r.actions|
    ensures var s, a, s' := r.states[k], r.actions[k], r.states[k + 1];
      if Begins(a) then
        a.cpu < |s.nodes| && OneMore(s, s', (a.cpu, e)) && Counts(s, s', a.cpu, Parity(s, a.cpu), 1)
      else if a.Finish? then OneLess(s, s', (a.cpu, a.event))
      else
        LiveEvents(s') == LiveEvents(s)
        && if a.Activate? then a.cpu < |s.nodes| && Counts(s, s', a.cpu, Parity(s, a.cpu), 1) else SameCounts(s, s')
  {
    var s, a := r.states[k], r.actions[k];
    assert StepsTo(s, a, r.states[k + 1]);
    e := s.nextEvent;
    if Begins(a) {
      var h := RunHolds(r, k);
      EventBegins(s, h, a);
    } else if a.Finish? {
      EventEnds(s, a.cpu, a.event);
    } else if a.Activate? {
      EventResumes(s, a.cpu, a.event);
    } else {
      EventsStay(s, a);
    }
  }

  /** An event keeps the generation it began in, and its number is not used again. */
  lemma GenerationStays(s: System, a: Action, c: nat, e: nat)
    requires SystemValid(s) && Enabled(s, a) && e < s.nextEvent && LiveAt(Step(s, a), (c, e))
    ensures LiveAt(s, (c, e)) && Step(s, a).nodes[c].live[e].generation == s.nodes[c].live[e].generation
  {
  }

  lemma NumbersGrow(s: System, a: Action)
    requires SystemValid(s) && Enabled(s, a)
    ensures s.nextEvent <= Step(s, a).nextEvent
  {
  }

  /** The event that step j begins. */
  ghost predicate BegunAt(r: Run, j: nat, x: (nat, nat)) {
    j < |r.actions| && j + 1 < |r.states| && Begins(r.actions[j]) && OneMore(r.states[j], r.states[j + 1], x)
  }

  lemma BegunIs(r: Run, j: nat, x: (nat, nat))
    requires IsRun(r) && BegunAt(r, j, x)
    ensures x == (r.actions[j].cpu, r.states[j].nextEvent) && x.0 < |r.states[j].nodes|
    ensures x.1 < r.states[j + 1].nextEvent && LiveAt(r.states[j + 1], x)
    ensures r.states[j + 1].nodes[x.0].live[x.1].generation == r.states[j].nodes[x.0].manager.generation
  {
    var s, a := r.states[j], r.actions[j];
    assert StepsTo(s, a, r.states[j + 1]);
    var h := RunHolds(r, j);
    EventBegins(s, h, a);
    assert x in LiveEvents(s) + {(a.cpu, s.nextEvent)};
  }

  lemma {:induction false} BegunUnder(r: Run, j: nat, k: nat, x: (nat, nat))
    requires IsRun(r) && BegunAt(r, j, x) && j < k <= |r.actions| && x.0 < |r.states[j].nodes|
    ensures x.1 < r.states[k].nextEvent
    ensures LiveAt(r.states[k], x) ==>
      r.states[k].nodes[x.0].live[x.1].generation == r.states[j].nodes[x.0].manager.generation
    decreases k
  {
    if k == j + 1 {
      BegunIs(r, j, x);
    } else {
      BegunUnder(r, j, k - 1, x);
      var s, a := r.states[k - 1], r.actions[k - 1];
      assert StepsTo(s, a, r.states[k]);
      NumbersGrow(s, a);
      if LiveAt(r.states[k], x) {
        GenerationStays(s, a, x.0, x.1);
      }
    }
  }

  /** Finishing undoes the very increment that beginning made, whatever the generation
      of the core is by then. */
  lemma FinishUndoes(r: Run, j: nat, k: nat, x: (nat, nat))
    requires IsRun(r) && BegunAt(r, j, x) && j < k < |r.actions| && r.actions[k] == Finish(x.0, x.1)
    ensures x.0 < |r.states[j].nodes| && OneLess(r.states[k], r.states[k + 1], x)
    ensures Counts(r.states[k], r.states[k + 1], x.0, Parity(r.states[j], x.0), -1)
  {
    BegunIs(r, j, x);
    BegunUnder(r, j, k, x);
    assert StepsTo(r.states[k], r.actions[k], r.states[k + 1]);
    EventEnds(r.states[k], x.0, x.1);
  }

  /** What was live and is not has finished. */
  lemma {:induction false} FinishedBetween(r: Run, i: nat, k: nat, x: (nat, nat)) returns (m: nat)
    requires IsRun(r) && i <= k <= |r.actions| && x in LiveEvents(r.states[i]) && x !in LiveEvents(r.states[k])
    ensures i <= m < k && r.actions[m] == Finish(x.0, x.1)
    decreases k
  {
    var e := EventsFollow(r, k - 1);
    if x in LiveEvents(r.states[k - 1]) {
      m := k - 1;
    } else {
      m := FinishedBetween(r, i, k - 1, x);
    }
  }

  /** The grace period in actions: whatever began before DoRcu was called, on any core, a
      task or itself a deferred callback, has finished when the callback starts. */
  lemma BegunHasFinished(r: Run, j: nat, i: nat, k: nat, x: (nat, nat)) returns (m: nat)
    requires IsRun(r) && BegunAt(r, j, x) && j < i < |r.actions| && k < |r.actions|
    requires r.actions[i].DoRcu? && r.actions[k].RunCallback?
    requires StepsTo(r.states[k], r.actions[k], r.states[k + 1])
    requires Running(r.states[k], r.actions[k].cpu).id == r.states[i].nextTicket
    ensures j < m < k && r.actions[m] == Finish(x.0, x.1)
  {
    GracePeriod(r, i, k);
    if x in LiveEvents(r.states[i]) {
      m := FinishedBetween(r, i, k, x);
    } else {
      m := FinishedBetween(r, j + 1, i, x);
    }
  }

  /** How often a context was resumed on core c under this parity. */
  ghost function Resumed(r: Run, k: nat, c: nat, p: nat): nat
    requires k <= |r.actions| <= |r.states|
  {
    if k == 0 then 0
    else
      var s, a := r.states[k - 1], r.actions[k - 1];
      Resumed(r, k - 1, c, p)
        + if a.Activate? && a.cpu == c && c < |s.nodes| && Parity(s, c) == p then 1 else 0
  }

  lemma LeakStep(s: System, a: Action, c: nat, p: nat)
    requires SystemValid(s) && Enabled(s, a) && c < |s.nodes| && p < 2
    ensures |Step(s, a).nodes| == |s.nodes| && |Step(s, a).nodes[c].leaked| == 2
    ensures Step(s, a).nodes[c].leaked[p]
      == s.nodes[c].leaked[p] + if a.Activate? && a.cpu == c && Parity(s, c) == p then 1 else 0
  {
  }

  lemma {:induction false} LeakedIsResumed(r: Run, k: nat, c: nat, p: nat)
    requires IsRun(r) && k <= |r.actions| && c < |r.states[k].nodes| && p < 2
    ensures |r.states[k].nodes[c].leaked| == 2 && r.states[k].nodes[c].leaked[p] == Resumed(r, k, c, p)
  {
    if k > 0 {
      var s, a := r.states[k - 1], r.actions[k - 1];
      assert StepsTo(s, a, r.states[k]);
      assert |s.nodes| == |r.states[k].nodes|;
      LeakedIsResumed(r, k - 1, c, p);
      LeakStep(s, a, c, p);
    }
  }

  /** At every point of every run each counter is the number of events of its parity that
      are live on its core, and the number of contexts resumed there under it. */
  lemma CounterIs(r: Run, k: nat, c: nat, p: nat)
    requires IsRun(r) && k <= |r.actions| && c < |r.states[k].nodes| && p < 2
    ensures Counter(r.states[k], c, p) == |LiveOfParity(r.states[k].nodes[c].live, p)| + Resumed(r, k, c, p)
  {
    var h := RunHolds(r, k);
    assert NodeInv(r.states[k], r.states[k].nodes[c]);
    LeakedIsResumed(r, k, c, p);
  }
}
