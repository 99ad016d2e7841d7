/** One core's event manager: the generation number, the two parity counters
    and the two queues of deferred callbacks.

    The functions below say what each operation does to the value of one
    manager; the class holds that value in fields and updates it in place. */
module EventManager {

  /** generation_ and pending_generation_ are of type size_t and wrap. */
  const SIZE_T: nat := 0x1_0000_0000_0000_0000

  datatype Manager<T> = Manager(
    generation: nat,
    count: seq<nat>,
    pending: nat,
    armed: bool,
    prev: seq<T>,
    curr: seq<T>)

  predicate Valid<T>(m: Manager<T>) {
    |m.count| == 2 && m.generation < SIZE_T && m.pending < SIZE_T
  }

  function Initial<T>(): Manager<T> {
    Manager(0, [0, 0], 0, false, [], [])
  }

  /** The increment half of InvokeFunction. */
  function Enter<T>(m: Manager<T>): Manager<T>
    requires Valid(m)
  {
    var p := m.generation % 2;
    m.(count := m.count[p := m.count[p] + 1])
  }

  /** The decrement half of InvokeFunction, for an event entered in `generation`. */
  function Leave<T>(m: Manager<T>, generation: nat): Manager<T>
    requires Valid(m) && m.count[generation % 2] > 0
  {
    var p := generation % 2;
    m.(count := m.count[p := m.count[p] - 1])
  }

  function Defer<T>(m: Manager<T>, task: T): Manager<T> {
    m.(curr := m.curr + [task])
  }

  function TakeToken<T>(m: Manager<T>): Manager<T>
    requires Valid(m)
  {
    m.(pending := m.generation, generation := (m.generation + 1) % SIZE_T, armed := true)
  }

  /** The pending generation has no event left on this core. */
  predicate Complete<T>(m: Manager<T>)
    requires Valid(m)
  {
    m.count[m.pending % 2] == 0
  }

  /** What Fire leaves behind, the callbacks it hands to SpawnLocal, and whether
      it sent the token to another core. */
  datatype Fired<T> = Fired(manager: Manager<T>, tasks: seq<T>, sent: bool)

  function Fire<T>(m: Manager<T>, cpus: nat): Fired<T>
    requires Valid(m)
  {
    if !Complete(m) then
      Fired(m.(armed := true), [], false)
    else
      var passed := if cpus > 1 then m.(armed := false) else TakeToken(m);
      Fired(passed.(prev := m.curr, curr := []), m.prev, cpus > 1)
  }

  // ------------------------------------------------------------------ one core

  /** How many of these entries are of the given parity. */
  function OfParity(inside: seq<nat>, p: nat): nat {
    if inside == [] then 0 else OfParity(inside[1..], p) + if inside[0] % 2 == p then 1 else 0
  }

  lemma {:induction false} OfParityConcat(x: seq<nat>, y: seq<nat>, p: nat)
    ensures OfParity(x + y, p) == OfParity(x, p) + OfParity(y, p)
  {
    if x == [] {
      assert x + y == y;
    } else {
      assert (x + y)[1..] == x[1..] + y;
      OfParityConcat(x[1..], y, p);
    }
  }

  lemma OfParityOne(x: seq<nat>, g: nat, y: seq<nat>, p: nat)
    ensures OfParity(x + [g] + y, p) == OfParity(x + y, p) + if g % 2 == p then 1 else 0
  {
    OfParityConcat(x + [g], y, p);
    OfParityConcat(x, [g], p);
    OfParityConcat(x, y, p);
    assert [g][1..] == [];
  }

  /** A counter is zero exactly when nothing of that parity is inside. */
  lemma {:induction false} NoneOfParity(inside: seq<nat>, p: nat)
    ensures OfParity(inside, p) == 0 <==> forall g | g in inside :: g % 2 != p
  {
    if inside != [] {
      NoneOfParity(inside[1..], p);
      assert inside[0] in inside;
      assert forall g :: g in inside <==> g == inside[0] || g in inside[1..];
    }
  }

  class EventManager<T> {
    var generation: nat
    var generationCount: seq<nat>
    var pendingGeneration: nat
    var timerArmed: bool
    var prevRcuTasks: seq<T>
    var currRcuTasks: seq<T>

    /** The generations of the events that have entered and not left. */
    ghost var inside: seq<nat>

    ghost function State(): Manager<T>
      reads this
    {
      Manager(generation, generationCount, pendingGeneration, timerArmed, prevRcuTasks, currRcuTasks)
    }

    /** The counters count the events inside by the parity they entered under. */
    ghost predicate Counting()
      reads this
    {
      Valid(State())
      && generationCount[0] == OfParity(inside, 0) && generationCount[1] == OfParity(inside, 1)
    }

    constructor ()
      ensures State() == Initial() && Counting() && inside == []
    {
      generation, generationCount, pendingGeneration := 0, [0, 0], 0;
      timerArmed, prevRcuTasks, currRcuTasks := false, [], [];
      inside := [];
    }

    /** One event more is inside, under the generation returned. */
    method EnterEvent() returns (entered: nat)
      requires Counting()
      modifies this`generationCount, this`inside
      ensures Counting() && State() == Enter(old(State()))
      ensures entered == generation && inside == old(inside) + [entered]
    {
      entered := generation;
      generationCount := generationCount[entered % 2 := generationCount[entered % 2] + 1];
      OfParityOne(inside, entered, [], 0);
      OfParityOne(inside, entered, [], 1);
      assert inside + [] == inside && inside + [entered] + [] == inside + [entered];
      inside := inside + [entered];
    }

    /** An event leaves, whatever the generation is by then; its counter cannot
        underflow. */
    method LeaveEvent(entered: nat, ghost i: nat)
      requires Counting() && i < |inside| && inside[i] == entered
      modifies this`generationCount, this`inside
      ensures Counting() && inside == old(inside[..i] + inside[i + 1..])
      ensures old(generationCount[entered % 2]) > 0 && State() == Leave(old(State()), entered)
    {
      OfParityOne(inside[..i], entered, inside[i + 1..], 0);
      OfParityOne(inside[..i], entered, inside[i + 1..], 1);
      assert inside == inside[..i] + [entered] + inside[i + 1..];
      generationCount := generationCount[entered % 2 := generationCount[entered % 2] - 1];
      inside := inside[..i] + inside[i + 1..];
    }

    method DoRcu(func: T)
      modifies this`currRcuTasks
      ensures State() == Defer(old(State()), func)
    {
      currRcuTasks := currRcuTasks + [func];
    }

    method StartTimer()
      modifies this`timerArmed
      ensures timerArmed
    {
      timerArmed := true;
    }

    /** From here on events enter under the other parity, so the pending counter can
        only fall. */
    method ReceiveToken()
      requires Counting()
      modifies this`generation, this`pendingGeneration, this`timerArmed
      ensures Counting() && State() == TakeToken(old(State()))
      ensures timerArmed && pendingGeneration == old(generation) && generation % 2 != pendingGeneration % 2
    {
      pendingGeneration := generation;
      generation := (generation + 1) % SIZE_T;
      StartTimer();
    }

    /** The token leaves this core, or, if there is no other, comes back at once. */
    method PassToken(cpus: nat) returns (sent: bool)
      requires Counting() && !timerArmed
      modifies this`generation, this`pendingGeneration, this`timerArmed
      ensures Counting() && sent == (cpus > 1) && timerArmed == !sent
      ensures State() == if sent then old(State()) else TakeToken(old(State()))
    {
      sent := cpus > 1;
      if !sent {
        ReceiveToken();
      }
    }

    /** The timer fires. If no event of the pending parity is inside, the aged
        callbacks are handed out, the others age, and the token moves on; else nothing
        happens but another timer. No callback is lost, doubled or overtaken, and the
        token is here or sent, never both and never neither. */
    method FireTimer(cpus: nat) returns (tasks: seq<T>, sent: bool)
      requires Counting() && timerArmed
      modifies this
      ensures Counting() && inside == old(inside)
      ensures tasks + prevRcuTasks + currRcuTasks == old(prevRcuTasks + currRcuTasks)
      ensures timerArmed == !sent
      ensures (forall g | g in inside :: g % 2 != old(pendingGeneration) % 2) ==>
        tasks == old(prevRcuTasks) && prevRcuTasks == old(currRcuTasks) && sent == (cpus > 1)
      ensures (exists g | g in inside :: g % 2 == old(pendingGeneration) % 2) ==>
        tasks == [] && !sent && State() == old(State())
      ensures Fired(State(), tasks, sent) == Fire(old(State()), cpus)
    {
      NoneOfParity(inside, pendingGeneration % 2);
      timerArmed := false;
      if generationCount[pendingGeneration % 2] == 0 {
        sent := PassToken(cpus);
        tasks := prevRcuTasks;
        prevRcuTasks := currRcuTasks;
        currRcuTasks := [];
      } else {
        sent, tasks := false, [];
        StartTimer();
      }
    }
  }
}
