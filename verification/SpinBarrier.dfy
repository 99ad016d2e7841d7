/** A reusable spinning barrier for n threads, interleaved one atomic operation
    at a time, with 32-bit counters. */
module SpinBarrier {

  const WORD: nat := 0x1_0000_0000

  /** Where a thread is inside Wait: before any load, after loading completed_,
      as the last arrival before each of its two stores, or in the spin loop. */
  datatype Pc = Outside | Loaded(step: nat) | Resetting | Releasing | Spinning(step: nat)

  /** History: how many calls of Wait the thread has begun and finished. */
  datatype Thread = Thread(pc: Pc, entered: nat, returned: nat)

  /** `rounds` is history: completed_ before wrapping. */
  datatype Barrier = Barrier(threads: seq<Thread>, waiters: nat, completed: nat, rounds: nat)

  function Size(b: Barrier): nat {
    |b.threads|
  }

  predicate Init(b: Barrier) {
    0 < Size(b) < WORD && b.waiters == 0 && b.completed == 0 && b.rounds == 0
    && forall i | 0 <= i < Size(b) :: b.threads[i] == Thread(Outside, 0, 0)
  }

  /** Thread i executes its next atomic operation. A spinning thread that still
      reads its own step stays where it is. */
  function Step(b: Barrier, i: nat): Barrier
    requires i < Size(b)
  {
    var t := b.threads[i];
    match t.pc
    case Outside => b.(threads := b.threads[i := t.(pc := Loaded(b.completed), entered := t.entered + 1)])
    case Loaded(step) =>
      var arrived := b.(waiters := (b.waiters + 1) % WORD);
      arrived.(threads := b.threads[i := t.(pc := if b.waiters == Size(b) - 1 then Resetting else Spinning(step))])
    case Resetting => b.(waiters := 0, threads := b.threads[i := t.(pc := Releasing)])
    case Releasing =>
      b.(completed := (b.completed + 1) % WORD, rounds := b.rounds + 1,
         threads := b.threads[i := t.(pc := Outside, returned := t.returned + 1)])
    case Spinning(step) =>
      if b.completed == step then b
      else b.(threads := b.threads[i := t.(pc := Outside, returned := t.returned + 1)])
  }

  // ----------------------------------------------------------- the invariant

  /** Threads that have added themselves to waiters_ in the current round. */
  ghost function Arrived(b: Barrier): set<nat> {
    set i: nat | 0 <= i < Size(b)
      && (b.threads[i].pc.Spinning? || b.threads[i].pc.Resetting? || b.threads[i].pc.Releasing?)
      && b.threads[i].entered == b.rounds + 1
  }

  predicate Last(t: Thread) {
    t.pc.Resetting? || t.pc.Releasing?
  }

  ghost predicate ThreadInv(b: Barrier, t: Thread) {
    match t.pc
    case Outside => t.entered == t.returned == b.rounds
    case Loaded(step) => t.entered == b.rounds + 1 && t.returned == b.rounds && step == b.rounds % WORD
    case Spinning(step) =>
      t.entered == t.returned + 1 && step == t.returned % WORD
      && (t.returned == b.rounds || t.returned + 1 == b.rounds)
    case _ => t.entered == b.rounds + 1 && t.returned == b.rounds
  }

  ghost predicate NobodyLast(b: Barrier) {
    forall i | 0 <= i < Size(b) :: !Last(b.threads[i])
  }

  ghost predicate NobodyReleasing(b: Barrier) {
    forall i | 0 <= i < Size(b) :: !b.threads[i].pc.Releasing?
  }

  /** waiters_ counts the arrivals of this round until the last one resets it. */
  ghost predicate Counted(b: Barrier) {
    (NobodyLast(b) <==> |Arrived(b)| < Size(b)) && |Arrived(b)| <= Size(b)
    && b.waiters == if NobodyReleasing(b) then |Arrived(b)| else 0
  }

  ghost predicate Inv(b: Barrier) {
    0 < Size(b) < WORD && b.completed == b.rounds % WORD
    && (forall i | 0 <= i < Size(b) :: ThreadInv(b, b.threads[i]))
    && (forall i, j | 0 <= i < Size(b) && 0 <= j < Size(b) && Last(b.threads[i]) && Last(b.threads[j]) :: i == j)
    && Counted(b)
  }

  function Upto(n: nat): (s: set<nat>)
    ensures forall i: nat :: i in s <==> i < n
    ensures |s| == n
  {
    if n == 0 then {} else Upto(n - 1) + {n - 1}
  }

  lemma SubsetSize(a: set<nat>, b: set<nat>)
    requires a <= b
    ensures |a| <= |b|
    ensures |a| == |b| ==> a == b
  {
    assert |b| == |a| + |b - a|;
  }

  /** When everybody has arrived nobody is still outside or about to add. */
  lemma AllArrived(b: Barrier)
    requires |Arrived(b)| == Size(b)
    ensures forall i: nat | i < Size(b) :: i in Arrived(b)
  {
    SubsetSize(Arrived(b), Upto(Size(b)));
  }

  lemma ArrivedBound(b: Barrier, i: nat)
    requires i < Size(b) && i !in Arrived(b)
    ensures |Arrived(b)| < Size(b)
  {
    SubsetSize(Arrived(b), Upto(Size(b)));
  }

  lemma InitHolds(b: Barrier)
    requires Init(b)
    ensures Inv(b)
  {
    assert Arrived(b) == {};
  }

  lemma OutsideHolds(b: Barrier, i: nat)
    requires Inv(b) && i < Size(b) && b.threads[i].pc.Outside?
    ensures Inv(Step(b, i))
  {
    var b' := Step(b, i);
    assert ThreadInv(b, b.threads[i]);
    ArrivedBound(b, i);
    assert forall k | 0 <= k < Size(b) && k != i :: b'.threads[k] == b.threads[k];
    assert Arrived(b') == Arrived(b);
  }

  lemma LoadedArrives(b: Barrier, i: nat)
    requires Inv(b) && i < Size(b) && b.threads[i].pc.Loaded?
    ensures NobodyLast(b) && NobodyReleasing(b) && Arrived(Step(b, i)) == Arrived(b) + {i}
    ensures Last(Step(b, i).threads[i]) <==> |Arrived(Step(b, i))| == Size(b)
  {
    assert ThreadInv(b, b.threads[i]);
    ArrivedBound(b, i);
    assert NobodyLast(b) && NobodyReleasing(b);
    var b' := Step(b, i);
    assert forall k | 0 <= k < Size(b) && k != i :: b'.threads[k] == b.threads[k];
    assert Arrived(b') == Arrived(b) + {i};
  }

  lemma LoadedHolds(b: Barrier, i: nat)
    requires Inv(b) && i < Size(b) && b.threads[i].pc.Loaded?
    ensures Inv(Step(b, i))
  {
    var b' := Step(b, i);
    assert ThreadInv(b, b.threads[i]);
    LoadedArrives(b, i);
    forall k | 0 <= k < Size(b) && k != i
      ensures b'.threads[k] == b.threads[k] && !Last(b'.threads[k]) && ThreadInv(b', b'.threads[k])
    {
      assert ThreadInv(b, b.threads[k]);
    }
  }

  lemma ResettingHolds(b: Barrier, i: nat)
    requires Inv(b) && i < Size(b) && b.threads[i].pc.Resetting?
    ensures Inv(Step(b, i))
  {
    var b' := Step(b, i);
    assert ThreadInv(b, b.threads[i]);
    assert Last(b.threads[i]);
    assert Arrived(b') == Arrived(b);
    assert Last(b'.threads[i]) && b'.threads[i].pc.Releasing?;
  }

  lemma ReleasingHolds(b: Barrier, i: nat)
    requires Inv(b) && i < Size(b) && b.threads[i].pc.Releasing?
    ensures Inv(Step(b, i))
  {
    var b' := Step(b, i);
    assert Last(b.threads[i]);
    AllArrived(b);
    forall k: nat | k < Size(b)
      ensures ThreadInv(b', b'.threads[k]) && !Last(b'.threads[k]) && b'.threads[k].entered == b'.rounds
    {
      assert ThreadInv(b, b.threads[k]) && k in Arrived(b);
      assert Last(b.threads[k]) ==> k == i;
    }
    assert Arrived(b') == {};
    assert NobodyReleasing(b');
  }

  lemma SpinningHolds(b: Barrier, i: nat)
    requires Inv(b) && i < Size(b) && b.threads[i].pc.Spinning?
    ensures Inv(Step(b, i))
  {
    var b' := Step(b, i);
    assert ThreadInv(b, b.threads[i]);
    if b.completed != b.threads[i].pc.step {
      assert i !in Arrived(b);
      ArrivedBound(b, i);
      assert Arrived(b') == Arrived(b);
    }
  }

  lemma StepHolds(b: Barrier, i: nat)
    requires Inv(b) && i < Size(b)
    ensures Inv(Step(b, i))
  {
    match b.threads[i].pc {
      case Outside => OutsideHolds(b, i);
      case Loaded(_) => LoadedHolds(b, i);
      case Resetting => ResettingHolds(b, i);
      case Releasing => ReleasingHolds(b, i);
      case Spinning(_) => SpinningHolds(b, i);
    }
  }

  // --------------------------------------------------------------- whole runs

  /** The barrier after the threads named by `schedule` each took a step. */
  function After(b: Barrier, schedule: seq<nat>): (r: Barrier)
    requires forall k | 0 <= k < |schedule| :: schedule[k] < Size(b)
    ensures Size(r) == Size(b)
    decreases |schedule|
  {
    if schedule == [] then b
    else Step(After(b, schedule[..|schedule| - 1]), schedule[|schedule| - 1])
  }

  lemma {:induction false} ScheduleHolds(b: Barrier, schedule: seq<nat>)
    requires Init(b) && forall k | 0 <= k < |schedule| :: schedule[k] < Size(b)
    ensures Inv(After(b, schedule))
    decreases |schedule|
  {
    if schedule == [] {
      InitHolds(b);
    } else {
      ScheduleHolds(b, schedule[..|schedule| - 1]);
      StepHolds(After(b, schedule[..|schedule| - 1]), schedule[|schedule| - 1]);
    }
  }

  /** How often thread i has called Wait: its steps out of Outside. */
  function Calls(b: Barrier, schedule: seq<nat>, i: nat): nat
    requires (forall k | 0 <= k < |schedule| :: schedule[k] < Size(b)) && i < Size(b)
    decreases |schedule|
  {
    if schedule == [] then 0
    else
      var was := After(b, schedule[..|schedule| - 1]);
      Calls(b, schedule[..|schedule| - 1], i)
        + if was.threads[i].pc.Outside? && !After(b, schedule).threads[i].pc.Outside? then 1 else 0
  }

  /** How often it has returned: its steps back. */
  function Returns(b: Barrier, schedule: seq<nat>, i: nat): nat
    requires (forall k | 0 <= k < |schedule| :: schedule[k] < Size(b)) && i < Size(b)
    decreases |schedule|
  {
    if schedule == [] then 0
    else
      var was := After(b, schedule[..|schedule| - 1]);
      Returns(b, schedule[..|schedule| - 1], i)
        + if !was.threads[i].pc.Outside? && After(b, schedule).threads[i].pc.Outside? then 1 else 0
  }

  lemma {:induction false} HistoryIs(b: Barrier, schedule: seq<nat>, i: nat)
    requires Init(b) && (forall k | 0 <= k < |schedule| :: schedule[k] < Size(b)) && i < Size(b)
    ensures var t := After(b, schedule).threads[i];
      t.entered == Calls(b, schedule, i) && t.returned == Returns(b, schedule, i)
    decreases |schedule|
  {
    if schedule != [] { HistoryIs(b, schedule[..|schedule| - 1], i); }
  }

  /** Under every schedule, however many rounds and counter wraps it has, no
      thread has returned from its k-th Wait unless all have begun their k-th. */
  lemma NobodyPassesEarly(b: Barrier, schedule: seq<nat>, i: nat, j: nat)
    requires Init(b) && (forall k | 0 <= k < |schedule| :: schedule[k] < Size(b))
    requires i < Size(b) && j < Size(b)
    ensures Returns(b, schedule, i) <= Calls(b, schedule, j)
    ensures Calls(b, schedule, i) <= Returns(b, schedule, i) + 1
  {
    ScheduleHolds(b, schedule);
    HistoryIs(b, schedule, i);
    HistoryIs(b, schedule, j);
    var s := After(b, schedule);
    assert ThreadInv(s, s.threads[i]) && ThreadInv(s, s.threads[j]);
  }

  /** Thread i would only read its own step again. */
  predicate Waits(b: Barrier, i: nat)
    requires i < Size(b)
  {
    b.threads[i].pc.Spinning? && b.completed == b.threads[i].pc.step
  }

  /** Fewer than all of them have arrived, so someone has not. */
  lemma SomeoneMissing(arrived: set<nat>, all: set<nat>) returns (i: nat)
    requires arrived <= all && |arrived| < |all|
    ensures i in all && i !in arrived
  {
    var missing := all - arrived;
    assert all == arrived + missing;
    assert |all| == |arrived| + |missing|;
    i :| i in missing;
  }

  /** In every reachable state some thread would not just read its step again. */
  lemma SomeoneMoves(s: Barrier) returns (i: nat)
    requires Inv(s)
    ensures i < Size(s) && !Waits(s, i)
  {
    if !NobodyLast(s) {
      i :| i < Size(s) && Last(s.threads[i]);
    } else {
      SubsetSize(Arrived(s), Upto(Size(s)));
      i := SomeoneMissing(Arrived(s), Upto(Size(s)));
      assert ThreadInv(s, s.threads[i]);
    }
  }

  /** Some thread can always move on: the barrier never locks up. */
  lemma NeverStuck(b: Barrier, schedule: seq<nat>)
    requires Init(b) && forall k | 0 <= k < |schedule| :: schedule[k] < Size(b)
    ensures exists i: nat | i < Size(b) :: !Waits(After(b, schedule), i)
    ensures forall i: nat | i < Size(b) && !Waits(After(b, schedule), i) ::
      Step(After(b, schedule), i).threads[i].pc != After(b, schedule).threads[i].pc
  {
    ScheduleHolds(b, schedule);
    var i := SomeoneMoves(After(b, schedule));
  }

  lemma ReleasedLoads(s: Barrier, i: nat)
    requires Inv(s) && i < Size(s) && s.threads[i].pc.Spinning? && s.threads[i].returned < s.rounds
    ensures Step(s, i).threads[i].pc.Outside?
  {
    assert ThreadInv(s, s.threads[i]);
  }

  /** When some thread has returned more often, a spinning thread leaves on its next load,
      whatever the counters wrapped to. */
  lemma ReleasedLeaves(b: Barrier, schedule: seq<nat>, i: nat, j: nat)
    requires Init(b) && (forall k | 0 <= k < |schedule| :: schedule[k] < Size(b)) && i < Size(b) && j < Size(b)
    requires After(b, schedule).threads[i].pc.Spinning? && Returns(b, schedule, i) < Returns(b, schedule, j)
    ensures Step(After(b, schedule), i).threads[i].pc.Outside?
  {
    ScheduleHolds(b, schedule);
    HistoryIs(b, schedule, i);
    HistoryIs(b, schedule, j);
    var s := After(b, schedule);
    assert ThreadInv(s, s.threads[j]);
    ReleasedLoads(s, i);
  }
}
