/** What a traversal sees, told from the lists that were there while it was under way. */
module RcuTraversal {
  import opened Options
  import opened Sequences
  import opened RcuList
  import opened RcuReaders

  /** The list as it goes by: what the writer and the readers do, and steps in which
      nothing happens to it. */
  datatype Path = Path(worlds: seq<World>, moves: seq<Option<Action>>)

  ghost predicate MovesTo(w: World, m: Option<Action>, w': World) {
    match m
    case None => w' == w
    case Some(a) => StepsTo(w, a, w')
  }

  ghost predicate IsPath(p: Path) {
    |p.worlds| == |p.moves| + 1 && Init(p.worlds[0])
    && forall i {:trigger p.moves[i]} | 0 <= i < |p.moves| :: MovesTo(p.worlds[i], p.moves[i], p.worlds[i + 1])
  }

  /** A run of the list alone is such a path. */
  ghost function AsPath(worlds: seq<World>, actions: seq<Action>): Path {
    Path(worlds, seq(|actions|, i requires 0 <= i < |actions| => Some(actions[i])))
  }

  lemma RunIsPath(worlds: seq<World>, actions: seq<Action>)
    requires IsRun(worlds, actions)
    ensures IsPath(AsPath(worlds, actions))
  {
    var p := AsPath(worlds, actions);
    forall i | 0 <= i < |p.moves|
      ensures MovesTo(p.worlds[i], p.moves[i], p.worlds[i + 1])
    {
      assert StepsTo(worlds[i], actions[i], worlds[i + 1]);
    }
  }

  lemma {:induction false} PathHolds(p: Path, k: nat)
    requires IsPath(p) && k < |p.worlds|
    ensures Inv(p.worlds[k])
  {
    if k == 0 {
      InitHolds(p.worlds[0]);
    } else {
      PathHolds(p, k - 1);
      assert MovesTo(p.worlds[k - 1], p.moves[k - 1], p.worlds[k]);
      if p.moves[k - 1].Some? { StepHolds(p.worlds[k - 1], p.moves[k - 1].value); }
    }
  }

  ghost predicate BeginsAt(p: Path, i: nat, id: nat) {
    i < |p.moves| && p.moves[i] == Some(BeginRead(id))
  }

  // ------------------------------------------------------------------ how it begins

  /** A traversal begins on the first node, and is over at once only if there is none. */
  lemma BeginsOnFirst(p: Path, i: nat, id: nat)
    requires IsPath(p) && BeginsAt(p, i, id)
    ensures id !in p.worlds[i].readers && id in p.worlds[i + 1].readers
    ensures var list, r := p.worlds[i].list, p.worlds[i + 1].readers[id];
      if list == [] then r.pos == None && r.visited == [] else r.pos == Some(list[0]) && r.visited == [list[0]]
  {
    PathHolds(p, i);
    assert MovesTo(p.worlds[i], p.moves[i], p.worlds[i + 1]);
  }

  // --------------------------------------------------------------- what it does not miss

  /** The traversal has visited n, or is under way and will. */
  ghost predicate Bound(w: World, id: nat, n: nat) {
    id in w.readers && if w.readers[id].pos.Some? then n in w.readers[id].present else n in w.readers[id].visited
  }

  lemma BoundAdvance(w: World, id: nat, n: nat)
    requires Inv(w) && Enabled(w, Advance(id)) && Bound(w, id, n)
    ensures Bound(Step(w, Advance(id)), id, n)
  {
    AdvancedInv(w, id);
  }

  lemma BoundUnlink(w: World, id: nat, n: nat)
    requires Inv(w) && w.writer.EraseUnlink? && Bound(w, id, n) && n in Stored(w).list
    ensures Bound(Stored(w), id, n)
  {
    var i := UnlinkedList(w);
  }

  /** What others do, and the stores that take nothing out of the list. */
  lemma BoundStays(w: World, a: Action, id: nat, n: nat)
    requires Enabled(w, a) && a != Advance(id) && !(a.Store? && w.writer.EraseUnlink?) && Bound(w, id, n)
    ensures Bound(Step(w, a), id, n)
  {
  }

  lemma BoundStep(w: World, a: Action, id: nat, n: nat)
    requires Inv(w) && Enabled(w, a) && Bound(w, id, n) && n in Step(w, a).list
    ensures Bound(Step(w, a), id, n)
  {
    if a == Advance(id) {
      BoundAdvance(w, id, n);
    } else if a.Store? && w.writer.EraseUnlink? {
      BoundUnlink(w, id, n);
    } else {
      BoundStays(w, a, id, n);
    }
  }

  lemma BoundBegin(w: World, id: nat, n: nat)
    requires Inv(w) && Enabled(w, BeginRead(id)) && n in w.list
    ensures Bound(Step(w, BeginRead(id)), id, n)
  {
  }

  lemma BoundNext(p: Path, k: nat, id: nat, n: nat)
    requires IsPath(p) && k < |p.moves| && n in p.worlds[k].list && n in p.worlds[k + 1].list
    requires p.moves[k] == Some(BeginRead(id)) || Bound(p.worlds[k], id, n)
    ensures Bound(p.worlds[k + 1], id, n)
  {
    var w, m := p.worlds[k], p.moves[k];
    PathHolds(p, k);
    assert MovesTo(w, m, p.worlds[k + 1]);
    if m == Some(BeginRead(id)) {
      BoundBegin(w, id, n);
    } else if m.Some? {
      BoundStep(w, m.value, id, n);
    }
  }

  lemma {:induction false} BoundAlong(p: Path, i: nat, k: nat, id: nat, n: nat)
    requires IsPath(p) && BeginsAt(p, i, id) && i < k < |p.worlds|
    requires forall j | i <= j <= k :: n in p.worlds[j].list
    ensures Bound(p.worlds[k], id, n)
    decreases k
  {
    if i + 1 < k { BoundAlong(p, i, k - 1, id, n); }
    BoundNext(p, k - 1, id, n);
  }

  /** A traversal that has ended has visited every node that was in the list from its
      beginning to its end. */
  lemma MissesNothing(p: Path, i: nat, k: nat, id: nat, n: nat)
    requires IsPath(p) && BeginsAt(p, i, id) && i < k < |p.worlds|
    requires id in p.worlds[k].readers && p.worlds[k].readers[id].pos.None?
    requires forall j | i <= j <= k :: n in p.worlds[j].list
    ensures n in p.worlds[k].readers[id].visited
  {
    BoundAlong(p, i, k, id, n);
  }

  // -------------------------------------------------------------- what it can come across

  /** What a traversal has visited or may still visit. */
  ghost function Knows(r: Reader): set<nat> {
    (set n | n in r.visited) + if r.pos.Some? then r.reach else {}
  }

  lemma KnowsAdvance(w: World, id: nat)
    requires Inv(w) && Enabled(w, Advance(id))
    ensures Knows(Step(w, Advance(id)).readers[id]) <= Knows(w.readers[id])
  {
    var r := w.readers[id];
    assert ReaderInv(w, id, r);
    assert Leads(w, r.reach, r.pos.value);
  }

  lemma KnowsStays(w: World, a: Action, id: nat)
    requires Enabled(w, a) && id in w.readers && a != Advance(id)
    ensures id in Step(w, a).readers
    ensures forall n | n in Knows(Step(w, a).readers[id]) :: n in Knows(w.readers[id]) || n in Step(w, a).list
  {
    if a.Store? && w.writer.PushHead? {
      assert Step(w, a).list[0] == w.writer.node;
    }
  }

  /** Only what is published meanwhile comes within reach. */
  lemma KnowsStep(w: World, a: Action, id: nat)
    requires Inv(w) && Enabled(w, a) && id in w.readers
    ensures id in Step(w, a).readers
    ensures forall n | n in Knows(Step(w, a).readers[id]) :: n in Knows(w.readers[id]) || n in Step(w, a).list
  {
    if a == Advance(id) {
      KnowsAdvance(w, id);
    } else {
      KnowsStays(w, a, id);
    }
  }

  ghost predicate ListedIn(p: Path, i: nat, k: nat, n: nat) {
    exists j | i <= j <= k && j < |p.worlds| :: n in p.worlds[j].list
  }

  ghost predicate Traced(p: Path, i: nat, k: nat, id: nat) {
    k < |p.worlds| && id in p.worlds[k].readers
    && forall n | n in Knows(p.worlds[k].readers[id]) :: ListedIn(p, i, k, n)
  }

  lemma TracedNext(p: Path, i: nat, k: nat, id: nat)
    requires IsPath(p) && i <= k < |p.moves| && Traced(p, i, k, id)
    ensures Traced(p, i, k + 1, id)
  {
    var w, w', m := p.worlds[k], p.worlds[k + 1], p.moves[k];
    PathHolds(p, k);
    assert MovesTo(w, m, w');
    if m.Some? { KnowsStep(w, m.value, id); }
    var r, r' := w.readers[id], w'.readers[id];
    forall n | n in Knows(r')
      ensures ListedIn(p, i, k + 1, n)
    {
      if n in Knows(r) {
        var j :| i <= j <= k && n in p.worlds[j].list;
        assert n in p.worlds[j].list;
      } else {
        assert n in p.worlds[k + 1].list;
      }
    }
  }

  lemma TracedBegin(p: Path, i: nat, id: nat)
    requires IsPath(p) && BeginsAt(p, i, id)
    ensures Traced(p, i, i + 1, id)
  {
    PathHolds(p, i);
    assert MovesTo(p.worlds[i], p.moves[i], p.worlds[i + 1]);
    var r := p.worlds[i + 1].readers[id];
    forall n | n in Knows(r)
      ensures ListedIn(p, i, i + 1, n)
    {
      assert n in p.worlds[i].list;
    }
  }

  lemma {:induction false} TracedAlong(p: Path, i: nat, k: nat, id: nat)
    requires IsPath(p) && BeginsAt(p, i, id) && i < k < |p.worlds|
    ensures Traced(p, i, k, id)
    decreases k
  {
    if k == i + 1 {
      TracedBegin(p, i, id);
    } else {
      TracedAlong(p, i, k - 1, id);
      TracedNext(p, i, k - 1, id);
    }
  }

  /** A traversal visits no node that was not in the list at some time since it began. */
  lemma VisitsOnlyListed(p: Path, i: nat, k: nat, id: nat, n: nat)
    requires IsPath(p) && BeginsAt(p, i, id) && i < k < |p.worlds| && id in p.worlds[k].readers
    requires n in p.worlds[k].readers[id].visited
    ensures ListedIn(p, i, k, n)
  {
    TracedAlong(p, i, k, id);
    assert n in Knows(p.worlds[k].readers[id]);
  }

  // ---------------------------------------------------------------------- how long it takes

  /** How often the list has grown. */
  ghost function Publications(p: Path, k: nat): nat
    requires k < |p.worlds|
  {
    if k == 0 then 0
    else Publications(p, k - 1) + if |p.worlds[k].list| > |p.worlds[k - 1].list| then 1 else 0
  }

  lemma {:induction false} WithoutIsShorter(list: seq<nat>, n: nat)
    ensures |Without(list, n)| <= |list|
  {
    if list != [] && list[0] != n {
      WithoutIsShorter(list[1..], n);
    }
  }

  lemma ClockStep(w: World, a: Action)
    requires Enabled(w, a)
    ensures Step(w, a).clock == w.clock + if |Step(w, a).list| > |w.list| then 1 else 0
  {
    if a.Store? && w.writer.EraseUnlink? { WithoutIsShorter(w.list, w.writer.node); }
  }

  lemma {:induction false} ClockCounts(p: Path, k: nat)
    requires IsPath(p) && k < |p.worlds|
    ensures p.worlds[k].clock == Publications(p, k)
  {
    if k > 0 {
      ClockCounts(p, k - 1);
      assert MovesTo(p.worlds[k - 1], p.moves[k - 1], p.worlds[k]);
      if p.moves[k - 1].Some? { ClockStep(p.worlds[k - 1], p.moves[k - 1].value); }
    }
  }

  /** How often reader id was advanced in the steps from i up to k. */
  ghost function Advances(p: Path, i: nat, k: nat, id: nat): nat
    requires i <= k <= |p.moves|
  {
    if i == k then 0 else Advances(p, i, k - 1, id) + if p.moves[k - 1] == Some(Advance(id)) then 1 else 0
  }

  /** The steps a traversal has taken and the most it can visit. */
  ghost predicate Paced(w: World, id: nat, steps: nat, limit: nat) {
    id in w.readers
    && var r := w.readers[id];
       steps == |r.visited| - (if r.pos.Some? then 1 else 0) && (r.bound < limit || (r.pos.None? && r.visited == []))
  }

  lemma PacedStep(w: World, a: Action, id: nat, steps: nat, limit: nat)
    requires Enabled(w, a) && Paced(w, id, steps, limit)
    ensures Paced(Step(w, a), id, steps + if a == Advance(id) then 1 else 0, limit)
  {
  }

  lemma PacedBegin(p: Path, i: nat, id: nat)
    requires IsPath(p) && BeginsAt(p, i, id)
    ensures Paced(p.worlds[i + 1], id, 0, Publications(p, i))
  {
    PathHolds(p, i);
    ClockCounts(p, i);
    assert MovesTo(p.worlds[i], p.moves[i], p.worlds[i + 1]);
    var w := p.worlds[i];
    assert w.list != [] ==> w.list[0] in w.stamp && w.stamp[w.list[0]] < w.clock;
  }

  lemma {:induction false} PacedAlong(p: Path, i: nat, k: nat, id: nat)
    requires IsPath(p) && BeginsAt(p, i, id) && i < k < |p.worlds|
    ensures Paced(p.worlds[k], id, Advances(p, i + 1, k, id), Publications(p, i))
    decreases k
  {
    if k == i + 1 {
      PacedBegin(p, i, id);
    } else {
      PacedAlong(p, i, k - 1, id);
      var w, m := p.worlds[k - 1], p.moves[k - 1];
      assert MovesTo(w, m, p.worlds[k]);
      if m.Some? { PacedStep(w, m.value, id, Advances(p, i + 1, k - 1, id), Publications(p, i)); }
    }
  }

  lemma VisitedBound(w: World, id: nat)
    requires Inv(w) && id in w.readers
    ensures Distinct(w.readers[id].visited) && |w.readers[id].visited| <= w.readers[id].bound + 1
    ensures w.readers[id].pos.Some? ==> Enabled(w, Advance(id))
  {
    var r := w.readers[id];
    assert ReaderInv(w, id, r);
    if r.pos.Some? {
      VisitedDistinct(w, r);
      assert Leads(w, r.reach, r.pos.value);
    }
  }

  /** A traversal visits no node twice, every step but the last visits one more, it can
      always take the next step, and it takes at most as many as there were publications
      before it began. */
  lemma TraversalEnds(p: Path, i: nat, k: nat, id: nat)
    requires IsPath(p) && BeginsAt(p, i, id) && i < k < |p.worlds|
    ensures id in p.worlds[k].readers
    ensures var r, steps := p.worlds[k].readers[id], Advances(p, i + 1, k, id);
      && Distinct(r.visited) && |r.visited| == steps + (if r.pos.Some? then 1 else 0)
      && |r.visited| <= Publications(p, i)
      && (r.pos.Some? ==> Enabled(p.worlds[k], Advance(id)))
  {
    PacedAlong(p, i, k, id);
    PathHolds(p, k);
    VisitedBound(p.worlds[k], id);
  }

  // -------------------------------------------------------------------------- all together

  /** In the list from i to k. */
  ghost predicate Throughout(p: Path, i: nat, k: nat, n: nat) {
    forall j | i <= j <= k && j < |p.worlds| :: n in p.worlds[j].list
  }

  /** What is to be said of a traversal that began at step i. */
  ghost predicate Correct(p: Path, i: nat, k: nat, id: nat) {
    i < k < |p.worlds| && id in p.worlds[k].readers
    && var r := p.worlds[k].readers[id];
       && Distinct(r.visited) && |r.visited| <= Publications(p, i)
       && (r.pos.None? ==> forall n | Throughout(p, i, k, n) :: n in r.visited)
       && (forall n | n in r.visited :: ListedIn(p, i, k, n))
       && (r.pos.Some? ==> Enabled(p.worlds[k], Advance(id)))
  }

  lemma PathCorrect(p: Path, i: nat, k: nat, id: nat)
    requires IsPath(p) && BeginsAt(p, i, id) && i < k < |p.worlds|
    ensures Correct(p, i, k, id)
  {
    TraversalEnds(p, i, k, id);
    var r := p.worlds[k].readers[id];
    forall n | r.pos.None? && Throughout(p, i, k, n)
      ensures n in r.visited
    {
      MissesNothing(p, i, k, id, n);
    }
    forall n | n in r.visited
      ensures ListedIn(p, i, k, n)
    {
      VisitsOnlyListed(p, i, k, id, n);
    }
  }

  /** In every interleaving of writer and readers, every traversal is correct. */
  lemma TraversalCorrect(worlds: seq<World>, actions: seq<Action>, i: nat, k: nat, id: nat)
    requires IsRun(worlds, actions) && i < |actions| && actions[i] == BeginRead(id) && i < k < |worlds|
    ensures Correct(AsPath(worlds, actions), i, k, id)
  {
    RunIsPath(worlds, actions);
    PathCorrect(AsPath(worlds, actions), i, k, id);
  }

  // ----------------------------------------------------------------------------- the writer

  /** How many stores happened in the steps from i up to k. */
  ghost function Stores(p: Path, i: nat, k: nat): nat
    requires i <= k <= |p.moves|
  {
    if i == k then 0 else Stores(p, i, k - 1) + if p.moves[k - 1] == Some(Store) then 1 else 0
  }

  /** What a push still has to store after so many stores. */
  ghost function Pushing(n: nat, head: Option<nat>, stores: nat): Writer {
    if stores == 0 then PushNext(n, head)
    else if stores == 1 then PushPprev(n, head)
    else if stores == 2 then PushHead(n, head)
    else if stores == 3 then PushBack(n, head)
    else Idle
  }

  /** A push of n on the list of w0. */
  ghost predicate Pushed(w0: World, n: nat, stores: nat, w: World) {
    w.writer == Pushing(n, w0.links.head, stores) && w.list == if stores < 3 then w0.list else [n] + w0.list
  }

  lemma PushedStep(w0: World, n: nat, stores: nat, w: World, m: Option<Action>, w': World)
    requires stores < 4 && Pushed(w0, n, stores, w) && MovesTo(w, m, w')
    ensures Pushed(w0, n, stores + if m == Some(Store) then 1 else 0, w')
  {
  }

  lemma {:induction false} PushGoesOn(p: Path, i: nat, k: nat, n: nat)
    requires IsPath(p) && i < k < |p.worlds| && p.moves[i] == Some(BeginPush(n)) && Stores(p, i + 1, k) < 4
    ensures Pushed(p.worlds[i], n, Stores(p, i + 1, k), p.worlds[k])
    decreases k
  {
    assert MovesTo(p.worlds[k - 1], p.moves[k - 1], p.worlds[k]);
    if i + 1 < k {
      PushGoesOn(p, i, k - 1, n);
      PushedStep(p.worlds[i], n, Stores(p, i + 1, k - 1), p.worlds[k - 1], p.moves[k - 1], p.worlds[k]);
    }
  }

  /** A push takes four stores, whatever readers do meanwhile. The third puts its node in
      front of the list, and nothing else happens to the list. */
  lemma PushPublishes(p: Path, i: nat, k: nat, n: nat)
    requires IsPath(p) && i < k < |p.moves| && p.moves[i] == Some(BeginPush(n)) && Stores(p, i + 1, k) < 4
    ensures var list := p.worlds[i].list;
      && p.worlds[k].list == (if Stores(p, i + 1, k) < 3 then list else [n] + list) && !p.worlds[k].writer.Idle?
      && (Stores(p, i + 1, k + 1) == 4 ==> p.worlds[k + 1].list == [n] + list && p.worlds[k + 1].writer.Idle?)
  {
    PushGoesOn(p, i, k, n);
    assert MovesTo(p.worlds[k], p.moves[k], p.worlds[k + 1]);
    PushedStep(p.worlds[i], n, Stores(p, i + 1, k), p.worlds[k], p.moves[k], p.worlds[k + 1]);
  }

  ghost function Erasing(n: nat, next: Option<nat>, pprev: Option<nat>, stores: nat): Writer {
    if stores == 0 then EraseUnlink(n, next, pprev) else if stores == 1 then EraseBack(next, pprev) else Idle
  }

  /** The list without n, the rest as it was. */
  ghost predicate Lost(list: seq<nat>, n: nat, list': seq<nat>) {
    exists j | 0 <= j < |list| :: list[j] == n && list' == list[..j] + list[j + 1..]
  }

  ghost predicate EraseAt(w0: World, n: nat, stores: nat, w: World) {
    n in w0.links.next && n in w0.links.pprev
    && w.writer == Erasing(n, w0.links.next[n], w0.links.pprev[n], stores)
    && if stores == 0 then w.list == w0.list else Lost(w0.list, n, w.list)
  }

  lemma UnlinkLoses(w: World)
    requires Inv(w) && w.writer.EraseUnlink?
    ensures Lost(w.list, w.writer.node, Stored(w).list)
  {
    var i := UnlinkedList(w);
    WithoutAt(w.list, i);
  }

  lemma EraseStep(w0: World, n: nat, stores: nat, w: World, m: Option<Action>, w': World)
    requires Inv(w) && stores < 2 && EraseAt(w0, n, stores, w) && MovesTo(w, m, w')
    ensures EraseAt(w0, n, stores + if m == Some(Store) then 1 else 0, w')
  {
    if stores == 0 && m == Some(Store) { UnlinkLoses(w); }
  }

  lemma EraseNext(p: Path, i: nat, k: nat, n: nat, stores: nat)
    requires IsPath(p) && i <= k < |p.moves| && stores < 2 && EraseAt(p.worlds[i], n, stores, p.worlds[k])
    ensures EraseAt(p.worlds[i], n, stores + if p.moves[k] == Some(Store) then 1 else 0, p.worlds[k + 1])
  {
    PathHolds(p, k);
    assert MovesTo(p.worlds[k], p.moves[k], p.worlds[k + 1]);
    EraseStep(p.worlds[i], n, stores, p.worlds[k], p.moves[k], p.worlds[k + 1]);
  }

  lemma {:induction false} EraseGoesOn(p: Path, i: nat, k: nat, n: nat)
    requires IsPath(p) && i < k < |p.worlds| && p.moves[i] == Some(BeginErase(n)) && Stores(p, i + 1, k) < 2
    ensures EraseAt(p.worlds[i], n, Stores(p, i + 1, k), p.worlds[k])
    decreases k
  {
    assert MovesTo(p.worlds[k - 1], p.moves[k - 1], p.worlds[k]);
    if i + 1 < k {
      EraseGoesOn(p, i, k - 1, n);
      EraseNext(p, i, k - 1, n, Stores(p, i + 1, k - 1));
    }
  }

  /** Erasing takes two stores. The first takes the node out of the list, and nothing else
      happens to the list. */
  lemma EraseUnlinks(p: Path, i: nat, k: nat, n: nat)
    requires IsPath(p) && i < k < |p.moves| && p.moves[i] == Some(BeginErase(n)) && Stores(p, i + 1, k) < 2
    ensures var list := p.worlds[i].list;
      && (if Stores(p, i + 1, k) == 0 then p.worlds[k].list == list else Lost(list, n, p.worlds[k].list))
      && !p.worlds[k].writer.Idle?
      && (Stores(p, i + 1, k + 1) == 2 ==> Lost(list, n, p.worlds[k + 1].list) && p.worlds[k + 1].writer.Idle?)
  {
    EraseGoesOn(p, i, k, n);
    EraseNext(p, i, k, n, Stores(p, i + 1, k));
  }
}
