/** The singly traversed list under RCU: one serialized writer that stores one
    pointer at a time, and readers that follow next pointers meanwhile. */
module RcuList {
  import opened Options
  import opened Sequences

  /** The stored pointers. pprev None stands for &head_, Some(p) for &p.next. */
  datatype Links = Links(head: Option<nat>, next: map<nat, Option<nat>>, pprev: map<nat, Option<nat>>)

  function At(list: seq<nat>, i: int): Option<nat> {
    if 0 <= i < |list| then Some(list[i]) else None
  }

  /** Following next from head_ visits exactly `list`. */
  ghost predicate Linked(l: Links, list: seq<nat>) {
    Distinct(list) && l.head == At(list, 0)
    && forall i | 0 <= i < |list| :: list[i] in l.next && l.next[list[i]] == At(list, i + 1)
  }

  /** Every node but the k-th knows where the pointer to it is stored. */
  ghost predicate BackLinkedBut(l: Links, list: seq<nat>, k: nat) {
    forall i | 0 <= i < |list| && i != k :: list[i] in l.pprev && l.pprev[list[i]] == At(list, i - 1)
  }

  ghost predicate BackLinked(l: Links, list: seq<nat>) {
    BackLinkedBut(l, list, |list|)
  }

  function Without(list: seq<nat>, n: nat): seq<nat> {
    if list == [] then []
    else if list[0] == n then list[1..]
    else [list[0]] + Without(list[1..], n)
  }

  lemma {:induction false} WithoutAt(list: seq<nat>, i: nat)
    requires Distinct(list) && i < |list|
    ensures Without(list, list[i]) == list[..i] + list[i + 1..]
  {
    if i > 0 {
      WithoutAt(list[1..], i - 1);
      assert list[1..][..i - 1] == list[1..i];
      assert [list[0]] + list[1..i] == list[..i];
    }
  }

  /** The store through a pprev pointer. */
  function StoreThrough(l: Links, pprev: Option<nat>, v: Option<nat>): Links {
    match pprev
    case None => l.(head := v)
    case Some(p) => l.(next := l.next[p := v])
  }

  /** What the k-th node of the shorter list points to after the store. */
  lemma UnlinkedNext(l: Links, list: seq<nat>, i: nat, k: nat)
    requires Linked(l, list) && i < |list| && k < |list| - 1
    ensures var l', list' := StoreThrough(l, At(list, i - 1), At(list, i + 1)), list[..i] + list[i + 1..];
      list'[k] in l'.next && l'.next[list'[k]] == At(list', k + 1)
  {
    var list' := list[..i] + list[i + 1..];
    if k < i {
      assert list'[k] == list[k];
      if k + 1 == i { assert At(list', i) == At(list, i + 1); } else { assert At(list', k + 1) == At(list, k + 1); }
    } else {
      assert list'[k] == list[k + 1] && At(list', k + 1) == At(list, k + 2);
    }
  }

  lemma StillDistinct(list: seq<nat>, i: nat)
    requires Distinct(list) && i < |list|
    ensures Distinct(list[..i] + list[i + 1..])
  {
    var list' := list[..i] + list[i + 1..];
    assert forall k | 0 <= k < |list'| :: list'[k] == if k < i then list[k] else list[k + 1];
  }

  /** The one store of erase that readers see takes the node out of the list. */
  lemma UnlinkRemoves(l: Links, list: seq<nat>, i: nat)
    requires Linked(l, list) && i < |list|
    ensures Linked(StoreThrough(l, At(list, i - 1), At(list, i + 1)), list[..i] + list[i + 1..])
  {
    var l', list' := StoreThrough(l, At(list, i - 1), At(list, i + 1)), list[..i] + list[i + 1..];
    StillDistinct(list, i);
    assert l'.head == At(list', 0);
    forall k | 0 <= k < |list'|
      ensures list'[k] in l'.next && l'.next[list'[k]] == At(list', k + 1)
    {
      UnlinkedNext(l, list, i, k);
    }
  }

  lemma UnlinkOwesBackLink(l: Links, list: seq<nat>, i: nat)
    requires Distinct(list) && BackLinked(l, list) && i < |list|
    ensures BackLinkedBut(l, list[..i] + list[i + 1..], i)
  {
    var list' := list[..i] + list[i + 1..];
    forall k | 0 <= k < |list'| && k != i
      ensures list'[k] in l.pprev && l.pprev[list'[k]] == At(list', k - 1)
    {
      assert list'[k] == if k < i then list[k] else list[k + 1];
    }
  }

  /** The last store of either operation repairs the one back link it owes. */
  function Relinked(l: Links, node: Option<nat>, pprev: Option<nat>): Links {
    if node.Some? then l.(pprev := l.pprev[node.value := pprev]) else l
  }

  lemma RelinkRepairs(l: Links, list: seq<nat>, k: nat)
    requires Distinct(list) && BackLinkedBut(l, list, k) && k <= |list|
    ensures BackLinked(Relinked(l, At(list, k), At(list, k - 1)), list)
    ensures Linked(l, list) ==> Linked(Relinked(l, At(list, k), At(list, k - 1)), list)
  {
    var l' := Relinked(l, At(list, k), At(list, k - 1));
    forall i | 0 <= i < |list|
      ensures list[i] in l'.pprev && l'.pprev[list[i]] == At(list, i - 1)
    {
      if i == k {
        assert At(list, k) == Some(list[i]);
      } else if k < |list| {
        assert list[i] != list[k];
      }
    }
  }

  /** The store to head_ that publishes a prepared node. */
  lemma PublishPrepends(l: Links, list: seq<nat>, node: nat)
    requires Linked(l, list) && BackLinked(l, list) && node !in list
    requires node in l.next && l.next[node] == l.head && node in l.pprev && l.pprev[node] == None
    ensures Linked(l.(head := Some(node)), [node] + list)
    ensures BackLinkedBut(l, [node] + list, 1)
  {
    var list' := [node] + list;
    assert forall i | 0 < i < |list'| :: list'[i] == list[i - 1];
    forall i | 0 <= i < |list'|
      ensures list'[i] in l.next && l.next[list'[i]] == At(list', i + 1)
    {
      if i > 0 { assert list'[i] == list[i - 1]; }
    }
  }

  /** Both stores of erase together. */
  lemma EraseStores(l: Links, list: seq<nat>, node: nat)
    requires Linked(l, list) && BackLinked(l, list) && node in list
    ensures node in l.next && node in l.pprev
    ensures var next, pprev := l.next[node], l.pprev[node];
            var l' := Relinked(StoreThrough(l, pprev, next), next, pprev);
            Linked(l', Without(list, node)) && BackLinked(l', Without(list, node))
  {
    var i :| 0 <= i < |list| && list[i] == node;
    var list' := list[..i] + list[i + 1..];
    UnlinkRemoves(l, list, i);
    UnlinkOwesBackLink(l, list, i);
    WithoutAt(list, i);
    assert At(list', i) == At(list, i + 1) && At(list', i - 1) == At(list, i - 1);
    RelinkRepairs(StoreThrough(l, At(list, i - 1), At(list, i + 1)), list', i);
  }

  class RcuHList {
    var links: Links
    ghost var list: seq<nat>

    ghost predicate Valid()
      reads this
    {
      Linked(links, list) && BackLinked(links, list)
    }

    constructor ()
      ensures Valid() && list == []
    {
      links, list := Links(None, map[], map[]), [];
    }

    method PushFront(node: nat)
      requires Valid() && node !in list
      modifies this
      ensures Valid() && list == [node] + old(list)
    {
      var head := links.head;
      links := links.(next := links.next[node := head]);
      links := links.(pprev := links.pprev[node := None]);
      PublishPrepends(links, list, node);
      links := links.(head := Some(node));
      list := [node] + list;
      RelinkRepairs(links, list, 1);
      if head.Some? {
        links := links.(pprev := links.pprev[head.value := Some(node)]);
      }
    }

    method Erase(node: nat)
      requires Valid() && node in list
      modifies this
      ensures Valid() && list == Without(old(list), node)
    {
      EraseStores(links, list, node);
      var next, pprev := links.next[node], links.pprev[node];
      links := StoreThrough(links, pprev, next);
      if next.Some? {
        links := links.(pprev := links.pprev[next.value := pprev]);
      }
      list := Without(list, node);
    }
  }
}

/** Readers and the writer interleaved store by store. */
module RcuReaders {
  import opened Options
  import opened Sequences
  import opened RcuList

  /** What the writer still has to store. Operands are what it has loaded. */
  datatype Writer =
    | Idle
    | PushNext(node: nat, head: Option<nat>)
    | PushPprev(node: nat, head: Option<nat>)
    | PushHead(node: nat, head: Option<nat>)
    | PushBack(node: nat, head: Option<nat>)
    | EraseUnlink(node: nat, next: Option<nat>, pprev: Option<nat>)
    | EraseBack(next: Option<nat>, pprev: Option<nat>)

  /** A traversal. History: the nodes visited, the nodes present in the list ever
      since it began, the nodes it could still come across, and the stamp of its
      first node. */
  datatype Reader = Reader(pos: Option<nat>, visited: seq<nat>, present: set<nat>, reach: set<nat>, bound: nat)

  /** `list`, `stamp` and `clock` are history: the abstract list, when each node
      was last published, and the number of publications. `waits` holds for every
      erased node the readers whose end its reuse must wait for. */
  datatype World = World(
    links: Links,
    writer: Writer,
    readers: map<nat, Reader>,
    waits: map<nat, set<nat>>,
    list: seq<nat>,
    stamp: map<nat, nat>,
    clock: nat)

  datatype Action =
    | BeginPush(node: nat)
    | BeginErase(node: nat)
    | Store
    | BeginRead(reader: nat)
    | Advance(reader: nat)

  predicate Active(w: World, r: nat) {
    r in w.readers && w.readers[r].pos.Some?
  }

  /** No reader that was under way when the node was erased is still going. */
  predicate GraceOver(w: World, node: nat) {
    node in w.waits ==> forall r | r in w.waits[node] :: !Active(w, r)
  }

  predicate Enabled(w: World, a: Action) {
    match a
    case BeginPush(n) => w.writer.Idle? && n !in w.list && GraceOver(w, n)
    case BeginErase(n) => w.writer.Idle? && n in w.list && n in w.links.next && n in w.links.pprev
    case Store => !w.writer.Idle?
    case BeginRead(r) => r !in w.readers
    case Advance(r) => Active(w, r) && w.readers[r].pos.value in w.links.next
  }

  ghost function Published(w: World, n: nat): World {
    w.(list := [n] + w.list, stamp := w.stamp[n := w.clock], clock := w.clock + 1,
       waits := w.waits - {n},
       readers := map r | r in w.readers ::
         if w.readers[r].pos.Some? then w.readers[r].(reach := w.readers[r].reach + {n}) else w.readers[r])
  }

  ghost function Unpublished(w: World, n: nat): World {
    w.(list := Without(w.list, n),
       waits := w.waits[n := set r | r in w.readers && w.readers[r].pos.Some?],
       readers := map r | r in w.readers ::
         if w.readers[r].pos.Some? then w.readers[r].(present := w.readers[r].present - {n}) else w.readers[r])
  }

  ghost function Stored(w: World): World
    requires !w.writer.Idle?
  {
    var l := w.links;
    match w.writer
    case PushNext(n, h) => w.(links := l.(next := l.next[n := h]), writer := PushPprev(n, h))
    case PushPprev(n, h) => w.(links := l.(pprev := l.pprev[n := None]), writer := PushHead(n, h))
    case PushHead(n, h) => Published(w, n).(links := l.(head := Some(n)), writer := PushBack(n, h))
    case PushBack(n, h) =>
      w.(links := Relinked(l, h, Some(n)), writer := Idle)
    case EraseUnlink(n, next, pprev) =>
      Unpublished(w, n).(links := StoreThrough(l, pprev, next), writer := EraseBack(next, pprev))
    case EraseBack(next, pprev) =>
      w.(links := Relinked(l, next, pprev), writer := Idle)
  }

  ghost function Began(w: World): Reader {
    match w.links.head
    case None => Reader(None, [], {}, {}, 0)
    case Some(n) =>
      Reader(Some(n), [n], set x | x in w.list, set x | x in w.list, if n in w.stamp then w.stamp[n] else 0)
  }

  ghost function Advanced(w: World, r: Reader): Reader
    requires r.pos.Some? && r.pos.value in w.links.next
  {
    match w.links.next[r.pos.value]
    case None => r.(pos := None)
    case Some(n) => r.(pos := Some(n), visited := r.visited + [n])
  }

  ghost function Step(w: World, a: Action): World
    requires Enabled(w, a)
  {
    match a
    case BeginPush(n) => w.(writer := PushNext(n, w.links.head))
    case BeginErase(n) => w.(writer := EraseUnlink(n, w.links.next[n], w.links.pprev[n]))
    case Store => Stored(w)
    case BeginRead(r) => w.(readers := w.readers[r := Began(w)])
    case Advance(r) => w.(readers := w.readers[r := Advanced(w, w.readers[r])])
  }

  ghost predicate Init(w: World) {
    w == World(Links(None, map[], map[]), Idle, map[], map[], [], map[], 0)
  }

  // ----------------------------------------------------------- the invariant

  /** Newer nodes come first. */
  ghost predicate Stamped(w: World) {
    (forall i | 0 <= i < |w.list| :: w.list[i] in w.stamp)
    && (forall i, j | 0 <= i < j < |w.list| :: w.stamp[w.list[i]] > w.stamp[w.list[j]])
    && (forall n | n in w.stamp :: w.stamp[n] < w.clock)
    && (forall x, y | x in w.stamp && y in w.stamp && w.stamp[x] == w.stamp[y] :: x == y)
  }

  ghost predicate Unpushed(w: World, n: nat, head: Option<nat>) {
    BackLinked(w.links, w.list) && n !in w.list && GraceOver(w, n) && head == w.links.head
  }

  /** What the writer has loaded is still true, and which back link it owes. */
  ghost predicate WriterInv(w: World) {
    match w.writer
    case PushBack(n, h) =>
      |w.list| > 0 && At(w.list, 0) == Some(n) && h == At(w.list, 1) && BackLinkedBut(w.links, w.list, 1)
    case EraseBack(next, pprev) =>
      exists k | 0 <= k <= |w.list| ::
        next == At(w.list, k) && pprev == At(w.list, k - 1) && BackLinkedBut(w.links, w.list, k)
    case EraseUnlink(n, next, pprev) =>
      BackLinked(w.links, w.list) && n in w.list && n in w.links.next && next == w.links.next[n]
      && n in w.links.pprev && pprev == w.links.pprev[n]
    case Idle => BackLinked(w.links, w.list)
    case PushNext(n, h) => Unpushed(w, n, h)
    case PushPprev(n, h) => Unpushed(w, n, h) && n in w.links.next && w.links.next[n] == h
    case PushHead(n, h) =>
      Unpushed(w, n, h) && n in w.links.next && w.links.next[n] == h
      && n in w.links.pprev && w.links.pprev[n] == None
  }

  /** From a node a reader may stand on, next goes to an older node and skips
      none that is still in the list. */
  ghost predicate Leads(w: World, reach: set<nat>, x: nat) {
    x in w.links.next && x in w.stamp
    && match w.links.next[x]
       case None => forall n | n in w.list && n in w.stamp :: w.stamp[n] >= w.stamp[x]
       case Some(y) =>
         y in reach && y in w.stamp && w.stamp[y] < w.stamp[x]
         && forall n | n in w.list && n in w.stamp && w.stamp[n] < w.stamp[x] :: w.stamp[n] <= w.stamp[y]
  }

  /** What lies ahead of a reader. */
  ghost predicate Ahead(w: World, id: nat, reach: set<nat>) {
    (forall x | x in reach :: Leads(w, reach, x))
    && (forall n | n in w.list :: n in reach)
    && (forall n | n in reach && n !in w.list :: n in w.waits && id in w.waits[n])
  }

  /** What lies behind it: strictly older and older nodes, with every node present
      throughout either visited or still older. */
  ghost predicate Behind(w: World, r: Reader)
    requires r.pos.Some?
  {
    var p := r.pos.value;
    p in r.reach && p in w.stamp && r.visited != [] && r.visited[|r.visited| - 1] == p
    && (forall i | 0 <= i < |r.visited| :: r.visited[i] in r.reach && r.visited[i] in w.stamp)
    && (forall i, j | 0 <= i < j < |r.visited| :: w.stamp[r.visited[i]] > w.stamp[r.visited[j]])
    && |r.visited| + w.stamp[p] <= r.bound + 1
    && (forall n | n in r.present ::
          n in w.list && n in w.stamp && (n in r.visited || w.stamp[n] < w.stamp[p]))
  }

  /** A finished traversal visited no node twice and every node present throughout. */
  ghost predicate Complete(r: Reader) {
    Distinct(r.visited) && |r.visited| <= r.bound + 1 && forall n | n in r.present :: n in r.visited
  }

  ghost predicate ReaderInv(w: World, id: nat, r: Reader) {
    if r.pos.Some? then Ahead(w, id, r.reach) && Behind(w, r) else Complete(r)
  }

  ghost predicate ReadersInv(w: World) {
    (forall id | id in w.readers :: ReaderInv(w, id, w.readers[id]))
    && (forall n | n in w.waits :: w.waits[n] <= w.readers.Keys)
  }

  ghost predicate Inv(w: World) {
    Linked(w.links, w.list) && Stamped(w) && WriterInv(w) && ReadersInv(w)
  }

  lemma InitHolds(w: World)
    requires Init(w)
    ensures Inv(w)
  {
  }

  /** Every node of the list itself leads onward. */
  lemma ListLeads(w: World, reach: set<nat>, i: nat)
    requires Linked(w.links, w.list) && Stamped(w) && i < |w.list|
    requires forall n | n in w.list :: n in reach
    ensures Leads(w, reach, w.list[i])
  {
    var x := w.list[i];
    forall n | n in w.list && w.stamp[n] < w.stamp[x]
      ensures i + 1 < |w.list| && w.stamp[n] <= w.stamp[w.list[i + 1]]
    {
      var k :| 0 <= k < |w.list| && w.list[k] == n;
      assert k > i;
    }
  }

  lemma BeganAhead(w: World, id: nat, reach: set<nat>)
    requires Linked(w.links, w.list) && Stamped(w) && reach == set x | x in w.list
    ensures Ahead(w, id, reach)
  {
    forall x | x in reach
      ensures Leads(w, reach, x)
    {
      var i :| 0 <= i < |w.list| && w.list[i] == x;
      ListLeads(w, reach, i);
    }
  }

  lemma BeganInv(w: World, id: nat)
    requires Inv(w) && Enabled(w, BeginRead(id))
    ensures ReaderInv(w, id, Began(w))
  {
    var r := Began(w);
    if r.pos.Some? {
      BeganAhead(w, id, r.reach);
      assert w.list[0] == r.pos.value;
      forall n | n in r.present
        ensures n in r.visited || w.stamp[n] < w.stamp[r.pos.value]
      {
        var i :| 0 <= i < |w.list| && w.list[i] == n;
      }
    }
  }

  /** A reader's invariant depends on nothing that other readers do. */
  lemma ReaderFrame(w: World, w': World, id: nat, r: Reader)
    requires ReaderInv(w, id, r)
    requires w' == w.(readers := w'.readers)
    ensures ReaderInv(w', id, r)
  {
    if r.pos.Some? {
      forall x | x in r.reach
        ensures Leads(w', r.reach, x)
      {
        assert Leads(w, r.reach, x);
      }
    }
  }

  lemma GraceFrame(w: World, w': World, node: nat)
    requires GraceOver(w, node) && ReadersInv(w)
    requires w'.waits == w.waits && w'.readers.Keys >= w.readers.Keys
    requires forall r | r in w.readers && !Active(w, r) :: !Active(w', r)
    ensures GraceOver(w', node)
  {
  }

  /** What a reader does leaves the list and the writer's part of the invariant alone. */
  lemma WriterFrame(w: World, w': World)
    requires Linked(w.links, w.list) && Stamped(w) && WriterInv(w) && ReadersInv(w)
    requires w' == w.(readers := w'.readers) && w'.readers.Keys >= w.readers.Keys
    requires forall r | r in w.readers && !Active(w, r) :: !Active(w', r)
    ensures Linked(w'.links, w'.list) && Stamped(w') && WriterInv(w')
  {
    if w.writer.PushNext? || w.writer.PushPprev? || w.writer.PushHead? {
      GraceFrame(w, w', w.writer.node);
    }
  }

  lemma BeginReadHolds(w: World, id: nat)
    requires Inv(w) && Enabled(w, BeginRead(id))
    ensures Inv(Step(w, BeginRead(id)))
  {
    var w' := Step(w, BeginRead(id));
    BeganInv(w, id);
    forall k | k in w'.readers
      ensures ReaderInv(w', k, w'.readers[k])
    {
      ReaderFrame(w, w', k, w'.readers[k]);
    }
    WriterFrame(w, w');
  }

  lemma VisitedDistinct(w: World, r: Reader)
    requires r.pos.Some? && Behind(w, r)
    ensures Distinct(r.visited)
  {
    forall i, j | 0 <= i < j < |r.visited|
      ensures r.visited[i] != r.visited[j]
    {
      assert w.stamp[r.visited[i]] > w.stamp[r.visited[j]];
    }
  }

  lemma AdvancedBehind(w: World, r: Reader, y: nat)
    requires Stamped(w) && r.pos.Some? && Behind(w, r)
    requires Leads(w, r.reach, r.pos.value) && w.links.next[r.pos.value] == Some(y)
    ensures Behind(w, r.(pos := Some(y), visited := r.visited + [y]))
  {
    var r' := r.(pos := Some(y), visited := r.visited + [y]);
    assert r'.visited[|r.visited|] == y;
    forall n | n in r.present
      ensures n in r'.visited || w.stamp[n] < w.stamp[y]
    {
      if n in r.visited {
        var i :| 0 <= i < |r.visited| && r.visited[i] == n;
        assert r'.visited[i] == n;
      }
    }
  }

  lemma AdvancedInv(w: World, id: nat)
    requires Inv(w) && Enabled(w, Advance(id))
    ensures ReaderInv(w, id, Advanced(w, w.readers[id]))
  {
    var r := w.readers[id];
    assert ReaderInv(w, id, r);
    assert Leads(w, r.reach, r.pos.value);
    match w.links.next[r.pos.value] {
      case Some(y) => AdvancedBehind(w, r, y);
      case None => VisitedDistinct(w, r);
    }
  }

  lemma AdvanceReaders(w: World, id: nat)
    requires Inv(w) && Enabled(w, Advance(id))
    ensures ReadersInv(Step(w, Advance(id)))
  {
    var w' := Step(w, Advance(id));
    AdvancedInv(w, id);
    forall k | k in w'.readers
      ensures ReaderInv(w', k, w'.readers[k])
    {
      ReaderFrame(w, w', k, w'.readers[k]);
    }
  }

  lemma AdvanceHolds(w: World, id: nat)
    requires Inv(w) && Enabled(w, Advance(id))
    ensures Inv(Step(w, Advance(id)))
  {
    AdvanceReaders(w, id);
    WriterFrame(w, Step(w, Advance(id)));
  }

  /** Stores to back links and to a node no reader can reach are invisible. */
  lemma HiddenStore(w: World, w': World)
    requires ReadersInv(w)
    requires w' == w.(links := w'.links, writer := w'.writer)
    requires forall id, x | id in w.readers && w.readers[id].pos.Some? && x in w.readers[id].reach
                            && x in w.links.next ::
               x in w'.links.next && w'.links.next[x] == w.links.next[x]
    ensures ReadersInv(w')
  {
    forall id | id in w.readers
      ensures ReaderInv(w', id, w.readers[id])
    {
      var r := w.readers[id];
      assert ReaderInv(w, id, r);
      if r.pos.Some? {
        forall x | x in r.reach
          ensures Leads(w', r.reach, x)
        {
          assert Leads(w, r.reach, x);
        }
      }
    }
  }

  /** Once its grace period is over, a node outside the list is out of reach. */
  lemma OutOfReach(w: World, n: nat, id: nat)
    requires ReadersInv(w) && n !in w.list && GraceOver(w, n) && Active(w, id)
    ensures n !in w.readers[id].reach
  {
    assert ReaderInv(w, id, w.readers[id]);
  }

  lemma PrepareHolds(w: World)
    requires Inv(w) && (w.writer.PushNext? || w.writer.PushPprev?)
    ensures Inv(Stored(w))
  {
    var w' := Stored(w);
    var n := w.writer.node;
    forall id | Active(w, id)
      ensures n !in w.readers[id].reach
    {
      OutOfReach(w, n, id);
    }
    HiddenStore(w, w');
  }

  lemma Repaired(w: World)
    requires Linked(w.links, w.list) && WriterInv(w) && (w.writer.PushBack? || w.writer.EraseBack?)
    ensures var l := Stored(w).links; Linked(l, w.list) && BackLinked(l, w.list) && l.next == w.links.next
  {
    if w.writer.PushBack? {
      RelinkRepairs(w.links, w.list, 1);
    } else {
      var k :| 0 <= k <= |w.list| && w.writer.next == At(w.list, k) && w.writer.pprev == At(w.list, k - 1)
               && BackLinkedBut(w.links, w.list, k);
      RelinkRepairs(w.links, w.list, k);
    }
  }

  lemma RepairHolds(w: World)
    requires Inv(w) && (w.writer.PushBack? || w.writer.EraseBack?)
    ensures Inv(Stored(w))
  {
    var w' := Stored(w);
    Repaired(w);
    assert w' == w.(links := w'.links, writer := Idle);
    HiddenStore(w, w');
  }

  lemma PublishedLeads(w: World, w': World, reach: set<nat>, n: nat, x: nat)
    requires Leads(w, reach, x) && x != n && n !in reach && (forall y | y in w.stamp :: w.stamp[y] < w.clock)
    requires x in w'.links.next && w'.links.next[x] == w.links.next[x]
    requires w'.list == [n] + w.list && w'.stamp == w.stamp[n := w.clock]
    ensures Leads(w', reach + {n}, x)
  {
  }

  lemma PublishedAhead(w: World, id: nat)
    requires Inv(w) && w.writer.PushHead? && id in w.readers && w.readers[id].pos.Some?
    requires Linked(Stored(w).links, Stored(w).list) && Stamped(Stored(w))
    ensures Ahead(Stored(w), id, Stored(w).readers[id].reach)
  {
    var w', n := Stored(w), w.writer.node;
    var r, r' := w.readers[id], w'.readers[id];
    assert ReaderInv(w, id, r);
    OutOfReach(w, n, id);
    forall x | x in r'.reach
      ensures Leads(w', r'.reach, x)
    {
      if x == n {
        assert w'.list[0] == n;
        ListLeads(w', r'.reach, 0);
      } else {
        PublishedLeads(w, w', r.reach, n, x);
      }
    }
  }

  /** A node published since lies before everything the reader has seen. */
  lemma BehindStays(w: World, w': World, r: Reader, n: nat)
    requires r.pos.Some? && Behind(w, r) && n !in r.reach && n !in w.list
    requires w'.list == [n] + w.list && w'.stamp == w.stamp[n := w.clock]
    ensures Behind(w', r.(reach := r.reach + {n}))
  {
    assert forall x | x in w.list :: x in w'.list && x != n;
    assert forall i | 0 <= i < |r.visited| :: r.visited[i] != n;
  }

  lemma PublishedBehind(w: World, id: nat)
    requires Inv(w) && w.writer.PushHead? && id in w.readers && w.readers[id].pos.Some?
    ensures Stored(w).readers[id].pos.Some? && Behind(Stored(w), Stored(w).readers[id])
  {
    assert ReaderInv(w, id, w.readers[id]);
    OutOfReach(w, w.writer.node, id);
    BehindStays(w, Stored(w), w.readers[id], w.writer.node);
  }

  lemma PublishedReader(w: World, id: nat)
    requires Inv(w) && w.writer.PushHead? && id in w.readers
    requires Linked(Stored(w).links, Stored(w).list) && Stamped(Stored(w))
    ensures ReaderInv(Stored(w), id, Stored(w).readers[id])
  {
    assert ReaderInv(w, id, w.readers[id]);
    if w.readers[id].pos.Some? {
      PublishedAhead(w, id);
      PublishedBehind(w, id);
    }
  }

  lemma PublishHolds(w: World)
    requires Inv(w) && w.writer.PushHead?
    ensures Inv(Stored(w))
  {
    var w' := Stored(w);
    PublishPrepends(w.links, w.list, w.writer.node);
    assert Stamped(w') by {
      assert forall i | 0 < i < |w'.list| :: w'.list[i] == w.list[i - 1];
    }
    forall id | id in w'.readers
      ensures ReaderInv(w', id, w'.readers[id])
    {
      PublishedReader(w, id);
    }
  }

  /** list' is list without its i-th element. */
  ghost predicate TookOut(list: seq<nat>, list': seq<nat>, i: nat) {
    i < |list| && |list'| == |list| - 1
    && (forall k | 0 <= k < i :: list'[k] == list[k])
    && (forall k | i <= k < |list'| :: list'[k] == list[k + 1])
    && (forall n :: n in list' <==> n in list && n != list[i])
  }

  lemma TakenOut(list: seq<nat>, i: nat)
    requires Distinct(list) && i < |list|
    ensures TookOut(list, list[..i] + list[i + 1..], i)
  {
    var list' := list[..i] + list[i + 1..];
    forall n | n in list && n != list[i]
      ensures n in list'
    {
      var k :| 0 <= k < |list| && list[k] == n;
      assert list'[if k < i then k else k - 1] == n;
    }
  }

  lemma UnlinkedList(w: World) returns (i: nat)
    requires Inv(w) && w.writer.EraseUnlink?
    ensures i < |w.list| && w.list[i] == w.writer.node
    ensures w.writer.pprev == At(w.list, i - 1) && w.writer.next == At(w.list, i + 1)
    ensures TookOut(w.list, Stored(w).list, i)
    ensures Linked(Stored(w).links, Stored(w).list)
    ensures BackLinkedBut(Stored(w).links, Stored(w).list, i)
  {
    i :| 0 <= i < |w.list| && w.list[i] == w.writer.node;
    WithoutAt(w.list, i);
    TakenOut(w.list, i);
    UnlinkRemoves(w.links, w.list, i);
    UnlinkOwesBackLink(w.links, w.list, i);
  }

  lemma UnlinkedWorld(w: World, w': World, i: nat)
    requires Stamped(w) && TookOut(w.list, w'.list, i) && w'.stamp == w.stamp && w'.clock == w.clock
    requires w'.writer == EraseBack(At(w.list, i + 1), At(w.list, i - 1)) && BackLinkedBut(w'.links, w'.list, i)
    ensures Stamped(w') && WriterInv(w')
  {
    assert At(w'.list, i) == w'.writer.next && At(w'.list, i - 1) == w'.writer.pprev;
  }

  /** A node that keeps its next pointer keeps leading when another is erased. */
  lemma UnlinkedLeads(w: World, w': World, reach: set<nat>, x: nat)
    requires Leads(w, reach, x)
    requires x in w'.links.next && w'.links.next[x] == w.links.next[x]
    requires w'.stamp == w.stamp && forall n | n in w'.list :: n in w.list
    ensures Leads(w', reach, x)
  {
  }

  lemma UnlinkedAhead(w: World, w': World, i: nat, id: nat, reach: set<nat>)
    requires Ahead(w, id, reach) && TookOut(w.list, w'.list, i) && w'.stamp == w.stamp
    requires Linked(w'.links, w'.list) && Stamped(w')
    requires w'.links.next == w.links.next || (i > 0 && w'.links.next == w.links.next[w.list[i - 1] := At(w.list, i + 1)])
    requires w.list[i] in w'.waits && w'.waits == w.waits[w.list[i] := w'.waits[w.list[i]]]
    requires id in w'.waits[w.list[i]]
    ensures Ahead(w', id, reach)
  {
    forall x | x in reach
      ensures Leads(w', reach, x)
    {
      assert Leads(w, reach, x);
      if i > 0 && x == w.list[i - 1] {
        assert w'.list[i - 1] == x;
        ListLeads(w', reach, i - 1);
      } else {
        UnlinkedLeads(w, w', reach, x);
      }
    }
  }

  lemma UnlinkedBehind(w: World, w': World, r: Reader, i: nat)
    requires r.pos.Some? && Behind(w, r) && TookOut(w.list, w'.list, i) && w'.stamp == w.stamp
    ensures Behind(w', r.(present := r.present - {w.list[i]}))
  {
  }

  lemma UnlinkedReader(w: World, w': World, i: nat, id: nat)
    requires Inv(w) && w.writer.EraseUnlink? && w' == Stored(w) && id in w.readers && i < |w.list|
    requires w.list[i] == w.writer.node && w.writer.pprev == At(w.list, i - 1) && w.writer.next == At(w.list, i + 1)
    requires TookOut(w.list, w'.list, i) && Linked(w'.links, w'.list) && Stamped(w')
    ensures ReaderInv(w', id, w'.readers[id])
  {
    assert ReaderInv(w, id, w.readers[id]);
    if w.readers[id].pos.Some? {
      UnlinkedAhead(w, w', i, id, w.readers[id].reach);
      UnlinkedBehind(w, w', w.readers[id], i);
    }
  }

  lemma UnlinkHolds(w: World)
    requires Inv(w) && w.writer.EraseUnlink?
    ensures Inv(Stored(w))
  {
    var w' := Stored(w);
    var i := UnlinkedList(w);
    UnlinkedWorld(w, w', i);
    forall id | id in w'.readers
      ensures ReaderInv(w', id, w'.readers[id])
    {
      UnlinkedReader(w, w', i, id);
    }
  }

  lemma StepHolds(w: World, a: Action)
    requires Inv(w) && Enabled(w, a)
    ensures Inv(Step(w, a))
  {
    match a {
      case BeginRead(r) => BeginReadHolds(w, r);
      case Advance(r) => AdvanceHolds(w, r);
      case Store =>
        if w.writer.PushHead? {
          PublishHolds(w);
        } else if w.writer.EraseUnlink? {
          UnlinkHolds(w);
        } else if w.writer.PushNext? || w.writer.PushPprev? {
          PrepareHolds(w);
        } else {
          RepairHolds(w);
        }
      case _ => HiddenStore(w, Step(w, a));
    }
  }

  // --------------------------------------------------------------- whole runs

  ghost predicate StepsTo(w: World, a: Action, w': World) {
    Enabled(w, a) && w' == Step(w, a)
  }

  ghost predicate IsRun(worlds: seq<World>, actions: seq<Action>) {
    |worlds| == |actions| + 1 && Init(worlds[0])
    && forall i {:trigger actions[i]} | 0 <= i < |actions| :: StepsTo(worlds[i], actions[i], worlds[i + 1])
  }

  lemma {:induction false} RunHolds(worlds: seq<World>, actions: seq<Action>, k: nat)
    requires IsRun(worlds, actions) && k < |worlds|
    ensures Inv(worlds[k])
  {
    if k == 0 {
      InitHolds(worlds[0]);
    } else {
      RunHolds(worlds, actions, k - 1);
      assert StepsTo(worlds[k - 1], actions[k - 1], worlds[k]);
      StepHolds(worlds[k - 1], actions[k - 1]);
    }
  }

  /** A reader under way can always take its next step, and stands on a node
      that has not been reused since it began. */
  lemma ReaderNeverStuck(worlds: seq<World>, actions: seq<Action>, k: nat, id: nat)
    requires IsRun(worlds, actions) && k < |worlds| && Active(worlds[k], id)
    ensures Enabled(worlds[k], Advance(id))
    ensures worlds[k].readers[id].pos.value in worlds[k].readers[id].reach
  {
    RunHolds(worlds, actions, k);
    var w := worlds[k];
    var r := w.readers[id];
    assert ReaderInv(w, id, r);
    assert Leads(w, r.reach, r.pos.value);
  }
}
