/** Devices breadth-first from the seed: `_bfs_device_order`. */
module DeviceOrder {
  import opened Sequences
  import opened Wrappers

  type Id = string
  type Edge = (Id, Id)

  /** A device link joins u and v, in either direction. */
  predicate Linked(edges: seq<Edge>, u: Id, v: Id) {
    (u, v) in edges || (v, u) in edges
  }

  /** u's neighbours in edge order, as the dictionary of lists holds them. */
  function Adjacent(edges: seq<Edge>, u: Id): (vs: seq<Id>)
    ensures forall v :: v in vs <==> Linked(edges, u, v)
  {
    if edges == [] then []
    else
      var front, (a, b) := edges[..|edges| - 1], edges[|edges| - 1];
      assert edges == front + [(a, b)];
      Adjacent(front, u) + (if a == u then [b] else []) + if b == u then [a] else []
  }

  /** A walk over the links between known devices. */
  ghost predicate IsWalk(devices: seq<Id>, edges: seq<Edge>, w: seq<Id>, a: Id, b: Id) {
    && |w| > 0 && w[0] == a && w[|w| - 1] == b
    && (forall v | v in w :: v in devices)
    && forall i | 0 < i < |w| :: Linked(edges, w[i - 1], w[i])
  }

  /** The forest found: each device's parent, its depth, and where its tree's root
      stands in document order. */
  datatype Forest = Forest(parent: map<Id, Option<Id>>, depth: map<Id, nat>, root: map<Id, nat>)

  /** v is a root, or one link below its parent, which comes before it, in the same tree. */
  ghost predicate RootedAt(devices: seq<Id>, edges: seq<Edge>, f: Forest, order: seq<Id>, v: Id)
    requires f.depth.Keys == f.parent.Keys && f.root.Keys == f.parent.Keys && v in f.parent
  {
    && v in devices && f.root[v] < |devices|
    && match f.parent[v]
       case None => f.depth[v] == 0 && devices[f.root[v]] == v
       case Some(u) => u in f.parent && Linked(edges, u, v) && f.depth[v] == f.depth[u] + 1
                       && f.root[v] == f.root[u] && Precedes(order, u, v)
  }

  ghost predicate Rooted(devices: seq<Id>, edges: seq<Edge>, f: Forest, order: seq<Id>) {
    && f.depth.Keys == f.parent.Keys && f.root.Keys == f.parent.Keys
    && forall v {:trigger RootedAt(devices, edges, f, order, v)} | v in f.parent ::
         RootedAt(devices, edges, f, order, v)
  }

  ghost predicate Precedes(order: seq<Id>, u: Id, v: Id) {
    exists i, j | 0 <= i < j < |order| :: order[i] == u && order[j] == v
  }

  /** u's neighbours are all visited, in its tree, at most one link deeper. */
  ghost predicate Closed(devices: seq<Id>, edges: seq<Edge>, f: Forest, u: Id) {
    && u in f.depth && u in f.root
    && forall v | v in devices && Linked(edges, u, v) ::
         v in f.depth && v in f.root && f.root[v] == f.root[u] && f.depth[v] <= f.depth[u] + 1
  }

  /** What `_bfs_device_order` leaves: every device ordered once, each below its
      parent and after it, every tree closed, and no tree rooted later than a member. */
  ghost predicate IsBfs(devices: seq<Id>, edges: seq<Edge>, order: seq<Id>, f: Forest) {
    && NoRepeats(order)
    && (forall v :: v in order <==> v in devices)
    && (forall v :: v in f.parent <==> v in devices)
    && Rooted(devices, edges, f, order)
    && (forall u | u in devices :: Closed(devices, edges, f, u))
    && (forall j | 0 <= j < |devices| :: f.root[devices[j]] <= j)
  }

  /** Any walk keeps to one tree and goes down at most a level a link. */
  lemma {:induction false} WalkStaysInTree(devices: seq<Id>, edges: seq<Edge>, order: seq<Id>, f: Forest, w: seq<Id>,
                                           a: Id, b: Id)
    requires IsBfs(devices, edges, order, f) && IsWalk(devices, edges, w, a, b)
    ensures f.root[b] == f.root[a] && f.depth[b] <= f.depth[a] + |w| - 1
    decreases |w|
  {
    if |w| > 1 {
      var front, y := w[..|w| - 1], w[|w| - 2];
      assert IsWalk(devices, edges, front, a, y);
      WalkStaysInTree(devices, edges, order, f, front, a, y);
      assert y in w && b in w;
      assert Closed(devices, edges, f, y) && Linked(edges, y, b);
    }
  }

  lemma Parent(devices: seq<Id>, edges: seq<Edge>, order: seq<Id>, f: Forest, v: Id)
    requires IsBfs(devices, edges, order, f) && v in devices
    ensures v in f.parent && v in f.depth && v in f.root && f.root[v] < |devices|
    ensures f.parent[v].None? ==> f.depth[v] == 0 && devices[f.root[v]] == v
    ensures f.parent[v].Some? ==>
              var u := f.parent[v].value;
              && u in devices && u in f.depth && u in f.root && Linked(edges, u, v)
              && f.depth[v] == f.depth[u] + 1 && f.root[v] == f.root[u] && Precedes(order, u, v)
  {
    assert RootedAt(devices, edges, f, order, v);
  }

  lemma OneLinkMore(devices: seq<Id>, edges: seq<Edge>, w: seq<Id>, a: Id, u: Id, v: Id)
    requires IsWalk(devices, edges, w, a, u) && Linked(edges, u, v) && v in devices
    ensures IsWalk(devices, edges, w + [v], a, v)
  {
  }

  /** The parents of a device lead up to its root in as many links as its depth. */
  lemma {:induction false} WalkFromRoot(devices: seq<Id>, edges: seq<Edge>, order: seq<Id>, f: Forest, v: Id)
    returns (w: seq<Id>)
    requires IsBfs(devices, edges, order, f) && v in devices
    ensures IsWalk(devices, edges, w, devices[f.root[v]], v) && |w| == f.depth[v] + 1
    decreases f.depth[v]
  {
    hide IsBfs, Rooted;
    Parent(devices, edges, order, f, v);
    if f.parent[v].None? {
      w := [v];
    } else {
      var u := f.parent[v].value;
      w := WalkFromRoot(devices, edges, order, f, u);
      OneLinkMore(devices, edges, w, devices[f.root[v]], u, v);
      w := w + [v];
    }
  }

  /** A device's depth is the least number of links from its tree's root, and that
      root is the first device in document order of all those linked to it. */
  lemma DepthIsLeast(devices: seq<Id>, edges: seq<Edge>, order: seq<Id>, f: Forest, v: Id)
    requires IsBfs(devices, edges, order, f) && v in devices
    ensures f.root[v] < |devices|
    ensures exists w :: IsWalk(devices, edges, w, devices[f.root[v]], v) && |w| == f.depth[v] + 1
    ensures forall w | IsWalk(devices, edges, w, devices[f.root[v]], v) :: f.depth[v] + 1 <= |w|
    ensures forall j, w | 0 <= j < |devices| && IsWalk(devices, edges, w, devices[j], v) :: f.root[v] <= j
  {
    var up := WalkFromRoot(devices, edges, order, f, v);
    var r := devices[f.root[v]];
    forall w | IsWalk(devices, edges, w, r, v) ensures f.depth[v] + 1 <= |w| {
      WalkStaysInTree(devices, edges, order, f, w, r, v);
      RootIsAtDepthZero(devices, edges, order, f, v);
    }
    forall j, w | 0 <= j < |devices| && IsWalk(devices, edges, w, devices[j], v) ensures f.root[v] <= j {
      WalkStaysInTree(devices, edges, order, f, w, devices[j], v);
    }
  }

  lemma {:induction false} RootIsAtDepthZero(devices: seq<Id>, edges: seq<Edge>, order: seq<Id>, f: Forest, v: Id)
    requires IsBfs(devices, edges, order, f) && v in devices
    ensures devices[f.root[v]] in f.depth && f.depth[devices[f.root[v]]] == 0
    decreases f.depth[v]
  {
    Parent(devices, edges, order, f, v);
    if f.parent[v].Some? {
      RootIsAtDepthZero(devices, edges, order, f, f.parent[v].value);
    }
  }

  // ---- the search --------------------------------------------------------------------

  /** The devices taken off the queue, in order, those still in it, and the forest
      over both. */
  datatype Search = Search(order: seq<Id>, queue: seq<Id>, forest: Forest) {
    function Met(): seq<Id> {
      order + queue
    }
  }

  /** The forest is over the devices met, each tree rooted at its first in document
      order, up to the r-th. */
  ghost predicate Planted(devices: seq<Id>, edges: seq<Edge>, s: Search, r: nat) {
    var f := s.forest;
    && NoRepeats(s.Met())
    && (forall v :: v in f.parent <==> v in s.Met())
    && Rooted(devices, edges, f, s.Met())
    && (forall v | v in f.parent :: v in f.root && f.root[v] <= r)
    && (forall j | 0 <= j < |devices| && devices[j] in f.parent :: f.root[devices[j]] <= j)
    && (forall j | 0 <= j <= r && j < |devices| :: devices[j] in f.parent)
  }

  /** What waits is of the tree being searched, in depth order and within one level;
      what is off the queue of that tree is no deeper than the level. */
  ghost predicate Layered(s: Search, r: nat, level: nat)
    requires s.forest.depth.Keys == s.forest.root.Keys
  {
    var f := s.forest;
    && (forall v | v in s.queue :: v in f.depth && f.root[v] == r && level <= f.depth[v] <= level + 1)
    && (forall i, j | 0 <= i < j < |s.queue| :: f.depth[s.queue[i]] <= f.depth[s.queue[j]])
    && (forall v | v in s.order && v in f.root && f.root[v] == r :: f.depth[v] <= level)
  }

  ghost predicate Inv(devices: seq<Id>, edges: seq<Edge>, s: Search, r: nat, level: nat) {
    && Planted(devices, edges, s, r) && Layered(s, r, level)
    && forall u | u in s.order :: Closed(devices, edges, s.forest, u)
  }

  /** v is in u's tree and at most one link deeper. */
  ghost predicate Reached(f: Forest, u: Id, v: Id) {
    u in f.depth && u in f.root && v in f.depth && v in f.root
    && f.root[v] == f.root[u] && f.depth[v] <= f.depth[u] + 1
  }

  /** The last device off the queue is being expanded: k of its neighbours are done. */
  ghost predicate Expanding(devices: seq<Id>, edges: seq<Edge>, s: Search, r: nat, level: nat, k: nat) {
    && s.order != [] && Planted(devices, edges, s, r) && Layered(s, r, level)
    && var n := |s.order| - 1;
       var cur := s.order[n];
       && s.forest.root[cur] == r && s.forest.depth[cur] == level
       && (forall u | u in s.order[..n] :: Closed(devices, edges, s.forest, u))
       && k <= |Adjacent(edges, cur)|
       && forall v | v in Adjacent(edges, cur)[..k] && v in devices :: Reached(s.forest, cur, v)
  }

  /** No tree is being searched: the first i devices have been met, and all that is
      met is closed. */
  ghost predicate Between(devices: seq<Id>, edges: seq<Edge>, s: Search, i: nat) {
    && s.queue == [] && NoRepeats(s.order)
    && (forall v :: v in s.forest.parent <==> v in s.order)
    && Rooted(devices, edges, s.forest, s.order)
    && (forall u | u in s.order :: Closed(devices, edges, s.forest, u))
    && (forall v | v in s.forest.parent :: s.forest.root[v] < i)
    && (forall j | 0 <= j < |devices| && devices[j] in s.forest.parent :: s.forest.root[devices[j]] <= j)
    && (forall j | 0 <= j < i && j < |devices| :: devices[j] in s.forest.parent)
  }

  function Begin(s: Search, seed: Id, i: nat): Search {
    Search(s.order, [seed], Plant(s.forest, seed, None, 0, i))
  }

  lemma MorePrecedes(order: seq<Id>, u: Id, v: Id, w: Id)
    requires Precedes(order, u, v)
    ensures Precedes(order + [w], u, v)
  {
    var i, j :| 0 <= i < j < |order| && order[i] == u && order[j] == v;
    assert (order + [w])[i] == u && (order + [w])[j] == v;
  }

  function Plant(f: Forest, v: Id, parent: Option<Id>, d: nat, r: nat): Forest {
    Forest(f.parent[v := parent], f.depth[v := d], f.root[v := r])
  }

  lemma RootedAtStays(devices: seq<Id>, edges: seq<Edge>, f: Forest, f': Forest, order: seq<Id>, w: Id, v: Id)
    requires Rooted(devices, edges, f, order) && v in f.parent
    requires f'.depth.Keys == f'.parent.Keys && f'.root.Keys == f'.parent.Keys
    requires forall x | x in f.parent :: x in f'.parent && f'.parent[x] == f.parent[x]
                                         && f'.depth[x] == f.depth[x] && f'.root[x] == f.root[x]
    ensures RootedAt(devices, edges, f', order + [w], v)
  {
    assert RootedAt(devices, edges, f, order, v);
    if f.parent[v].Some? {
      MorePrecedes(order, f.parent[v].value, v, w);
    }
  }

  /** One more device at the end, a root or below one already met. */
  lemma RootedGrows(devices: seq<Id>, edges: seq<Edge>, f: Forest, order: seq<Id>, v: Id, parent: Option<Id>, d: nat,
                    r: nat)
    requires Rooted(devices, edges, f, order) && v !in f.parent && v in devices && r < |devices|
    requires parent.None? ==> d == 0 && devices[r] == v
    requires parent.Some? ==> && parent.value in f.parent && parent.value in order && Linked(edges, parent.value, v)
                              && d == f.depth[parent.value] + 1 && r == f.root[parent.value]
    ensures Rooted(devices, edges, Plant(f, v, parent, d, r), order + [v])
  {
    var f' := Plant(f, v, parent, d, r);
    forall x | x in f'.parent ensures RootedAt(devices, edges, f', order + [v], x) {
      if x != v {
        RootedAtStays(devices, edges, f, f', order, v, x);
      } else if parent.Some? {
        var i :| 0 <= i < |order| && order[i] == parent.value;
        assert (order + [v])[i] == parent.value && (order + [v])[|order|] == v;
      }
    }
  }

  /** A device met later changes nothing for those closed. */
  lemma ClosedStays(devices: seq<Id>, edges: seq<Edge>, f: Forest, f': Forest, u: Id)
    requires Closed(devices, edges, f, u)
    requires forall v | v in f.depth && v in f.root :: v in f'.depth && v in f'.root
                                                     && f'.depth[v] == f.depth[v] && f'.root[v] == f.root[v]
    ensures Closed(devices, edges, f', u)
  {
  }

  lemma BeginIsPlanted(devices: seq<Id>, edges: seq<Edge>, s: Search, i: nat)
    requires Between(devices, edges, s, i) && i < |devices| && devices[i] !in s.forest.parent
    ensures Planted(devices, edges, Begin(s, devices[i], i), i)
  {
    hide Closed, Rooted, NoRepeats;
    var s', seed := Begin(s, devices[i], i), devices[i];
    RootedGrows(devices, edges, s.forest, s.order, seed, None, 0, i);
    OneMoreIsNew(s.order, seed);
    assert s'.Met() == s.order + [seed];
  }

  lemma BeginIsLayered(devices: seq<Id>, edges: seq<Edge>, s: Search, i: nat)
    requires Between(devices, edges, s, i) && i < |devices| && devices[i] !in s.forest.parent
    ensures var s' := Begin(s, devices[i], i); s'.forest.depth.Keys == s'.forest.root.Keys && Layered(s', i, 0)
  {
    hide Closed, RootedAt, NoRepeats;
  }

  lemma BeginInv(devices: seq<Id>, edges: seq<Edge>, s: Search, i: nat)
    requires Between(devices, edges, s, i) && i < |devices| && devices[i] !in s.forest.parent
    ensures Inv(devices, edges, Begin(s, devices[i], i), i, 0)
  {
    hide Closed, Planted, Layered, NoRepeats;
    var s' := Begin(s, devices[i], i);
    BeginIsPlanted(devices, edges, s, i);
    BeginIsLayered(devices, edges, s, i);
    forall u | u in s'.order ensures Closed(devices, edges, s'.forest, u) {
      ClosedStays(devices, edges, s.forest, s'.forest, u);
    }
  }

  lemma TreeDone(devices: seq<Id>, edges: seq<Edge>, s: Search, r: nat, level: nat)
    requires Inv(devices, edges, s, r, level) && s.queue == []
    ensures Between(devices, edges, s, r + 1)
  {
    assert s.Met() == s.order;
  }

  function TakeFirst(s: Search): Search
    requires s.queue != []
  {
    Search(s.order + [s.queue[0]], s.queue[1..], s.forest)
  }

  lemma LayeredTakesFirst(s: Search, r: nat, level: nat)
    requires s.forest.depth.Keys == s.forest.root.Keys && Layered(s, r, level) && s.queue != []
    ensures Layered(TakeFirst(s), r, s.forest.depth[s.queue[0]])
  {
    var s', cur := TakeFirst(s), s.queue[0];
    assert cur in s.queue;
    forall v | v in s'.queue
      ensures v in s.forest.depth && s.forest.root[v] == r
              && s.forest.depth[cur] <= s.forest.depth[v] <= s.forest.depth[cur] + 1
    {
      var i :| 0 <= i < |s'.queue| && s'.queue[i] == v;
      assert s.queue[i + 1] == v && v in s.queue;
    }
  }

  lemma TakeFirstExpands(devices: seq<Id>, edges: seq<Edge>, s: Search, r: nat, level: nat)
    requires Inv(devices, edges, s, r, level) && s.queue != []
    ensures Expanding(devices, edges, TakeFirst(s), r, s.forest.depth[s.queue[0]], 0)
  {
    hide Closed, Rooted, Layered, Planted, Adjacent;
    var s', cur := TakeFirst(s), s.queue[0];
    PlantedTakesFirst(devices, edges, s, r);
    LayeredTakesFirst(s, r, level);
    FirstIsInTree(s, r, level);
    assert s'.order[..|s.order|] == s.order;
  }

  lemma PlantedTakesFirst(devices: seq<Id>, edges: seq<Edge>, s: Search, r: nat)
    requires Planted(devices, edges, s, r) && s.queue != []
    ensures Planted(devices, edges, TakeFirst(s), r)
    ensures s.forest.depth.Keys == s.forest.root.Keys
  {
    hide Rooted;
    RootedKeys(devices, edges, s.forest, s.Met());
    assert TakeFirst(s).Met() == s.Met();
  }

  lemma RootedKeys(devices: seq<Id>, edges: seq<Edge>, f: Forest, order: seq<Id>)
    requires Rooted(devices, edges, f, order)
    ensures f.depth.Keys == f.parent.Keys && f.root.Keys == f.parent.Keys
  {
  }

  lemma FirstIsInTree(s: Search, r: nat, level: nat)
    requires s.forest.depth.Keys == s.forest.root.Keys && Layered(s, r, level) && s.queue != []
    ensures s.queue[0] in s.forest.root && s.forest.root[s.queue[0]] == r
  {
  }

  /** A neighbour already met is in the tree, no deeper than a level below. */
  lemma MetIsReached(devices: seq<Id>, edges: seq<Edge>, s: Search, r: nat, level: nat, k: nat, v: Id)
    requires Expanding(devices, edges, s, r, level, k) && v in devices && v in s.forest.parent
    requires Linked(edges, s.order[|s.order| - 1], v)
    ensures Reached(s.forest, s.order[|s.order| - 1], v)
  {
    hide RootedAt, NoRepeats, Adjacent;
    var n := |s.order| - 1;
    var cur := s.order[n];
    assert cur in s.Met() && v in s.Met();
    assert cur in s.forest.parent && cur in devices by {
      RootedIsADevice(devices, edges, s.forest, s.Met(), cur);
    }
    if v in s.order[..n] {
      assert Closed(devices, edges, s.forest, v) && Linked(edges, v, cur);
      assert v in s.order;
    } else if v in s.order {
      assert v == cur;
    } else {
      assert v in s.queue;
    }
  }

  lemma RootedIsADevice(devices: seq<Id>, edges: seq<Edge>, f: Forest, order: seq<Id>, v: Id)
    requires Rooted(devices, edges, f, order) && v in f.parent
    ensures v in devices && f.root[v] < |devices|
  {
    assert RootedAt(devices, edges, f, order, v);
  }

  lemma PassOver(devices: seq<Id>, edges: seq<Edge>, s: Search, r: nat, level: nat, k: nat)
    requires Expanding(devices, edges, s, r, level, k)
    requires k < |Adjacent(edges, s.order[|s.order| - 1])|
    requires var v := Adjacent(edges, s.order[|s.order| - 1])[k]; v in s.forest.parent || v !in devices
    ensures Expanding(devices, edges, s, r, level, k + 1)
  {
    hide Closed, Rooted, Layered, Planted, Adjacent, Linked, Reached;
    var adjacent := Adjacent(edges, s.order[|s.order| - 1]);
    AdjacentIsLinked(edges, s.order[|s.order| - 1], k);
    assert adjacent[..k + 1] == adjacent[..k] + [adjacent[k]];
    if adjacent[k] in devices {
      MetIsReached(devices, edges, s, r, level, k, adjacent[k]);
    }
  }

  function Visit(s: Search, v: Id): Search
    requires s.order != [] && s.order[|s.order| - 1] in s.forest.depth && s.order[|s.order| - 1] in s.forest.root
  {
    var cur := s.order[|s.order| - 1];
    Search(s.order, s.queue + [v], Plant(s.forest, v, Some(cur), s.forest.depth[cur] + 1, s.forest.root[cur]))
  }

  lemma OthersStayClosed(devices: seq<Id>, edges: seq<Edge>, s: Search, v: Id, us: seq<Id>)
    requires s.order != [] && s.order[|s.order| - 1] in s.forest.depth && s.order[|s.order| - 1] in s.forest.root
    requires v !in s.forest.depth && v !in s.forest.root
    requires forall u | u in us :: Closed(devices, edges, s.forest, u)
    ensures forall u | u in us :: Closed(devices, edges, Visit(s, v).forest, u)
  {
    hide Closed;
    forall u | u in us ensures Closed(devices, edges, Visit(s, v).forest, u) {
      ClosedStays(devices, edges, s.forest, Visit(s, v).forest, u);
    }
  }

  lemma NeighboursStayReached(devices: seq<Id>, s: Search, v: Id, before: seq<Id>, after: seq<Id>)
    requires s.order != [] && s.order[|s.order| - 1] in s.forest.depth && s.order[|s.order| - 1] in s.forest.root
    requires v !in s.forest.depth && v !in s.forest.root && after == before + [v]
    requires forall x | x in before && x in devices :: Reached(s.forest, s.order[|s.order| - 1], x)
    ensures forall x | x in after && x in devices :: Reached(Visit(s, v).forest, s.order[|s.order| - 1], x)
  {
    hide Reached;
    forall x | x in after && x in devices ensures Reached(Visit(s, v).forest, s.order[|s.order| - 1], x) {
      VisitReaches(s, v, x);
    }
  }

  lemma VisitExpands(devices: seq<Id>, edges: seq<Edge>, s: Search, r: nat, level: nat, k: nat, v: Id)
    requires Expanding(devices, edges, s, r, level, k)
    requires k < |Adjacent(edges, s.order[|s.order| - 1])| && Adjacent(edges, s.order[|s.order| - 1])[k] == v
    requires v !in s.forest.parent && v in devices
    requires s.order[|s.order| - 1] in s.forest.depth && s.order[|s.order| - 1] in s.forest.root
    ensures Expanding(devices, edges, Visit(s, v), r, level, k + 1)
  {
    hide Closed, Rooted, Layered, Planted, Adjacent, Linked, Reached;
    var cur := s.order[|s.order| - 1];
    var adjacent := Adjacent(edges, cur);
    AdjacentIsLinked(edges, cur, k);
    VisitPlants(devices, edges, s, r, level, v);
    NotMet(devices, edges, s, r, v);
    LayeredVisits(s, r, level, v);
    OthersStayClosed(devices, edges, s, v, s.order[..|s.order| - 1]);
    assert adjacent[..k + 1] == adjacent[..k] + [v];
    NeighboursStayReached(devices, s, v, adjacent[..k], adjacent[..k + 1]);
  }

  lemma VisitReaches(s: Search, v: Id, x: Id)
    requires s.order != [] && s.order[|s.order| - 1] in s.forest.depth && s.order[|s.order| - 1] in s.forest.root
    requires v !in s.forest.depth && v !in s.forest.root
    requires x == v || Reached(s.forest, s.order[|s.order| - 1], x)
    ensures Reached(Visit(s, v).forest, s.order[|s.order| - 1], x)
  {
  }

  lemma AdjacentIsLinked(edges: seq<Edge>, u: Id, k: nat)
    requires k < |Adjacent(edges, u)|
    ensures Linked(edges, u, Adjacent(edges, u)[k])
  {
    assert Adjacent(edges, u)[k] in Adjacent(edges, u);
  }

  lemma NotMet(devices: seq<Id>, edges: seq<Edge>, s: Search, r: nat, v: Id)
    requires Planted(devices, edges, s, r) && v !in s.forest.parent
    ensures v !in s.order && v !in s.queue && v !in s.forest.depth && v !in s.forest.root
    ensures s.forest.depth.Keys == s.forest.root.Keys
    ensures forall j | 0 <= j < |devices| && devices[j] == v :: r <= j
  {
    hide Rooted;
    RootedKeys(devices, edges, s.forest, s.Met());
    assert v !in s.Met();
  }

  lemma VisitPlants(devices: seq<Id>, edges: seq<Edge>, s: Search, r: nat, level: nat, v: Id)
    requires Planted(devices, edges, s, r) && s.order != [] && v !in s.forest.parent && v in devices
    requires var cur := s.order[|s.order| - 1];
             && cur in s.forest.root && cur in s.forest.depth && Linked(edges, cur, v)
             && s.forest.root[cur] == r && s.forest.depth[cur] == level
    ensures Planted(devices, edges, Visit(s, v), r)
  {
    hide RootedAt, Linked, Rooted;
    var cur, s' := s.order[|s.order| - 1], Visit(s, v);
    assert cur in s.Met() && s'.Met() == s.Met() + [v];
    RootedIsADevice(devices, edges, s.forest, s.Met(), cur);
    NotMet(devices, edges, s, r, v);
    RootedGrows(devices, edges, s.forest, s.Met(), v, Some(cur), level + 1, r);
    PlantedGrows(devices, edges, s, r, v, s');
  }

  lemma LayeredVisits(s: Search, r: nat, level: nat, v: Id)
    requires s.forest.depth.Keys == s.forest.root.Keys && Layered(s, r, level) && s.order != [] && v !in s.forest.depth
    requires var cur := s.order[|s.order| - 1];
             cur in s.forest.root && s.forest.root[cur] == r && s.forest.depth[cur] == level
    requires v !in s.order && v !in s.queue
    ensures Layered(Visit(s, v), r, level)
  {
  }

  lemma PlantedGrows(devices: seq<Id>, edges: seq<Edge>, s: Search, r: nat, v: Id, s': Search)
    requires Planted(devices, edges, s, r) && v !in s.forest.parent && s'.Met() == s.Met() + [v]
    requires s'.forest.parent.Keys == s.forest.parent.Keys + {v} && s'.forest.root.Keys == s.forest.root.Keys + {v}
    requires forall x | x in s.forest.root :: s'.forest.root[x] == s.forest.root[x]
    requires s'.forest.root[v] == r && forall j | 0 <= j < |devices| && devices[j] == v :: r <= j
    requires Rooted(devices, edges, s'.forest, s'.Met())
    ensures Planted(devices, edges, s', r)
  {
    hide RootedAt;
  }

  lemma Expanded(devices: seq<Id>, edges: seq<Edge>, s: Search, r: nat, level: nat)
    requires s.order != []
    requires Expanding(devices, edges, s, r, level, |Adjacent(edges, s.order[|s.order| - 1])|)
    ensures Inv(devices, edges, s, r, level)
  {
    hide Planted, Layered, Closed, Adjacent, Reached;
    var n, cur := |s.order| - 1, s.order[|s.order| - 1];
    CurrentIsClosed(devices, edges, s, r, level);
    forall u | u in s.order ensures Closed(devices, edges, s.forest, u) {
      if u != cur {
        assert u in s.order[..n];
      }
    }
  }

  lemma CurrentIsClosed(devices: seq<Id>, edges: seq<Edge>, s: Search, r: nat, level: nat)
    requires s.order != []
    requires Expanding(devices, edges, s, r, level, |Adjacent(edges, s.order[|s.order| - 1])|)
    ensures Closed(devices, edges, s.forest, s.order[|s.order| - 1])
  {
    hide Planted, Layered;
    var cur := s.order[|s.order| - 1];
    var adjacent := Adjacent(edges, cur);
    CurrentIsKnown(devices, edges, s, r, level, |adjacent|);
    assert adjacent[..|adjacent|] == adjacent;
  }

  method Expand(devices: seq<Id>, edges: seq<Edge>, adjacency: map<Id, seq<Id>>, s0: Search, ghost r: nat,
                ghost level: nat)
    returns (s: Search)
    requires Expanding(devices, edges, s0, r, level, 0)
    requires Holds(adjacency, edges)
    ensures Inv(devices, edges, s, r, level) && s.order == s0.order
  {
    hide Inv, Closed, Rooted, Layered, Reached, Linked, Adjacent;
    s := s0;
    var cur := s.order[|s.order| - 1];
    var neighbours := if cur in adjacency then adjacency[cur] else [];
    for k := 0 to |neighbours|
      invariant s.order == s0.order && Expanding(devices, edges, s, r, level, k)
    {
      if neighbours[k] !in s.forest.parent && neighbours[k] in devices {
        CurrentIsKnown(devices, edges, s, r, level, k);
        VisitExpands(devices, edges, s, r, level, k, neighbours[k]);
        s := Visit(s, neighbours[k]);
      } else {
        PassOver(devices, edges, s, r, level, k);
      }
    }
    Expanded(devices, edges, s, r, level);
  }

  lemma CurrentIsKnown(devices: seq<Id>, edges: seq<Edge>, s: Search, r: nat, level: nat, k: nat)
    requires Expanding(devices, edges, s, r, level, k)
    ensures s.order[|s.order| - 1] in s.forest.depth && s.order[|s.order| - 1] in s.forest.root
  {
    hide RootedAt;
    assert s.order[|s.order| - 1] in s.Met();
  }

  /** The adjacency dictionary holds every device's neighbours; no entry means none. */
  ghost predicate Holds(adjacency: map<Id, seq<Id>>, edges: seq<Edge>) {
    forall u :: (if u in adjacency then adjacency[u] else []) == Adjacent(edges, u)
  }

  function Append(adjacency: map<Id, seq<Id>>, u: Id, v: Id): map<Id, seq<Id>> {
    adjacency[u := (if u in adjacency then adjacency[u] else []) + [v]]
  }

  method BuildAdjacency(edges: seq<Edge>) returns (adjacency: map<Id, seq<Id>>)
    ensures Holds(adjacency, edges)
  {
    adjacency := map[];
    for i := 0 to |edges|
      invariant Holds(adjacency, edges[..i])
    {
      var (a, b) := edges[i];
      assert edges[..i + 1][..i] == edges[..i];
      adjacency := Append(Append(adjacency, a, b), b, a);
    }
    assert edges[..|edges|] == edges;
  }

  lemma FirstIsNew(devices: seq<Id>, edges: seq<Edge>, s: Search, r: nat, level: nat)
    requires Inv(devices, edges, s, r, level) && s.queue != []
    ensures s.queue[0] in devices && s.queue[0] !in s.order
  {
    hide RootedAt;
    assert s.Met()[|s.order|] == s.queue[0] && s.queue[0] in s.Met();
    RootedIsADevice(devices, edges, s.forest, s.Met(), s.queue[0]);
    assert forall i | 0 <= i < |s.order| :: s.Met()[i] == s.order[i];
  }

  /** One tree: the queue from its root until it is empty. */
  method SearchTree(devices: seq<Id>, edges: seq<Edge>, adjacency: map<Id, seq<Id>>, s0: Search, i: nat)
    returns (s: Search)
    requires Between(devices, edges, s0, i) && i < |devices| && devices[i] !in s0.forest.parent
    requires Holds(adjacency, edges)
    ensures Between(devices, edges, s, i + 1)
  {
    hide Between, Inv, Expanding, Holds;
    BeginInv(devices, edges, s0, i);
    s := Begin(s0, devices[i], i);
    ghost var level := 0;
    ghost var known := set d | d in devices;
    while s.queue != []
      invariant Inv(devices, edges, s, i, level)
      decreases known - (set d | d in s.order)
    {
      FirstIsNew(devices, edges, s, i, level);
      TakeFirstExpands(devices, edges, s, i, level);
      FirstHasDepth(devices, edges, s, i, level);
      level := s.forest.depth[s.queue[0]];
      ghost var before := s.order;
      s := Expand(devices, edges, adjacency, TakeFirst(s), i, level);
      OneLessUnordered(known, before, s.order);
    }
    TreeDone(devices, edges, s, i, level);
  }

  lemma OneLessUnordered(known: set<Id>, before: seq<Id>, after: seq<Id>)
    requires |after| == |before| + 1 && after[..|before|] == before
    requires after[|before|] in known && after[|before|] !in before
    ensures known - (set d | d in after) < known - (set d | d in before)
  {
    assert after == before + [after[|before|]];
    assert after[|before|] in known - (set d | d in before);
    assert after[|before|] !in known - (set d | d in after);
  }

  lemma FirstHasDepth(devices: seq<Id>, edges: seq<Edge>, s: Search, r: nat, level: nat)
    requires Inv(devices, edges, s, r, level) && s.queue != []
    ensures s.queue[0] in s.forest.depth
  {
  }

  lemma SkipDevice(devices: seq<Id>, edges: seq<Edge>, s: Search, i: nat)
    requires Between(devices, edges, s, i) && i < |devices| && devices[i] in s.forest.parent
    ensures Between(devices, edges, s, i + 1)
  {
    hide Closed, Rooted;
    RootedKeys(devices, edges, s.forest, s.order);
  }

  lemma AllMet(devices: seq<Id>, edges: seq<Edge>, s: Search)
    requires Between(devices, edges, s, |devices|)
    ensures IsBfs(devices, edges, s.order, s.forest)
  {
    hide Closed, RootedAt;
    forall v | v in s.forest.parent ensures v in devices {
      RootedIsADevice(devices, edges, s.forest, s.order, v);
    }
  }

  /** `_bfs_device_order`. The forest's depths and roots are kept beside its parents. */
  method BfsDeviceOrder(devices: seq<Id>, edges: seq<Edge>)
    returns (order: seq<Id>, parent: map<Id, Option<Id>>, ghost forest: Forest)
    ensures IsBfs(devices, edges, order, forest) && parent == forest.parent
  {
    hide Between, IsBfs, Holds;
    var adjacency := BuildAdjacency(edges);
    var s := Search([], [], Forest(map[], map[], map[]));
    NothingMet(devices, edges);
    for i := 0 to |devices|
      invariant Between(devices, edges, s, i)
    {
      if devices[i] in s.forest.parent {
        SkipDevice(devices, edges, s, i);
      } else {
        s := SearchTree(devices, edges, adjacency, s, i);
      }
    }
    AllMet(devices, edges, s);
    order, parent, forest := s.order, s.forest.parent, s.forest;
  }

  lemma NothingMet(devices: seq<Id>, edges: seq<Edge>)
    ensures Between(devices, edges, Search([], [], Forest(map[], map[], map[])), 0)
  {
  }
}
