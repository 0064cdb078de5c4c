/** The most likely walk: Dijkstra on products of edges in (0, 1]. */
module BestWalk {
  import opened Sequences
  import opened Wrappers

  /** Where an attacker can stand: at an asset, or at the spare ports of one VLAN on a
      switch, whose graph id begins "start:spare-ports:" and so is no asset's. */
  datatype Vertex = Asset(id: string) | SparePorts(switch: string, vlan: nat)

  type Graph = map<(Vertex, Vertex), real>

  ghost predicate IsWalk(g: Graph, w: seq<Vertex>, a: Vertex, b: Vertex) {
    && |w| > 0 && w[0] == a && w[|w| - 1] == b
    && forall i | 0 < i < |w| :: (w[i - 1], w[i]) in g
  }

  /** The product of the edge values along a walk. */
  ghost function Likelihood(g: Graph, w: seq<Vertex>): real
    requires forall i | 0 < i < |w| :: (w[i - 1], w[i]) in g
  {
    if |w| <= 1 then 1.0
    else Likelihood(g, w[..|w| - 1]) * g[(w[|w| - 2], w[|w| - 1])]
  }

  ghost predicate Proper(g: Graph) {
    forall e | e in g :: 0.0 < g[e] <= 1.0
  }

  /** w is a walk from a to b, and no walk from a to b is likelier. */
  ghost predicate IsBest(g: Graph, w: seq<Vertex>, a: Vertex, b: Vertex) {
    && IsWalk(g, w, a, b)
    && forall w' | IsWalk(g, w', a, b) :: Likelihood(g, w') <= Likelihood(g, w)
  }

  lemma Scale(x: real, y: real, c: real)
    requires 0.0 <= x <= y && 0.0 < c <= 1.0
    ensures 0.0 <= x * c <= y * c <= y
    ensures 0.0 < x ==> 0.0 < x * c
  {
  }

  lemma Lower(x: real, y: real, c: real, z: real)
    requires x <= y && 0.0 < c && y * c <= z
    ensures x * c <= z
  {
  }

  lemma {:induction false} LikelihoodRange(g: Graph, w: seq<Vertex>)
    requires Proper(g)
    requires forall i | 0 < i < |w| :: (w[i - 1], w[i]) in g
    ensures 0.0 < Likelihood(g, w) <= 1.0
  {
    if |w| > 1 {
      var front, e := w[..|w| - 1], (w[|w| - 2], w[|w| - 1]);
      LikelihoodRange(g, front);
      assert e in g;
      Scale(Likelihood(g, front), 1.0, g[e]);
    }
  }

  /** A walk of more than one vertex is a walk to its last but one, then an edge. */
  lemma LastEdge(g: Graph, w: seq<Vertex>, a: Vertex, b: Vertex) returns (front: seq<Vertex>, y: Vertex)
    requires Proper(g) && IsWalk(g, w, a, b) && |w| > 1
    ensures front == w[..|w| - 1] && IsWalk(g, front, a, y) && (y, b) in g && w == front + [b]
    ensures Likelihood(g, w) == Likelihood(g, front) * g[(y, b)]
    ensures 0.0 < Likelihood(g, w) <= Likelihood(g, front)
  {
    front, y := w[..|w| - 1], w[|w| - 2];
    assert (w[|w| - 2], w[|w| - 1]) in g;
    LikelihoodRange(g, front);
    Scale(Likelihood(g, front), Likelihood(g, front), g[(y, b)]);
  }

  lemma Extend(g: Graph, w: seq<Vertex>, a: Vertex, y: Vertex, b: Vertex)
    requires IsWalk(g, w, a, y) && (y, b) in g
    ensures IsWalk(g, w + [b], a, b)
    ensures Likelihood(g, w + [b]) == Likelihood(g, w) * g[(y, b)]
  {
    assert (w + [b])[..|w|] == w;
  }

  /** g' has every edge of g, none less likely. */
  ghost predicate Raised(g: Graph, g': Graph) {
    forall e | e in g :: e in g' && g[e] <= g'[e]
  }

  lemma ScaleBoth(x: real, x': real, c: real, c': real)
    requires 0.0 < x <= x' && 0.0 < c <= c'
    ensures x * c <= x' * c'
  {
    assert x * c <= x * c';
    assert x * c' <= x' * c';
  }

  lemma {:induction false} RaisedWalk(g: Graph, g': Graph, w: seq<Vertex>, a: Vertex, b: Vertex)
    requires Proper(g) && Raised(g, g') && IsWalk(g, w, a, b)
    ensures IsWalk(g', w, a, b) && Likelihood(g, w) <= Likelihood(g', w)
    decreases |w|
  {
    if |w| > 1 {
      var front, y := LastEdge(g, w, a, b);
      RaisedWalk(g, g', front, a, y);
      Extend(g', front, a, y, b);
      LikelihoodRange(g, front);
      ScaleBoth(Likelihood(g, front), Likelihood(g', front), g[(y, b)], g'[(y, b)]);
    }
  }

  /** What the search knows: the vertices settled so far, the best likelihood
      seen for each vertex met, and the walk that has it. */
  datatype Search = Search(settled: set<Vertex>, best: map<Vertex, real>, path: map<Vertex, seq<Vertex>>)

  ghost predicate KnownPath(g: Graph, start: Vertex, s: Search, v: Vertex)
    requires v in s.best && v in s.path
  {
    var p := s.path[v];
    && IsWalk(g, p, start, v) && Likelihood(g, p) == s.best[v]
    && NoRepeats(p) && forall i | 0 <= i < |p| - 1 :: p[i] in s.settled
  }

  /** The likelihood of reaching u by settled v's walk and the edge from v. */
  function Through(g: Graph, s: Search, v: Vertex, u: Vertex): real
    requires v in s.best && (v, u) in g
  {
    s.best[v] * g[(v, u)]
  }

  ghost predicate Relaxed(g: Graph, s: Search) {
    forall v, u | (v, u) in g && v in s.settled && u !in s.settled ::
      v in s.best && u in s.best && Through(g, s, v, u) <= s.best[u]
  }

  ghost predicate Optimal(g: Graph, start: Vertex, s: Search) {
    forall v, w | v in s.settled && IsWalk(g, w, start, v) :: v in s.best && Likelihood(g, w) <= s.best[v]
  }

  ghost predicate Inv(g: Graph, start: Vertex, s: Search) {
    && s.settled <= s.best.Keys && s.best.Keys == s.path.Keys
    && start in s.best && s.best[start] == 1.0
    && (forall v | v in s.best :: KnownPath(g, start, s, v))
    && Relaxed(g, s)
    && Optimal(g, start, s)
  }

  ghost predicate IsFringeMax(s: Search, v: Vertex) {
    && v in s.best && v !in s.settled
    && forall u | u in s.best && u !in s.settled :: s.best[u] <= s.best[v]
  }

  /** A step out of the settled vertices is bounded by what is known of its end. */
  lemma StepOutBound(g: Graph, start: Vertex, s: Search, front: seq<Vertex>, y: Vertex, x: Vertex)
    requires Proper(g) && Relaxed(g, s) && Optimal(g, start, s) && IsWalk(g, front, start, y)
    requires y in s.settled && x !in s.settled && (y, x) in g
    ensures x in s.best && Likelihood(g, front) * g[(y, x)] <= s.best[x]
  {
    hide Likelihood;
    assert y in s.best && x in s.best && Through(g, s, y, x) <= s.best[x];
    assert Likelihood(g, front) <= s.best[y] && 0.0 < g[(y, x)];
    Lower(Likelihood(g, front), s.best[y], g[(y, x)], s.best[x]);
  }

  /** A walk that leaves the settled vertices is no likelier than the fringe's best. */
  lemma {:induction false} LeavingBound(g: Graph, start: Vertex, s: Search, top: Vertex, w: seq<Vertex>, x: Vertex)
    requires Proper(g) && Relaxed(g, s) && Optimal(g, start, s) && IsFringeMax(s, top)
    requires start in s.best && s.best[start] == 1.0
    requires IsWalk(g, w, start, x) && x !in s.settled
    ensures Likelihood(g, w) <= s.best[top]
    decreases |w|
  {
    hide Proper, Relaxed, Optimal;
    if |w| > 1 {
      var front, y := LastEdge(g, w, start, x);
      if y in s.settled {
        StepOutBound(g, start, s, front, y, x);
      } else {
        LeavingBound(g, start, s, top, front, y);
      }
    }
  }

  /** Once every met vertex is settled, no walk leads outside them. */
  lemma {:induction false} SettledIsClosed(g: Graph, start: Vertex, s: Search, w: seq<Vertex>, x: Vertex)
    requires Inv(g, start, s) && s.best.Keys <= s.settled
    requires IsWalk(g, w, start, x)
    ensures x in s.settled
    decreases |w|
  {
    if |w| > 1 {
      assert IsWalk(g, w[..|w| - 1], start, w[|w| - 2]);
      SettledIsClosed(g, start, s, w[..|w| - 1], w[|w| - 2]);
      assert (w[|w| - 2], x) in g;
    }
  }

  predicate Improves(g: Graph, s: Search, v: Vertex, u: Vertex)
    requires v in s.best
  {
    && (v, u) in g && u != v && u !in s.settled
    && (u !in s.best || Through(g, s, v, u) > s.best[u])
  }

  /** Settle v, then offer every edge out of it to its far end. */
  function Settle(g: Graph, s: Search, v: Vertex): Search
    requires v in s.best && v in s.path
  {
    var better := set e | e in g && e.0 == v && Improves(g, s, v, e.1) :: e.1;
    Search(s.settled + {v},
           s.best + map u | u in better :: Through(g, s, v, u),
           s.path + map u | u in better :: s.path[v] + [u])
  }

  ghost predicate Kept(s: Search, s': Search, u: Vertex) {
    && u in s.best && u in s.path && u in s'.best && u in s'.path
    && s'.best[u] == s.best[u] && s'.path[u] == s.path[u]
  }

  ghost predicate Reached(g: Graph, s: Search, v: Vertex, s': Search, u: Vertex) {
    && v in s.best && v in s.path && u in s'.best && u in s'.path
    && u != v && u !in s.settled && (v, u) in g
    && s'.best[u] == Through(g, s, v, u) && s'.path[u] == s.path[v] + [u]
  }

  /** What settling v does, vertex by vertex. */
  ghost predicate SettledTo(g: Graph, s: Search, v: Vertex, s': Search) {
    && s'.settled == s.settled + {v}
    && s'.best.Keys == s'.path.Keys && s.best.Keys <= s'.best.Keys
    && (forall u | u in s'.best :: Kept(s, s', u) || Reached(g, s, v, s', u))
    && (forall u | u in s'.settled :: Kept(s, s', u))
    && (forall u | u in s.best :: s.best[u] <= s'.best[u])
    && (forall u | (v, u) in g && u !in s'.settled ::
          v in s.best && u in s'.best && Through(g, s, v, u) <= s'.best[u])
  }

  lemma SettleOne(g: Graph, s: Search, v: Vertex, u: Vertex)
    requires s.best.Keys == s.path.Keys && v in s.best
    ensures var s' := Settle(g, s, v);
            if Improves(g, s, v, u) then Reached(g, s, v, s', u)
            else if u in s.best then Kept(s, s', u)
            else u !in s'.best && u !in s'.path
  {
    if Improves(g, s, v, u) {
      var e := (v, u);
      assert e in g && e.0 == v && Improves(g, s, v, e.1);
    }
  }

  lemma SettleSettles(g: Graph, s: Search, v: Vertex)
    requires s.best.Keys == s.path.Keys && v in s.best && s.settled <= s.best.Keys
    ensures SettledTo(g, s, v, Settle(g, s, v))
  {
    forall u {
      SettleOne(g, s, v, u);
    }
  }

  lemma PathStaysKnown(g: Graph, start: Vertex, s: Search, v: Vertex, s': Search, u: Vertex)
    requires s'.settled == s.settled + {v}
    requires v in s.best && v in s.path && KnownPath(g, start, s, v) && v !in s.settled
    requires (Kept(s, s', u) && KnownPath(g, start, s, u)) || Reached(g, s, v, s', u)
    ensures KnownPath(g, start, s', u)
  {
    if Reached(g, s, v, s', u) {
      Extend(g, s.path[v], start, v, u);
    }
  }

  lemma EdgeStaysRelaxed(g: Graph, s: Search, v: Vertex, s': Search, x: Vertex, u: Vertex)
    requires (x, u) in g && Kept(s, s', x)
    requires u in s.best ==> u in s'.best && s.best[u] <= s'.best[u]
    requires if x == v then u in s'.best && Through(g, s, v, u) <= s'.best[u]
             else u in s.best && Through(g, s, x, u) <= s.best[u]
    ensures u in s'.best && Through(g, s', x, u) <= s'.best[u]
  {
  }

  lemma StaysRelaxed(g: Graph, s: Search, v: Vertex, s': Search)
    requires SettledTo(g, s, v, s') && Relaxed(g, s)
    ensures Relaxed(g, s')
  {
    forall x, u | (x, u) in g && x in s'.settled && u !in s'.settled
      ensures x in s'.best && u in s'.best && Through(g, s', x, u) <= s'.best[u]
    {
      EdgeStaysRelaxed(g, s, v, s', x, u);
    }
  }

  lemma StaysOptimal(g: Graph, start: Vertex, s: Search, v: Vertex, s': Search)
    requires Proper(g) && Relaxed(g, s) && Optimal(g, start, s) && IsFringeMax(s, v)
    requires start in s.best && s.best[start] == 1.0
    requires SettledTo(g, s, v, s')
    ensures Optimal(g, start, s')
  {
    forall u, w | u in s'.settled && IsWalk(g, w, start, u)
      ensures u in s'.best && Likelihood(g, w) <= s'.best[u]
    {
      assert Kept(s, s', u);
      if u == v {
        LeavingBound(g, start, s, v, w, v);
      }
    }
  }

  lemma SettleKeepsInv(g: Graph, start: Vertex, s: Search, v: Vertex, s': Search)
    requires Proper(g) && Inv(g, start, s) && IsFringeMax(s, v) && SettledTo(g, s, v, s')
    ensures Inv(g, start, s')
  {
    // the walk to v has only settled vertices before its end, its start among them
    assert KnownPath(g, start, s, v);
    assert start in s'.settled;
    assert Kept(s, s', start);
    forall u | u in s'.best ensures u in s'.path && KnownPath(g, start, s', u) {
      if Kept(s, s', u) {
        assert KnownPath(g, start, s, u);
      }
      PathStaysKnown(g, start, s, v, s', u);
    }
    StaysRelaxed(g, s, v, s');
    StaysOptimal(g, start, s, v, s');
  }

  /** The heap's top: an unsettled vertex of greatest likelihood (ties in any order). */
  method FringeMax(s: Search) returns (v: Vertex)
    requires s.best.Keys - s.settled != {}
    ensures IsFringeMax(s, v)
  {
    var fringe := s.best.Keys - s.settled;
    v :| v in fringe;
    var left := fringe - {v};
    while left != {}
      invariant v in fringe && left <= fringe
      invariant forall u | u in fringe - left :: s.best[u] <= s.best[v]
      decreases left
    {
      var u :| u in left;
      if s.best[u] > s.best[v] {
        v := u;
      }
      left := left - {u};
    }
  }

  function Begin(start: Vertex): Search {
    Search({}, map[start := 1.0], map[start := [start]])
  }

  lemma BeginInv(g: Graph, start: Vertex)
    ensures Inv(g, start, Begin(start))
  {
    assert KnownPath(g, start, Begin(start), start);
  }

  ghost function Far(g: Graph, start: Vertex): set<Vertex> {
    {start} + set e | e in g :: e.1
  }

  lemma StaysNear(g: Graph, start: Vertex, s: Search, v: Vertex, s': Search)
    requires SettledTo(g, s, v, s') && s.best.Keys <= Far(g, start) && v in s.best && v !in s.settled
    ensures s'.best.Keys <= Far(g, start)
    ensures Far(g, start) - s'.settled < Far(g, start) - s.settled
  {
    forall u | u in s'.best && !Kept(s, s', u) ensures u in Far(g, start) {
      assert Reached(g, s, v, s', u);
      var e := (v, u);
      assert e in g && e.1 == u;
    }
    assert v in Far(g, start) - s.settled && v !in Far(g, start) - s'.settled;
  }

  /** The search: settle the likeliest vertex met until it is the target, or
      nothing is left to settle. */
  method MostLikelyPath(g: Graph, start: Vertex, target: Vertex) returns (path: Option<seq<Vertex>>)
    requires Proper(g)
    ensures path.None? <==> !exists w :: IsWalk(g, w, start, target)
    ensures path.Some? ==> IsBest(g, path.value, start, target) && NoRepeats(path.value)
  {
    var s := Begin(start);
    BeginInv(g, start);
    while s.best.Keys - s.settled != {}
      invariant Inv(g, start, s) && target !in s.settled && s.best.Keys <= Far(g, start)
      decreases Far(g, start) - s.settled
    {
      var v := FringeMax(s);
      var s' := Settle(g, s, v);
      SettleSettles(g, s, v);
      SettleKeepsInv(g, start, s, v, s');
      StaysNear(g, start, s, v, s');
      if v == target {
        SettledIsBest(g, start, s', v);
        return Some(s'.path[v]);
      }
      s := s';
    }
    forall w | IsWalk(g, w, start, target) ensures false {
      SettledIsClosed(g, start, s, w, target);
    }
    return None;
  }

  lemma SettledIsBest(g: Graph, start: Vertex, s: Search, v: Vertex)
    requires Inv(g, start, s) && v in s.settled
    ensures IsBest(g, s.path[v], start, v) && NoRepeats(s.path[v])
  {
    assert KnownPath(g, start, s, v);
  }
}
