/** What the engine's edges and routes say, in terms of interfaces, VLANs and evidence. */
module AttackRoutes {
  import opened AttackPaths
  import opened BestWalk
  import opened Ordering
  import opened Sequences
  import opened TakeoverSteps
  import opened Wrappers

  // ---- where assets stand ------------------------------------------------------------------

  ghost predicate HasInterface(n: Node, vlan: nat) {
    exists p :: p in n.ports && n.ports[p].up && n.ports[p].l3Vlan == Some(vlan)
  }

  ghost predicate Radiates(ap: Node, radio: string, vlan: nat) {
    exists p :: p in ap.ports && ap.ports[p].up && ap.ports[p].radio == Some((radio, vlan))
  }

  /** A device sits where it has an up layer-3 interface, a host in its known VLAN, a Wi-Fi
      client in the one VLAN its radio is up in. */
  ghost predicate SitsIn(e: Engine, id: string, vlan: nat) {
    && id in e.nodes
    && var n := e.nodes[id];
       match n.kind
       case Device => HasInterface(n, vlan)
       case Host =>
         if n.vlan > 0 then vlan == n.vlan
         else n.wifi.Some? && n.wifi.value.0 in e.nodes
              && forall w: nat :: Radiates(e.nodes[n.wifi.value.0], n.wifi.value.1, w) <==> w == vlan
  }

  /** Where an attacker at u stands: with the asset, or on the spare ports of one VLAN. */
  ghost predicate StandsIn(e: Engine, u: Vertex, vlan: nat) {
    match u
    case Asset(id) => SitsIn(e, id, vlan)
    case SparePorts(switch, v) => (switch, v) in e.spare && vlan == v
  }

  ghost predicate ShareVlan(e: Engine, u: Vertex, v: Vertex) {
    exists vlan: nat :: StandsIn(e, u, vlan) && StandsIn(e, v, vlan)
  }

  /** A third device, a router or layer-3 switch, has an up interface with each of them. */
  ghost predicate Joins(e: Engine, r: string, u: Vertex, v: Vertex) {
    && r in e.nodes && e.nodes[r].role in {Role.Router, L3Switch} && Asset(r) != u && Asset(r) != v
    && (exists vlan: nat :: HasInterface(e.nodes[r], vlan) && StandsIn(e, u, vlan))
    && exists vlan: nat :: HasInterface(e.nodes[r], vlan) && StandsIn(e, v, vlan)
  }

  lemma L3VlansAre(n: Node)
    ensures forall vlan: nat :: vlan in L3Vlans(n) <==> HasInterface(n, vlan)
  {
  }

  lemma RadioVlansAre(ap: Node, radio: string)
    ensures forall vlan: nat :: vlan in RadioVlans(ap, radio) <==> Radiates(ap, radio, vlan)
  {
  }

  lemma OneElement(s: set<nat>, x: nat)
    requires x in s
    ensures |s| == 1 <==> forall y :: y in s ==> y == x
  {
    if |s| == 1 {
      assert |s - {x}| == 0;
    }
    if forall y :: y in s ==> y == x {
      assert s == {x};
    }
  }

  lemma VlansAre(e: Engine, id: string, vlan: nat)
    requires id in e.nodes
    ensures vlan in e.VlansOf(e.nodes[id]) <==> SitsIn(e, id, vlan)
  {
    hide L3Vlans, RadioVlans, HasInterface, Radiates;
    var n := e.nodes[id];
    L3VlansAre(n);
    if n.kind == Host && n.vlan == 0 && n.wifi.Some? && n.wifi.value.0 in e.nodes {
      var vlans := RadioVlans(e.nodes[n.wifi.value.0], n.wifi.value.1);
      RadioVlansAre(e.nodes[n.wifi.value.0], n.wifi.value.1);
      if vlan in vlans {
        OneElement(vlans, vlan);
      }
    }
  }

  lemma MembersAre(e: Engine, u: Vertex, vlan: nat)
    ensures (u in e.Members() && vlan in e.Members()[u]) <==> StandsIn(e, u, vlan)
  {
    hide Engine.VlansOf, SitsIn;
    match u
    case Asset(id) =>
      assert u in e.Members() <==> id in e.Placed();
      if id in e.nodes {
        VlansAre(e, id, vlan);
      } else {
        assert !SitsIn(e, id, vlan) by { NoNodeSitsNowhere(e, id, vlan); }
      }
    case SparePorts(switch, v) =>
      assert (switch, v) in e.spare <==> u in set s | s in e.spare :: SparePorts(s.0, s.1);
  }

  lemma NoNodeSitsNowhere(e: Engine, id: string, vlan: nat)
    requires id !in e.nodes
    ensures !SitsIn(e, id, vlan)
  {
  }

  lemma PlacedAre(e: Engine, id: string, vlan: nat)
    ensures (id in e.Placed() && vlan in e.Placed()[id]) <==> SitsIn(e, id, vlan)
  {
    hide Engine.VlansOf;
    if id in e.nodes {
      VlansAre(e, id, vlan);
    }
  }

  /** Two places of the map share a VLAN exactly when the engine's sets meet. */
  lemma SharingIs(e: Engine, u: Vertex, id: string)
    requires u in e.Members() && id in e.Placed()
    ensures e.Members()[u] * e.Placed()[id] != {} <==> ShareVlan(e, u, Asset(id))
  {
    hide Engine.Members, Engine.Placed, SitsIn;
    forall vlan: nat
      ensures vlan in e.Members()[u] <==> StandsIn(e, u, vlan)
      ensures vlan in e.Placed()[id] <==> StandsIn(e, Asset(id), vlan)
    {
      MembersAre(e, u, vlan);
      PlacedAre(e, id, vlan);
    }
    var both := e.Members()[u] * e.Placed()[id];
    if both != {} {
      var vlan :| vlan in both;
      assert StandsIn(e, u, vlan) && StandsIn(e, Asset(id), vlan);
    }
    if vlan: nat :| StandsIn(e, u, vlan) && StandsIn(e, Asset(id), vlan) {
      assert vlan in both;
    }
  }

  lemma JoiningIs(e: Engine, r: string, u: Vertex, id: string)
    requires u in e.Members() && id in e.Placed()
    ensures e.RoutesBetween(r, e.Members()[u], e.Placed()[id], {u, Asset(id)}) <==> Joins(e, r, u, Asset(id))
  {
    hide Engine.Members, Engine.Placed, SitsIn, L3Vlans, HasInterface, StandsIn;
    if r in e.nodes {
      L3VlansAre(e.nodes[r]);
      forall vlan: nat
        ensures vlan in e.Members()[u] <==> StandsIn(e, u, vlan)
        ensures vlan in e.Placed()[id] <==> StandsIn(e, Asset(id), vlan)
      {
        MembersAre(e, u, vlan);
        PlacedStand(e, id, vlan);
      }
      Meets(e, L3Vlans(e.nodes[r]), e.nodes[r], u, e.Members()[u]);
      Meets(e, L3Vlans(e.nodes[r]), e.nodes[r], Asset(id), e.Placed()[id]);
    }
  }

  lemma PlacedStand(e: Engine, id: string, vlan: nat)
    ensures (id in e.Placed() && vlan in e.Placed()[id]) <==> StandsIn(e, Asset(id), vlan)
  {
    PlacedAre(e, id, vlan);
  }

  lemma Meets(e: Engine, vlans: set<nat>, n: Node, u: Vertex, mu: set<nat>)
    requires forall vlan: nat :: vlan in vlans <==> HasInterface(n, vlan)
    requires forall vlan: nat :: vlan in mu <==> StandsIn(e, u, vlan)
    ensures vlans * mu != {} <==> exists vlan: nat :: HasInterface(n, vlan) && StandsIn(e, u, vlan)
  {
    hide HasInterface, StandsIn;
    if vlans * mu != {} {
      var vlan :| vlan in vlans * mu;
      assert HasInterface(n, vlan) && StandsIn(e, u, vlan);
    }
    if vlan: nat :| HasInterface(n, vlan) && StandsIn(e, u, vlan) {
      assert vlan in vlans * mu;
    }
  }

  // ---- what an edge is ---------------------------------------------------------------------

  /** v can be taken over from u: they share a VLAN or a router joins them, and its CVEs and
      findings leave it open in that scope. */
  ghost predicate IsReachable(e: Engine, u: Vertex, v: Vertex) {
    && u != v && v.Asset? && v.id in e.nodes
    && (ShareVlan(e, u, v) || exists r :: Joins(e, r, u, v))
    && IsOpen(e.nodes[v.id].findings, e.nodes[v.id].candidates, !ShareVlan(e, u, v))
  }

  /** The edge crosses a router exactly when the two share no VLAN, then the one of lowest
      id; its value is the greatest on offer in that scope, and its step names its evidence. */
  ghost predicate MeansEdge(e: Engine, u: Vertex, v: Vertex, edge: Edge) {
    && v.Asset? && v.id in e.nodes
    && var crosses, n := !ShareVlan(e, u, v), e.nodes[v.id];
       && (edge.router.Some? <==> crosses)
       && (crosses ==> Joins(e, edge.router.value, u, v)
                       && forall r :: Joins(e, r, u, v) ==> AtMost(edge.router.value, r))
       && Offers(n.findings, n.candidates, crosses, edge.step.value)
       && (forall w :: Offers(n.findings, n.candidates, crosses, w) ==> w <= edge.step.value)
       && IsWorth(n.findings, n.candidates, crosses, edge.step.value)
       && NamesEvidence(n.findings, n.candidates, crosses, edge.step)
  }

  /** An edge is there exactly when the target is reachable, and says how. */
  lemma EdgeMeansReachable(e: Engine, u: Vertex, v: Vertex)
    ensures e.EdgeBetween(u, v).Some? <==> IsReachable(e, u, v)
    ensures e.EdgeBetween(u, v).Some? ==> MeansEdge(e, u, v, e.EdgeBetween(u, v).value)
  {
    hide Engine.Members, Engine.Placed, Engine.Link, Joins, Offers;
    if u in e.Members() && v.Asset? && v.id in e.Placed() {
      PlacedIsANode(e, v.id);
      LinkMeans(e, u, v);
    } else {
      NowhereIsUnreachable(e, u, v);
    }
  }

  lemma NowhereIsUnreachable(e: Engine, u: Vertex, v: Vertex)
    requires u !in e.Members() || !v.Asset? || v.id !in e.Placed()
    ensures !IsReachable(e, u, v)
  {
    hide Engine.Members, Engine.Placed, HasInterface, SitsIn, StandsIn;
    forall vlan: nat
      ensures !StandsIn(e, u, vlan) || !v.Asset? || !StandsIn(e, v, vlan)
      ensures u !in e.Members() ==> !StandsIn(e, u, vlan)
      ensures v.Asset? && v.id !in e.Placed() ==> !StandsIn(e, v, vlan)
    {
      MembersAre(e, u, vlan);
      if v.Asset? {
        PlacedStand(e, v.id, vlan);
      }
    }
  }

  lemma LinkMeans(e: Engine, u: Vertex, v: Vertex)
    requires u in e.Members() && v.Asset? && v.id in e.Placed() && v.id in e.nodes
    ensures var edge := e.Link(u, e.Members()[u], v, e.Placed()[v.id]);
            (edge.Some? <==> IsReachable(e, u, v)) && (edge.Some? ==> MeansEdge(e, u, v, edge.value))
  {
    hide Engine.Members, Engine.Placed, Engine.RouterBetween, Engine.RoutesBetween, ShareVlan, Joins, Offers, Takeover,
      IsWorth, NamesEvidence, IsOpen;
    var n := e.nodes[v.id];
    assert v == Asset(v.id);
    SharingIs(e, u, v.id);
    TakenOverExactlyWhen(n.findings, n.candidates, !ShareVlan(e, u, v));
    TakeoverIsGreatestOffer(n.findings, n.candidates, !ShareVlan(e, u, v));
    TakeoverByComplexity(n.findings, n.candidates, !ShareVlan(e, u, v));
    StepNamesItsEvidence(n.findings, n.candidates, !ShareVlan(e, u, v));
    e.RouterIsLowestQualifying(e.Members()[u], e.Placed()[v.id], {u, v});
    forall r
      ensures e.RoutesBetween(r, e.Members()[u], e.Placed()[v.id], {u, v}) <==> Joins(e, r, u, v)
    {
      JoiningIs(e, r, u, v.id);
    }
  }

  // ---- what a route's steps say -------------------------------------------------------------

  /** The assets taken over, in order. */
  function Taken(steps: seq<RouteStep>): seq<Vertex> {
    if steps == [] then []
    else
      var last := steps[|steps| - 1];
      Taken(steps[..|steps| - 1]) + if last.TakeOver? then [last.to] else []
  }

  function ProductOf(steps: seq<RouteStep>): real {
    if steps == [] then 1.0
    else
      var last := steps[|steps| - 1];
      ProductOf(steps[..|steps| - 1]) * if last.TakeOver? then last.step.value else 1.0
  }

  /** The step starts where the one before it led: at the asset taken over, or, once a router
      is crossed, at that router, to take over the asset it was crossed for. */
  ghost predicate Follows(steps: seq<RouteStep>, start: Vertex, k: nat)
    requires k < |steps|
  {
    if k > 0 && steps[k - 1].Transit? then
      steps[k].TakeOver? && steps[k].from == Asset(steps[k - 1].through) && steps[k].to == steps[k - 1].to
    else steps[k].from == if k == 0 then start else steps[k - 1].to
  }

  ghost predicate Chained(steps: seq<RouteStep>, start: Vertex) {
    forall k | 0 <= k < |steps| :: Follows(steps, start, k)
  }

  /** A step takes over within a VLAN, or after a router that joins the two ends, which share
      no VLAN; only there is it by a CVE. */
  ghost predicate IsSound(e: Engine, steps: seq<RouteStep>, k: nat)
    requires k < |steps|
  {
    match steps[k]
    case Transit(from, through, to) => Joins(e, through, from, to) && !ShareVlan(e, from, to)
    case TakeOver(from, to, step) =>
      if k > 0 && steps[k - 1].Transit? then step.Weakness? else ShareVlan(e, from, to)
  }

  lemma {:induction false} StepsTellTheRoute(e: Engine, g: map<(Vertex, Vertex), Edge>, path: seq<Vertex>)
    requires path != [] && OnGraph(g, path) && e.IsReachability(g)
    ensures var steps := StepsOf(g, path);
            && Taken(steps) == path[1..] && ProductOf(steps) == Likelihood(Values(g), path)
            && Chained(steps, path[0]) && (forall k | 0 <= k < |steps| :: IsSound(e, steps, k))
            && (steps != [] ==> steps[|steps| - 1].TakeOver? && steps[|steps| - 1].to == path[|path| - 1])
            && (steps == [] <==> |path| == 1)
  {
    hide Engine.IsReachability, Chained, IsSound, Taken, ProductOf, StepsOf, Likelihood, MeansEdge, HopSteps;
    var n := |path|;
    if n == 1 {
      NoStepsYet(g, path);
    } else {
      var front := path[..n - 1];
      var a, b := path[n - 2], path[n - 1];
      assert (a, b) in g;
      StepsTellTheRoute(e, g, front);
      HopTells(e, g, a, b);
      LastHop(g, path);
      OneMoreHop(e, StepsOf(g, front), path[0], a, b, g[(a, b)]);
      assert path[1..] == front[1..] + [b];
    }
  }

  lemma NoStepsYet(g: map<(Vertex, Vertex), Edge>, path: seq<Vertex>)
    requires |path| == 1 && OnGraph(g, path)
    ensures StepsOf(g, path) == [] && Likelihood(Values(g), path) == 1.0
    ensures Taken([]) == [] && ProductOf([]) == 1.0 && Chained([], path[0])
  {
  }

  lemma LastHop(g: map<(Vertex, Vertex), Edge>, path: seq<Vertex>)
    requires |path| > 1 && OnGraph(g, path)
    ensures var front, edge := path[..|path| - 1], g[(path[|path| - 2], path[|path| - 1])];
            && OnGraph(g, front)
            && StepsOf(g, path) == StepsOf(g, front) + HopSteps(path[|path| - 2], path[|path| - 1], edge)
            && Likelihood(Values(g), path) == Likelihood(Values(g), front) * edge.step.value
  {
  }

  lemma HopTells(e: Engine, g: map<(Vertex, Vertex), Edge>, a: Vertex, b: Vertex)
    requires e.IsReachability(g) && (a, b) in g
    ensures MeansEdge(e, a, b, g[(a, b)])
  {
    EdgeMeansReachable(e, a, b);
  }

  lemma OneMoreStep(e: Engine, steps: seq<RouteStep>, start: Vertex, s: RouteStep)
    requires Chained(steps, start) && forall k | 0 <= k < |steps| :: IsSound(e, steps, k)
    requires var n := |steps|;
             if n > 0 && steps[n - 1].Transit? then
               s.TakeOver? && s.from == Asset(steps[n - 1].through) && s.to == steps[n - 1].to
             else s.from == if n == 0 then start else steps[n - 1].to
    requires IsSound(e, steps + [s], |steps|)
    ensures Chained(steps + [s], start) && forall k | 0 <= k <= |steps| :: IsSound(e, steps + [s], k)
  {
    hide ShareVlan, Joins;
    var more := steps + [s];
    assert forall k | 0 <= k < |steps| :: more[k] == steps[k];
    forall k | 0 <= k <= |steps| ensures IsSound(e, more, k) && Follows(more, start, k) {
      if k < |steps| {
        assert IsSound(e, steps, k) && Follows(steps, start, k);
      }
    }
  }

  lemma OneMoreTold(steps: seq<RouteStep>, s: RouteStep)
    ensures Taken(steps + [s]) == Taken(steps) + if s.TakeOver? then [s.to] else []
    ensures ProductOf(steps + [s]) == ProductOf(steps) * if s.TakeOver? then s.step.value else 1.0
  {
    assert (steps + [s])[..|steps|] == steps;
  }

  lemma CrossingIsByCve(findings: seq<Check>, rows: seq<Cve>, step: Step)
    ensures NamesEvidence(findings, rows, true, step) ==> step.Weakness?
  {
  }

  lemma OneMoreHop(e: Engine, steps: seq<RouteStep>, start: Vertex, a: Vertex, b: Vertex, edge: Edge)
    requires MeansEdge(e, a, b, edge)
    requires Chained(steps, start) && forall k | 0 <= k < |steps| :: IsSound(e, steps, k)
    requires if steps == [] then a == start else steps[|steps| - 1].TakeOver? && steps[|steps| - 1].to == a
    ensures var more := steps + HopSteps(a, b, edge);
            && Taken(more) == Taken(steps) + [b] && ProductOf(more) == ProductOf(steps) * edge.step.value
            && Chained(more, start) && (forall k | 0 <= k < |more| :: IsSound(e, more, k))
            && more != [] && more[|more| - 1].TakeOver? && more[|more| - 1].to == b
  {
    hide ShareVlan, Joins, Offers, IsWorth, NamesEvidence, Chained, Taken, ProductOf;
    CrossingIsByCve(e.nodes[b.id].findings, e.nodes[b.id].candidates, edge.step);
    if edge.router.None? {
      OneMoreTold(steps, TakeOver(a, b, edge.step));
      OneMoreStep(e, steps, start, TakeOver(a, b, edge.step));
    } else {
      var transit := Transit(a, edge.router.value, b);
      OneMoreTold(steps, transit);
      OneMoreStep(e, steps, start, transit);
      OneMoreTold(steps + [transit], TakeOver(Asset(edge.router.value), b, edge.step));
      OneMoreStep(e, steps + [transit], start, TakeOver(Asset(edge.router.value), b, edge.step));
      assert steps + HopSteps(a, b, edge) == steps + [transit] + [TakeOver(Asset(edge.router.value), b, edge.step)];
    }
  }

  /** One (start, target) pair of an engine, from its inputs to its route. */
  method RouteBetween(e: Engine, start: Vertex, target: Vertex)
    returns (g: map<(Vertex, Vertex), Edge>, r: Option<Route>)
    ensures e.IsReachability(g)
    ensures forall u, v :: (u, v) in g <==> IsReachable(e, u, v)
    ensures forall u, v | (u, v) in g :: MeansEdge(e, u, v, g[(u, v)])
    ensures r.None? <==> !exists w :: IsWalk(Values(g), w, start, target)
    ensures r.Some? ==> && IsBest(Values(g), r.value.path, start, target)
                        && r.value.likelihood == Likelihood(Values(g), r.value.path)
                        && NoRepeats(r.value.path)
                        && (forall i | 0 < i < |r.value.path| :: r.value.path[i].Asset?)
                        && OnGraph(g, r.value.path) && r.value.steps == StepsOf(g, r.value.path)
    ensures r.Some? ==> && r.value.path != [] && Taken(r.value.steps) == r.value.path[1..]
                        && ProductOf(r.value.steps) == r.value.likelihood && Chained(r.value.steps, start)
                        && forall k | 0 <= k < |r.value.steps| :: IsSound(e, r.value.steps, k)
  {
    hide Engine.IsReachability, IsReachable, MeansEdge, Chained, IsSound, StepsOf, IsBest, Taken, ProductOf;
    g := e.ReachabilityGraph();
    ReachabilityIsProper(e, g);
    GraphMeansReachable(e, g);
    r := FindRoute(g, start, target);
    if r.Some? {
      BestStarts(Values(g), r.value.path, start, target);
      StepsTellTheRoute(e, g, r.value.path);
    }
  }

  lemma GraphMeansReachable(e: Engine, g: map<(Vertex, Vertex), Edge>)
    requires e.IsReachability(g)
    ensures forall u, v :: (u, v) in g <==> IsReachable(e, u, v)
    ensures forall u, v | (u, v) in g :: MeansEdge(e, u, v, g[(u, v)])
  {
    hide IsReachable, MeansEdge, Engine.EdgeBetween;
    forall u, v
      ensures (u, v) in g <==> IsReachable(e, u, v)
      ensures (u, v) in g ==> MeansEdge(e, u, v, g[(u, v)])
    {
      EdgeMeansReachable(e, u, v);
    }
  }

  lemma BestStarts(g: BestWalk.Graph, w: seq<Vertex>, start: Vertex, target: Vertex)
    requires IsBest(g, w, start, target)
    ensures w != [] && w[0] == start
  {
  }
}
