/** The exposure-path engine over one graph: who can take over what, and the most
    likely route. */
module AttackPaths {
  import opened Sequences
  import opened Wrappers
  import opened Ordering
  import opened TakeoverSteps
  import opened BestWalk

  datatype Kind = Device | Host
  datatype Role = Router | L3Switch | OtherRole

  /** An interface: whether it is up, the VLAN number its name carries as a
      layer-3 interface, and its radio when it is a radio's sub-interface. */
  datatype Port = Port(up: bool, l3Vlan: Option<nat>, radio: Option<(string, nat)>)

  /** `vlan` is 0 when not known; `wifi` names the access point and radio. */
  datatype Node = Node(kind: Kind, role: Role, ports: map<string, Port>, vlan: nat,
                       wifi: Option<(string, string)>, findings: seq<Check>, candidates: seq<Cve>,
                       riskScore: Option<real>)

  datatype Edge = Edge(step: Step, router: Option<string>)

  function L3Vlans(n: Node): set<nat> {
    set p | p in n.ports && n.ports[p].up && n.ports[p].l3Vlan.Some? :: n.ports[p].l3Vlan.value
  }

  function RadioVlans(ap: Node, radio: string): set<nat> {
    set p | p in ap.ports && ap.ports[p].up && ap.ports[p].radio.Some? && ap.ports[p].radio.value.0 == radio
      :: ap.ports[p].radio.value.1
  }

  function StartingAt(u: Vertex, out: map<Vertex, Edge>): (g: map<(Vertex, Vertex), Edge>)
    ensures forall x, v :: (x, v) in g <==> x == u && v in out
    ensures forall v | v in out :: g[(u, v)] == out[v]
  {
    map v | v in out :: (u, v) := out[v]
  }

  /** The engine's inputs: the nodes by id, and the spare-port starts. */
  datatype Engine = Engine(nodes: map<string, Node>, spare: set<(string, nat)>) {

    /** The VLANs an asset sits in; none when it cannot be placed. */
    function VlansOf(n: Node): set<nat> {
      if n.kind == Device then L3Vlans(n)
      else if n.vlan != 0 then {n.vlan}
      else if n.wifi.Some? && n.wifi.value.0 in nodes then
        var vlans := RadioVlans(nodes[n.wifi.value.0], n.wifi.value.1);
        if |vlans| == 1 then vlans else {}
      else {}
    }

    function Placed(): map<string, set<nat>> {
      map id | id in nodes && VlansOf(nodes[id]) != {} :: VlansOf(nodes[id])
    }

    function Routers(): map<string, set<nat>> {
      map id | id in nodes && nodes[id].role != OtherRole && L3Vlans(nodes[id]) != {} :: L3Vlans(nodes[id])
    }

    /** Every place an attacker can start or stand, with its VLANs. */
    function Members(): map<Vertex, set<nat>> {
      (map v: Vertex | v in set id | id in Placed() :: Asset(id) :: Placed()[v.id])
      + map v: Vertex | v in set s | s in spare :: SparePorts(s.0, s.1) :: {v.vlan}
    }

    predicate RoutesBetween(rid: string, a: set<nat>, b: set<nat>, exclude: set<Vertex>) {
      && rid in Routers() && Asset(rid) !in exclude
      && Routers()[rid] * a != {} && Routers()[rid] * b != {}
    }

    function RouterBetween(a: set<nat>, b: set<nat>, exclude: set<Vertex>): Option<string> {
      var qualifying := set r | r in Routers() && RoutesBetween(r, a, b, exclude);
      if qualifying == {} then None else Some(Least(qualifying))
    }

    /** A router is found exactly when one qualifies, and it has the lowest id. */
    lemma RouterIsLowestQualifying(a: set<nat>, b: set<nat>, exclude: set<Vertex>)
      ensures var rid := RouterBetween(a, b, exclude);
              && (rid.None? <==> forall r :: !RoutesBetween(r, a, b, exclude))
              && (rid.Some? ==> && RoutesBetween(rid.value, a, b, exclude)
                                && forall r :: RoutesBetween(r, a, b, exclude) ==> AtMost(rid.value, r))
    {
      var qualifying := set r | r in Routers() && RoutesBetween(r, a, b, exclude);
      assert forall r :: RoutesBetween(r, a, b, exclude) <==> r in qualifying;
    }

    function TakeoverOf(id: string, crossRouter: bool): (step: Option<Step>)
      requires id in nodes
    {
      Takeover(nodes[id].findings, nodes[id].candidates, crossRouter)
    }

    /** How v, in the VLANs mv, can be taken over from u, in the VLANs mu. */
    function Link(u: Vertex, mu: set<nat>, v: Vertex, mv: set<nat>): (e: Option<Edge>)
      requires v.Asset? && v.id in nodes
      ensures e.Some? ==> 0.0 < e.value.step.value < 1.0
    {
      if u == v then None
      else if mu * mv != {} then
        var step := TakeoverOf(v.id, false);
        if step.None? then None else Some(Edge(step.value, None))
      else
        var router := RouterBetween(mu, mv, {u, v});
        if router.None? then None
        else
          var step := TakeoverOf(v.id, true);
          if step.None? then None else Some(Edge(step.value, router))
    }

    /** The edge of the reachability graph from u to v, if there is one. */
    function EdgeBetween(u: Vertex, v: Vertex): (e: Option<Edge>)
      ensures e.Some? ==> 0.0 < e.value.step.value < 1.0 && v.Asset?
    {
      if u in Members() && v.Asset? && v.id in Placed() then Link(u, Members()[u], v, Placed()[v.id])
      else None
    }

    ghost predicate IsReachability(g: map<(Vertex, Vertex), Edge>) {
      && (forall u, v :: (u, v) in g <==> EdgeBetween(u, v).Some?)
      && (forall u, v | (u, v) in g :: g[(u, v)] == EdgeBetween(u, v).value)
    }

    /** `reachability_graph`: every member against every placed asset. */
    method ReachabilityGraph() returns (g: map<(Vertex, Vertex), Edge>)
      ensures IsReachability(g)
    {
      g := map[];
      var members := Members();
      var sources := members.Keys;
      while sources != {}
        invariant sources <= members.Keys
        invariant forall u, v :: (u, v) in g <==> u !in sources && EdgeBetween(u, v).Some?
        invariant forall u, v | (u, v) in g :: g[(u, v)] == EdgeBetween(u, v).value
        decreases sources
      {
        var u :| u in sources;
        var out := EdgesFrom(u, members[u], Placed());
        g := g + StartingAt(u, out);
        sources := sources - {u};
      }
    }

    /** The inner loop: the edges out of one member. */
    method EdgesFrom(u: Vertex, mu: set<nat>, placed: map<string, set<nat>>) returns (out: map<Vertex, Edge>)
      requires placed.Keys <= nodes.Keys
      ensures forall v :: v in out <==> v.Asset? && v.id in placed && Link(u, mu, v, placed[v.id]).Some?
      ensures forall v | v in out :: out[v] == Link(u, mu, v, placed[v.id]).value
    {
      out := map[];
      var targets := placed.Keys;
      while targets != {}
        invariant targets <= placed.Keys
        invariant forall v :: v in out <==>
          v.Asset? && v.id in placed && v.id !in targets && Link(u, mu, v, placed[v.id]).Some?
        invariant forall v | v in out :: out[v] == Link(u, mu, v, placed[v.id]).value
        decreases targets
      {
        var id :| id in targets;
        targets := targets - {id};
        var v, mv := Asset(id), placed[id];
        if u == v {
          continue;
        }
        var router: Option<string> := None;
        if mu * mv == {} {
          router := RouterBetween(mu, mv, {u, v});
          if router.None? {
            continue;
          }
        }
        var step := TakeoverOf(id, router.Some?);
        if step.None? {
          continue;
        }
        out := out[v := Edge(step.value, router)];
      }
    }
  }

  /** The likelihoods of the edges. */
  function Values(g: map<(Vertex, Vertex), Edge>): Graph {
    map e | e in g :: g[e].step.value
  }

  ghost predicate ProperEdges(g: map<(Vertex, Vertex), Edge>) {
    forall e | e in g :: 0.0 < g[e].step.value <= 1.0 && e.1.Asset?
  }

  datatype RouteStep =
    | Transit(from: Vertex, through: string, to: Vertex)
    | TakeOver(from: Vertex, to: Vertex, step: Step)

  datatype Route = Route(path: seq<Vertex>, steps: seq<RouteStep>, likelihood: real)

  function HopSteps(a: Vertex, b: Vertex, e: Edge): seq<RouteStep> {
    if e.router.Some?
    then [Transit(a, e.router.value, b), TakeOver(Asset(e.router.value), b, e.step)]
    else [TakeOver(a, b, e.step)]
  }

  function StepsOf(g: map<(Vertex, Vertex), Edge>, path: seq<Vertex>): seq<RouteStep>
    requires forall i | 0 < i < |path| :: (path[i - 1], path[i]) in g
  {
    if |path| <= 1 then []
    else
      var n, front := |path|, path[..|path| - 1];
      assert forall i | 0 < i < n - 1 :: (front[i - 1], front[i]) == (path[i - 1], path[i]);
      StepsOf(g, front) + HopSteps(path[n - 2], path[n - 1], g[(path[n - 2], path[n - 1])])
  }

  lemma ReachabilityIsProper(e: Engine, g: map<(Vertex, Vertex), Edge>)
    requires e.IsReachability(g)
    ensures ProperEdges(g) && Proper(Values(g))
  {
    forall k | k in g ensures 0.0 < g[k].step.value <= 1.0 && k.1.Asset? {
      assert (k.0, k.1) in g && e.EdgeBetween(k.0, k.1).Some?;
    }
  }

  /** `route`: the search, then the steps and the likelihood along the path found. */
  method FindRoute(g: map<(Vertex, Vertex), Edge>, start: Vertex, target: Vertex) returns (r: Option<Route>)
    requires ProperEdges(g)
    ensures r.None? <==> !exists w :: IsWalk(Values(g), w, start, target)
    ensures r.Some? ==> IsBest(Values(g), r.value.path, start, target)
    ensures r.Some? ==> r.value.likelihood == Likelihood(Values(g), r.value.path)
    ensures r.Some? ==> NoRepeats(r.value.path) && forall i | 0 < i < |r.value.path| :: r.value.path[i].Asset?
    ensures r.Some? ==> (forall i | 0 < i < |r.value.path| :: (r.value.path[i - 1], r.value.path[i]) in g)
                        && r.value.steps == StepsOf(g, r.value.path)
  {
    var found := MostLikelyPath(Values(g), start, target);
    if found.None? {
      return None;
    }
    var path := found.value;
    forall i | 0 < i < |path| ensures (path[i - 1], path[i]) in g && path[i].Asset? {
      assert (path[i - 1], path[i]) in Values(g);
    }
    var steps, likelihood := Accumulate(g, path);
    r := Some(Route(path, steps, likelihood));
  }

  /** The loop of `route` over the path's hops. */
  method Accumulate(g: map<(Vertex, Vertex), Edge>, path: seq<Vertex>) returns (steps: seq<RouteStep>, likelihood: real)
    requires |path| > 0 && OnGraph(g, path)
    ensures steps == StepsOf(g, path) && likelihood == Likelihood(Values(g), path)
  {
    steps, likelihood := [], 1.0;
    for i := 1 to |path|
      invariant OnGraph(g, path[..i])
      invariant steps == StepsOf(g, path[..i]) && likelihood == Likelihood(Values(g), path[..i])
    {
      var edge := g[(path[i - 1], path[i])];
      steps := steps + HopSteps(path[i - 1], path[i], edge);
      likelihood := likelihood * edge.step.value;
      assert path[..i + 1][..i] == path[..i];
    }
    assert path[..|path|] == path;
  }

  ghost predicate OnGraph(g: map<(Vertex, Vertex), Edge>, path: seq<Vertex>) {
    forall k | 0 < k < |path| :: (path[k - 1], path[k]) in g
  }

  /** The same map of the same assets, with at least the same CVEs and findings. */
  ghost predicate AddsEvidence(e: Engine, e': Engine) {
    && e'.nodes.Keys == e.nodes.Keys && e'.spare == e.spare
    && forall id | id in e.nodes ::
         var n, n' := e.nodes[id], e'.nodes[id];
         && n'.kind == n.kind && n'.role == n.role && n'.ports == n.ports
         && n'.vlan == n.vlan && n'.wifi == n.wifi
         && (forall c | c in n.candidates :: c in n'.candidates)
         && (forall f | f in n.findings :: f in n'.findings)
  }

  lemma SamePlacement(e: Engine, e': Engine)
    requires AddsEvidence(e, e')
    ensures e'.Placed() == e.Placed() && e'.Members() == e.Members() && e'.Routers() == e.Routers()
  {
    hide Engine.VlansOf, L3Vlans;
    forall id | id in e.nodes
      ensures e'.VlansOf(e'.nodes[id]) == e.VlansOf(e.nodes[id]) && L3Vlans(e'.nodes[id]) == L3Vlans(e.nodes[id])
    {
      SameVlans(e, e', id);
    }
    assert e'.Placed() == e.Placed();
  }

  lemma SameVlans(e: Engine, e': Engine, id: string)
    requires AddsEvidence(e, e') && id in e.nodes
    ensures e'.VlansOf(e'.nodes[id]) == e.VlansOf(e.nodes[id]) && L3Vlans(e'.nodes[id]) == L3Vlans(e.nodes[id])
  {
  }

  lemma SameRouter(e: Engine, e': Engine, a: set<nat>, b: set<nat>, exclude: set<Vertex>)
    requires AddsEvidence(e, e')
    ensures e'.RouterBetween(a, b, exclude) == e.RouterBetween(a, b, exclude)
  {
    SamePlacement(e, e');
    assert (set r | r in e.Routers() && e.RoutesBetween(r, a, b, exclude))
        == (set r | r in e'.Routers() && e'.RoutesBetween(r, a, b, exclude));
  }

  lemma TakeoverStaysAsEasy(e: Engine, e': Engine, id: string, crossRouter: bool)
    requires AddsEvidence(e, e') && id in e.nodes && e.TakeoverOf(id, crossRouter).Some?
    ensures e'.TakeoverOf(id, crossRouter).Some?
    ensures e.TakeoverOf(id, crossRouter).value.value <= e'.TakeoverOf(id, crossRouter).value.value
  {
    var n, n' := e.nodes[id], e'.nodes[id];
    MoreEvidenceIsNeverHarder(n.findings, n.candidates, n'.findings, n'.candidates, crossRouter);
  }

  lemma LinkStaysAsLikely(e: Engine, e': Engine, u: Vertex, mu: set<nat>, v: Vertex, mv: set<nat>)
    requires AddsEvidence(e, e') && v.Asset? && v.id in e.nodes && v.id in e'.nodes && e.Link(u, mu, v, mv).Some?
    ensures e'.Link(u, mu, v, mv).Some?
    ensures e.Link(u, mu, v, mv).value.step.value <= e'.Link(u, mu, v, mv).value.step.value
  {
    hide AddsEvidence, Engine.RouterBetween, Engine.TakeoverOf;
    SameRouter(e, e', mu, mv, {u, v});
    TakeoverStaysAsEasy(e, e', v.id, e.Link(u, mu, v, mv).value.router.Some?);
  }

  lemma EdgeStaysAsLikely(e: Engine, e': Engine, u: Vertex, v: Vertex)
    requires AddsEvidence(e, e') && e.EdgeBetween(u, v).Some?
    ensures e'.EdgeBetween(u, v).Some?
    ensures e.EdgeBetween(u, v).value.step.value <= e'.EdgeBetween(u, v).value.step.value
  {
    hide AddsEvidence, Engine.Link, Engine.Members, Engine.Placed, Engine.Routers;
    SamePlacement(e, e');
    PlacedIsANode(e, v.id);
    PlacedIsANode(e', v.id);
    LinkStaysAsLikely(e, e', u, e.Members()[u], v, e.Placed()[v.id]);
  }

  lemma PlacedIsANode(e: Engine, id: string)
    ensures id in e.Placed() ==> id in e.nodes
  {
  }

  /** Adding CVE candidates or findings to any asset never closes a route and
      never lowers the best likelihood of any pair. */
  lemma MoreEvidenceNeverLowersARoute(e: Engine, e': Engine, g: map<(Vertex, Vertex), Edge>,
                                      g': map<(Vertex, Vertex), Edge>, a: Vertex, b: Vertex)
    requires AddsEvidence(e, e') && e.IsReachability(g) && e'.IsReachability(g')
    ensures (exists w :: IsWalk(Values(g), w, a, b)) ==> exists w :: IsWalk(Values(g'), w, a, b)
    ensures forall w, w' | IsBest(Values(g), w, a, b) && IsBest(Values(g'), w', a, b) ::
              Likelihood(Values(g), w) <= Likelihood(Values(g'), w')
  {
    ReachabilityIsProper(e, g);
    ReachabilityIsProper(e', g');
    forall k | k in g ensures k in g' && g[k].step.value <= g'[k].step.value {
      assert (k.0, k.1) in g;
      EdgeStaysAsLikely(e, e', k.0, k.1);
      assert (k.0, k.1) in g';
    }
    assert Raised(Values(g), Values(g'));
    forall w | IsWalk(Values(g), w, a, b)
      ensures IsWalk(Values(g'), w, a, b) && Likelihood(Values(g), w) <= Likelihood(Values(g'), w)
    {
      RaisedWalk(Values(g), Values(g'), w, a, b);
    }
  }
}
