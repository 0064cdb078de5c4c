/** The finished graph: its nodes, edges, order and parents (`build` and `_document`). */
module GraphDocument {
  import opened Assembler
  import opened AssemblyEvidence
  import opened AssemblyHosts
  import opened AssemblyLate
  import opened AssemblyPlacement
  import opened AssemblyResult
  import opened AssemblySteps
  import opened DiscoveryOrder
  import opened MacTables
  import opened Sequences
  import opened Wrappers
  import W = AssemblyWifi
  import D = DeviceOrder

  datatype Document = Document(nodes: seq<string>, edges: seq<(string, string)>,
                               number: map<string, nat>, parent: map<string, Option<string>>)

  function DeviceIds(devices: seq<string>): (ids: seq<string>)
    ensures |ids| == |devices| && forall i | 0 <= i < |ids| :: ids[i] == DeviceNodeId(devices[i])
  {
    seq(|devices|, i requires 0 <= i < |devices| => DeviceNodeId(devices[i]))
  }

  lemma DeviceIdsHold(devices: seq<string>, c: string)
    ensures DeviceNodeId(c) in DeviceIds(devices) <==> c in devices
  {
    if c in devices {
      var i :| 0 <= i < |devices| && devices[i] == c;
      assert DeviceIds(devices)[i] == DeviceNodeId(c);
    } else if DeviceNodeId(c) in DeviceIds(devices) {
      var i :| 0 <= i < |devices| && DeviceNodeId(devices[i]) == DeviceNodeId(c);
      DeviceIdsDiffer(devices[i], c);
      assert false;
    }
  }

  function LinkIds(links: seq<(string, string)>): (ids: seq<(string, string)>)
    ensures |ids| == |links|
    ensures forall i | 0 <= i < |ids| :: ids[i] == (DeviceNodeId(links[i].0), DeviceNodeId(links[i].1))
  {
    seq(|links|, i requires 0 <= i < |links| => (DeviceNodeId(links[i].0), DeviceNodeId(links[i].1)))
  }

  function ParentId(p: Placement): Option<string> {
    if p.parent.Some? then Some(DeviceNodeId(p.parent.value)) else None
  }

  function ParentIds(placed: Placed): (ids: Placements)
    requires placed.Valid()
    ensures |ids| == |placed.order|
    ensures forall i | 0 <= i < |ids| :: ids[i] == (placed.order[i], ParentId(placed.at[placed.order[i]]))
  {
    seq(|placed.order|, i requires 0 <= i < |placed.order| =>
      assert placed.order[i] in placed.order; (placed.order[i], ParentId(placed.at[placed.order[i]])))
  }

  lemma ParentIdsHold(placed: Placed)
    requires placed.Valid()
    ensures Hosts(ParentIds(placed)) == placed.order && NoRepeats(placed.order)
    ensures forall id | id in placed.at :: (id, ParentId(placed.at[id])) in ParentIds(placed)
    ensures forall id, p | (id, p) in ParentIds(placed) :: id in placed.at && p == ParentId(placed.at[id])
  {
    hide ParentId;
    forall id | id in placed.at ensures (id, ParentId(placed.at[id])) in ParentIds(placed) {
      assert id in placed.order;
      var i :| 0 <= i < |placed.order| && placed.order[i] == id;
      assert ParentIds(placed)[i] == (id, ParentId(placed.at[id]));
    }
    forall id, p | (id, p) in ParentIds(placed) ensures id in placed.at && p == ParentId(placed.at[id]) {
      var i :| 0 <= i < |placed.order| && ParentIds(placed)[i] == (id, p);
      assert placed.order[i] in placed.order;
    }
  }

  /** The endpoint links: one for each placed node that has a parent, in placement order. */
  function PlacedEdges(order: seq<string>, at: map<string, Placement>): (edges: seq<(string, string)>)
    requires forall id | id in order :: id in at
    ensures forall e :: e in edges <==> e.0 in order && ParentId(at[e.0]) == Some(e.1)
  {
    if order == [] then []
    else
      var front, id := order[..|order| - 1], order[|order| - 1];
      assert order == front + [id];
      PlacedEdges(front, at) + if ParentId(at[id]).Some? then [(id, ParentId(at[id]).value)] else []
  }

  method EndpointEdges(placed: Placed) returns (edges: seq<(string, string)>)
    requires placed.Valid()
    ensures edges == PlacedEdges(placed.order, placed.at)
  {
    hide ParentId;
    edges := [];
    for i := 0 to |placed.order|
      invariant edges == PlacedEdges(placed.order[..i], placed.at)
    {
      var id := placed.order[i];
      assert placed.order[..i + 1][..i] == placed.order[..i] && id in placed.order;
      var p := ParentId(placed.at[id]);
      if p.Some? {
        edges := edges + [(id, p.value)];
      }
    }
    assert placed.order[..|placed.order|] == placed.order;
  }

  /** `nodes_by_id`: the devices, the endpoints and the hosts, each id once. */
  method NodesById(ids: seq<string>) returns (nodes: seq<string>)
    ensures NoRepeats(nodes) && forall id :: id in nodes <==> id in ids
  {
    nodes := [];
    for i := 0 to |ids|
      invariant NoRepeats(nodes) && forall id :: id in nodes <==> id in ids[..i]
    {
      assert ids[..i + 1] == ids[..i] + [ids[i]];
      nodes := if ids[i] in nodes then nodes else nodes + [ids[i]];
    }
    assert ids[..|ids|] == ids;
  }

  function HostIds(hosts: seq<Host>): (ids: seq<string>)
    ensures |ids| == |hosts| && forall i | 0 <= i < |ids| :: ids[i] == hosts[i].id
  {
    seq(|hosts|, i requires 0 <= i < |hosts| => hosts[i].id)
  }

  lemma HostIdsHold(hosts: seq<Host>, id: string)
    ensures id in HostIds(hosts) <==> IsHost(hosts, id)
  {
    if h :| h in hosts && h.id == id {
      var i :| 0 <= i < |hosts| && hosts[i] == h;
      assert HostIds(hosts)[i] == id;
    }
  }

  /** The placed nodes are exactly the endpoints and the hosts, and none is a device. */
  lemma PlacedOnes(endpoints: seq<Endpoint>, hosts: seq<Host>, placed: Placed, c: string)
    requires PlacedAreNodes(Ids(endpoints), hosts, placed.at) && HostsArePlaced(hosts, placed.at)
    requires forall id | id in Ids(endpoints) :: id in placed.at
    ensures forall id :: id in placed.at <==> id in Ids(endpoints) || id in HostIds(hosts)
    ensures DeviceNodeId(c) !in placed.at
  {
    hide DeviceNodeId, EndpointNodeId, HostNodeId, IsHost;
    forall id ensures id in placed.at <==> id in Ids(endpoints) || id in HostIds(hosts) {
      HostIdsHold(hosts, id);
      if h :| IsHost(hosts, id) && h in hosts && h.id == id {
      }
      if id in HostIds(hosts) {
        var i :| 0 <= i < |hosts| && HostIds(hosts)[i] == id;
        assert hosts[i] in hosts;
      }
    }
    if DeviceNodeId(c) in Ids(endpoints) {
      var i :| 0 <= i < |endpoints| && Ids(endpoints)[i] == DeviceNodeId(c);
      KindsDiffer(c, endpoints[i].agent, "");
    } else if DeviceNodeId(c) in HostIds(hosts) {
      var i :| 0 <= i < |hosts| && hosts[i].id == DeviceNodeId(c);
      assert hosts[i] in hosts;
      var key :| hosts[i].id == HostNodeId(key);
      KindsDiffer(c, "", key);
    }
  }

  lemma DeviceIdsAreDistinct(devices: seq<string>)
    requires NoRepeats(devices)
    ensures NoRepeats(DeviceIds(devices))
  {
    hide DeviceNodeId;
    forall i, j | 0 <= i < j < |devices| ensures DeviceIds(devices)[i] != DeviceIds(devices)[j] {
      DeviceIdsDiffer(devices[i], devices[j]);
    }
  }

  /** What the assembly leaves fits the numbering's premises. */
  lemma FitsNumbering(devices: seq<string>, endpoints: seq<Endpoint>, hosts: seq<Host>, placed: Placed,
                      nodes: seq<string>)
    requires NoRepeats(devices) && placed.Valid() && PlacedAreNodes(Ids(endpoints), hosts, placed.at)
    requires HostsArePlaced(hosts, placed.at)
    requires forall id | id in Ids(endpoints) :: id in placed.at
    requires NoRepeats(nodes)
    requires forall id :: id in nodes <==> id in DeviceIds(devices) + Ids(endpoints) + HostIds(hosts)
    ensures DiscoveryOrder.Consistent(DeviceIds(devices), ParentIds(placed), nodes)
    ensures forall x | x in nodes :: x in DeviceIds(devices) || x in Hosts(ParentIds(placed))
    ensures forall h, d | (h, Some(d)) in ParentIds(placed) && d in nodes :: d in DeviceIds(devices)
    ensures forall id :: id in placed.at ==> id in nodes
  {
    hide DeviceNodeId, Ids, PlacedAreNodes, HostsArePlaced, NoRepeats;
    PlacedOnes(endpoints, hosts, placed, "");
    ParentIdsHold(placed);
    DeviceIdsAreDistinct(devices);
    forall d | d in DeviceIds(devices) ensures d !in Hosts(ParentIds(placed)) {
      var i :| 0 <= i < |devices| && DeviceIds(devices)[i] == d;
      PlacedOnes(endpoints, hosts, placed, devices[i]);
    }
    forall h, d | (h, Some(d)) in ParentIds(placed) && d in nodes ensures d in DeviceIds(devices) {
      PlacedOnes(endpoints, hosts, placed, placed.at[h].parent.value);
    }
  }

  /** Every edge end and every parent is a node of the graph. */
  ghost predicate NamesItsNodes(doc: Document) {
    && (forall e | e in doc.edges :: e.0 in doc.nodes && e.1 in doc.nodes)
    && forall x | x in doc.parent && doc.parent[x].Some? :: doc.parent[x].value in doc.nodes
  }

  /** Every node has a parent or none, and a parent that is in the graph comes first. */
  ghost predicate ParentsComeBefore(doc: Document) {
    && (forall x :: x in doc.parent <==> x in doc.number)
    && forall x | x in doc.parent && doc.parent[x].Some? && doc.parent[x].value in doc.number ::
         doc.number[doc.parent[x].value] < doc.number[x]
  }

  /** Chassis ids are distinct, only polled devices carry forwarding tables, and a
      polled device is at one end of every link. */
  ghost predicate FromPolled(rawNodes: seq<RawNode>, edges: seq<RawEdge>) {
    && (forall m, n | m in rawNodes && n in rawNodes && m.chassis == n.chassis :: m == n)
    && (forall n | n in rawNodes && !n.polled :: n.fdb == [])
    && forall e | e in edges ::
         exists n :: n in rawNodes && n.polled && (n.chassis == e.source || n.chassis == e.target)
  }

  lemma FromPolledIsTrusted(rawNodes: seq<RawNode>, raw: map<string, RawNode>, edges: seq<RawEdge>, t: MacTable)
    requires FromPolled(rawNodes, edges) && IsTable(rawNodes, t)
    requires (forall c | c in raw :: raw[c] in rawNodes && raw[c].chassis == c)
    requires forall n | n in rawNodes :: n.chassis in raw
    ensures PolledSources(raw, edges, t)
  {
    hide IsTable;
    forall m | m in t.byMac ensures Polled(raw, t.byMac[m].chassis) {
      RowsNamePolledSwitches(rawNodes, t, m);
      var n :| n in rawNodes && n.polled && t.byMac[m].chassis == n.chassis;
      assert raw[n.chassis] == n;
    }
    forall e | e in edges ensures Polled(raw, e.source) || Polled(raw, e.target) {
      var n :| n in rawNodes && n.polled && (n.chassis == e.source || n.chassis == e.target);
      assert raw[n.chassis] == n;
    }
  }

  /** The document has exactly the devices, the endpoints and the hosts, the devices'
      links and one link for each node that is placed, numbered as a breadth-first search
      over the links meets the devices, and each node's parent is the one it was given. */
  ghost predicate Writes(doc: Document, devices: seq<string>, links: seq<(string, string)>, endpoints: seq<Endpoint>,
                         hosts: seq<Host>, placed: Placed, order: seq<string>, forest: D.Forest)
    requires placed.Valid()
  {
    && NoRepeats(doc.nodes)
    && (forall id :: id in doc.nodes <==> id in DeviceIds(devices) + Ids(endpoints) + HostIds(hosts))
    && doc.edges == LinkIds(links) + PlacedEdges(placed.order, placed.at)
    && D.IsBfs(DeviceIds(devices), LinkIds(links), order, forest)
    && NumbersInOrder(doc.number, Listing(order, ParentIds(placed), doc.nodes))
    && (forall x :: x in doc.parent <==> x in doc.nodes)
    && (forall id | id in placed.at :: id in doc.parent && doc.parent[id] == ParentId(placed.at[id]))
    && forall d | d in DeviceIds(devices) :: d in forest.parent && d in doc.parent && doc.parent[d] == forest.parent[d]
  }

  /** `_document`. */
  method WriteDocument(raw: map<string, RawNode>, devices: seq<string>, links: seq<(string, string)>,
                       endpoints: seq<Endpoint>, hosts: seq<Host>, placed: Placed)
    returns (doc: Document, ghost order: seq<string>, ghost forest: D.Forest)
    requires NoRepeats(devices) && placed.Valid() && PlacedAreNodes(Ids(endpoints), hosts, placed.at)
    requires HostsArePlaced(hosts, placed.at)
    requires (forall id | id in Ids(endpoints) :: id in placed.at) && LinksAreKept(devices, links)
    ensures Writes(doc, devices, links, endpoints, hosts, placed, order, forest)
    ensures IsNumbering(doc.number, doc.nodes) && ParentsComeBefore(doc)
    ensures IsWhole(raw, devices, placed.at) ==> NamesItsNodes(doc)
  {
    hide DeviceNodeId, Ids, PlacedAreNodes, HostsArePlaced, NoRepeats, D.Linked, IsWhole, DiscoveryOrder.Consistent,
      D.IsBfs, NumbersInOrder, Hosts, IsNumbering, ParentId, LinksAreKept, Placed.Valid, DeviceIds, LinkIds, Listing,
      PlacedEdges, NamesItsNodes, Writes, ParentsComeBefore;
    var nodes := NodesById(DeviceIds(devices) + Ids(endpoints) + HostIds(hosts));
    FitsNumbering(devices, endpoints, hosts, placed, nodes);
    var number, parent;
    number, parent, order, forest := StampDiscoveryOrder(DeviceIds(devices), LinkIds(links), ParentIds(placed), nodes);
    var hostEdges := EndpointEdges(placed);
    doc := Document(nodes, LinkIds(links) + hostEdges, number, parent);
    DocumentIs(doc, devices, links, endpoints, hosts, placed, order, forest);
    if IsWhole(raw, devices, placed.at) {
      DocumentIsClosed(raw, devices, links, placed, doc);
    }
  }

  lemma DocumentIs(doc: Document, devices: seq<string>, links: seq<(string, string)>, endpoints: seq<Endpoint>,
                   hosts: seq<Host>, placed: Placed, order: seq<string>, forest: D.Forest)
    requires placed.Valid() && NoRepeats(doc.nodes)
    requires forall id :: id in doc.nodes <==> id in DeviceIds(devices) + Ids(endpoints) + HostIds(hosts)
    requires doc.edges == LinkIds(links) + PlacedEdges(placed.order, placed.at)
    requires D.IsBfs(DeviceIds(devices), LinkIds(links), order, forest)
    requires NumbersInOrder(doc.number, Listing(order, ParentIds(placed), doc.nodes))
    requires IsNumbering(doc.number, doc.nodes) && forall x :: x in doc.parent <==> x in doc.nodes
    requires forall h, d | (h, d) in ParentIds(placed) :: h in doc.parent && doc.parent[h] == d
    requires forall d | d in DeviceIds(devices) :: d in forest.parent && doc.parent[d] == forest.parent[d]
    requires forall x, p | x in doc.parent && doc.parent[x] == Some(p) && p in doc.number ::
               doc.number[p] < doc.number[x]
    ensures Writes(doc, devices, links, endpoints, hosts, placed, order, forest) && ParentsComeBefore(doc)
  {
    hide DeviceIds, Ids, HostIds, LinkIds, PlacedEdges, D.IsBfs, NumbersInOrder, Listing, ParentIds, NoRepeats,
      Placed.Valid, ParentId, IsNumbering;
    PlacedParents(placed, doc.parent);
    NumbersItsNodes(doc.number, doc.nodes);
  }

  lemma DocumentIsClosed(raw: map<string, RawNode>, devices: seq<string>, links: seq<(string, string)>,
                         placed: Placed, doc: Document)
    requires placed.Valid() && LinksAreKept(devices, links) && IsWhole(raw, devices, placed.at)
    requires (forall id | id in DeviceIds(devices) :: id in doc.nodes) && forall id | id in placed.at :: id in doc.nodes
    requires forall x | x in doc.nodes :: x in DeviceIds(devices) || x in Hosts(ParentIds(placed))
    requires doc.edges == LinkIds(links) + PlacedEdges(placed.order, placed.at)
    requires forall x :: x in doc.parent <==> x in doc.nodes
    requires forall h, d | (h, d) in ParentIds(placed) :: h in doc.parent && doc.parent[h] == d
    requires forall d | d in DeviceIds(devices) && doc.parent[d].Some? :: doc.parent[d].value in DeviceIds(devices)
    ensures NamesItsNodes(doc)
  {
    hide DeviceIds, LinkIds, PlacedEdges, IsWhole, LinksAreKept, Hosts, ParentId, DeviceNodeId, Placed.Valid;
    LinksName(devices, links, doc.nodes);
    ParentsName(raw, devices, placed, doc.nodes, doc.parent);
    EdgesName(placed, doc.nodes, doc.parent);
  }

  lemma PlacedParents(placed: Placed, parent: map<string, Option<string>>)
    requires placed.Valid() && forall h, d | (h, d) in ParentIds(placed) :: h in parent && parent[h] == d
    ensures forall id | id in placed.at :: id in parent && parent[id] == ParentId(placed.at[id])
  {
    hide ParentId, Hosts;
    ParentIdsHold(placed);
    forall id | id in placed.at ensures id in parent && parent[id] == ParentId(placed.at[id]) {
      assert (id, ParentId(placed.at[id])) in ParentIds(placed);
    }
  }

  lemma EdgesName(placed: Placed, nodes: seq<string>, parent: map<string, Option<string>>)
    requires placed.Valid() && forall id | id in placed.at :: id in nodes
    requires forall id | id in placed.at && ParentId(placed.at[id]).Some? :: ParentId(placed.at[id]).value in nodes
    ensures forall e | e in PlacedEdges(placed.order, placed.at) :: e.0 in nodes && e.1 in nodes
  {
    hide ParentId;
  }

  lemma NumbersItsNodes(number: map<string, nat>, nodes: seq<string>)
    requires IsNumbering(number, nodes)
    ensures forall x :: x in number <==> x in nodes
  {
  }

  lemma LinksName(devices: seq<string>, links: seq<(string, string)>, nodes: seq<string>)
    requires LinksAreKept(devices, links) && forall id | id in DeviceIds(devices) :: id in nodes
    ensures forall e | e in LinkIds(links) :: e.0 in nodes && e.1 in nodes
  {
    hide DeviceNodeId;
    forall e | e in LinkIds(links) ensures e.0 in nodes && e.1 in nodes {
      var i :| 0 <= i < |links| && LinkIds(links)[i] == e;
      assert links[i] in links;
      DeviceIdsHold(devices, links[i].0);
      DeviceIdsHold(devices, links[i].1);
    }
  }

  lemma ParentsName(raw: map<string, RawNode>, devices: seq<string>, placed: Placed, nodes: seq<string>,
                    parent: map<string, Option<string>>)
    requires IsWhole(raw, devices, placed.at) && placed.Valid() && forall id | id in DeviceIds(devices) :: id in nodes
    requires forall x | x in nodes :: x in DeviceIds(devices) || x in Hosts(ParentIds(placed))
    requires forall x :: x in parent <==> x in nodes
    requires forall h, d | (h, d) in ParentIds(placed) :: h in parent && parent[h] == d
    requires forall d | d in DeviceIds(devices) && parent[d].Some? :: parent[d].value in DeviceIds(devices)
    ensures forall id | id in placed.at && ParentId(placed.at[id]).Some? :: ParentId(placed.at[id]).value in nodes
    ensures forall x | x in parent && parent[x].Some? :: parent[x].value in nodes
  {
    hide DeviceNodeId;
    ParentIdsHold(placed);
    forall id | id in placed.at && ParentId(placed.at[id]).Some? ensures ParentId(placed.at[id]).value in nodes {
      DeviceIdsHold(devices, placed.at[id].parent.value);
    }
    forall x | x in parent && parent[x].Some? ensures parent[x].value in nodes {
      if x !in DeviceIds(devices) {
        assert (x, ParentId(placed.at[x])) in ParentIds(placed);
      }
    }
  }

  /** The steps of `build` that place the endpoints. */
  method PlaceAgents(g: GraphAssembler) returns (ghost early: set<string>, ghost late: set<string>)
    requires g.Valid() && g.parentOf == Placed([], map[]) && g.phantoms == {} && KeepsPolled(g.raw, g.devices)
    requires g.reasons == map[]
    modifies g
    ensures g.Valid() && g.Sound() && g.EndpointsArePlaced() && g.hosts == old(g.hosts)
    ensures early == Phantoms(g.raw, old(g.endpoints), g.rawEdges, old(g.devices)) && g.phantoms == early + late
    ensures g.PlacedRight(EnrichedAll(old(g.endpoints), g.table), Without(old(g.devices), early))
    ensures Ids(g.endpoints) == old(Ids(g.endpoints))
    ensures forall c | c in late :: IsPhantom(g.raw, g.endpoints, g.rawEdges, Without(old(g.devices), early), c)
    ensures forall ep | ep in EnrichedAll(old(g.endpoints), g.table) ::
              IsNotMissed(g.raw, ep, g.rawEdges, g.table, Without(old(g.devices), early), late)
    ensures forall c | c in late :: IsOwnOrNew(g.raw, g.table, old(g.endpoints), c)
    ensures g.devices == Without(Without(old(g.devices), early), late) && g.links == LinksBetween(g.rawEdges, g.devices)
  {
    hide IsTable, IsWhole, Ids, ReasonsExplain, NoRepeats, Placed.Valid, IsTrusted, PlacedUpTo, MergedInto,
      IsPhantom, IsNotMissed, KeepsPolled, AgentIsPlaced, AllPlacedRight, MachinesSit, KeepsMacs, SitsWhereAnnounced,
      Without, EnrichedAll, LinksWithout;
    ghost var order, agents := g.devices, g.endpoints;
    g.MergeLldpPhantoms();
    early := g.phantoms;
    PhantomsAre(g.raw, g.endpoints, g.rawEdges, order, early);
    MergedHaveParents(g.raw, g.endpoints, g.rawEdges, order, g.phantoms, g.parentOf.at);
    g.LinkDevices();
    g.PlaceFromTables();
    LinksLeft(g.rawEdges, g.devices);
    late := g.MergeLatePhantoms();
    forall c | c in late ensures IsOwnOrNew(g.raw, g.table, agents, c) {
      EnrichedAreNew(g.rawNodes, g.raw, g.table, agents, c);
    }
  }

  lemma PhantomsAre(raw: map<string, RawNode>, endpoints: seq<Endpoint>, edges: seq<RawEdge>, devices: seq<string>,
                    merged: set<string>)
    requires forall c :: c in merged <==> IsPhantom(raw, endpoints, edges, devices, c)
    ensures merged == Phantoms(raw, endpoints, edges, devices)
  {
  }

  lemma LinksLeft(edges: seq<RawEdge>, devices: seq<string>)
    ensures forall gone ::
              LinksWithout(LinksBetween(edges, devices), gone) == LinksBetween(edges, Without(devices, gone))
  {
    forall gone
      ensures LinksWithout(LinksBetween(edges, devices), gone) == LinksBetween(edges, Without(devices, gone))
    {
      LinksLeftAreBetween(edges, devices, gone);
    }
  }

  /** Those that add the hosts. */
  method AddHosts(g: GraphAssembler, ghost order: seq<string>, ghost known: seq<Endpoint>, ghost before: seq<string>)
    returns (ghost a: Assembly)
    requires g.Valid() && g.Sound() && g.EndpointsArePlaced() && g.hosts == [] && g.PlacedRight(known, before)
    requires (forall c | c in g.raw :: g.raw[c] in g.rawNodes) && W.ReadAsMac(g.rawNodes)
    requires (forall c | c in order :: c in g.raw) && forall c :: c in g.devices <==> c in order && c !in g.phantoms
    requires g.links == LinksBetween(g.rawEdges, g.devices)
    modifies g
    ensures g.Valid() && g.NodesArePlaced() && g.Sound() && W.NamedByMac(g.rawNodes, g.hosts)
    ensures g.phantoms == old(g.phantoms) && g.endpoints == old(g.endpoints)
    ensures a == Assembly(g.devices, g.links, g.endpoints, g.hosts, g.parentOf, g.phantoms)
    ensures StandsRight(g.rawNodes, g.rawEdges, order, g.raw, g.table, before, known, a)
  {
    hide IsTable, IsWhole, Ids, ReasonsExplain, NoRepeats, Placed.Valid, W.NamedByMac, W.ReadAsMac, IsTrusted,
      AllPlacedRight, MachinesSit, KeepsMacs, PlacedAreNodes, HostsArePlaced, TableHostsAdded, IsEndHost, IsKnown,
      EndpointNodeId, LinksWithout, StandsRight, LinksBetween, HostsAreThose, HostsSitRight, IsNeighbour, EndHostId,
      AnnouncedAt, HostOf, Without;
    ghost var was := g.devices;
    LinksLeft(g.rawEdges, was);
    g.AddLldpEndHosts(known, before);
    EndHostsAreNeighbours(g.raw, order, g.phantoms, was, g.hosts);
    HostsAreAnnounced(g.raw, g.rawEdges, order, g.phantoms, g.devices, EndHosts(g.raw, was), Ids(g.endpoints),
                      g.parentOf.at);
    NotEndHosts(g.raw, order, g.phantoms, was, g.devices);
    ghost var hosts0, at0 := g.hosts, g.parentOf.at;
    ghost var macs := g.AddTableHosts();
    a := Assembly(g.devices, g.links, g.endpoints, g.hosts, g.parentOf, g.phantoms);
    AfterTables(g.rawNodes, g.rawEdges, order, g.raw, g.table, before, known, macs, at0, hosts0, a);
  }

  /** And the one that places the clients. */
  method PlaceHosts(g: GraphAssembler, ghost order: seq<string>, ghost known: seq<Endpoint>, ghost before: seq<string>)
    returns (ghost a: Assembly)
    requires g.Valid() && g.Sound() && g.EndpointsArePlaced() && g.hosts == [] && g.PlacedRight(known, before)
    requires (forall c | c in g.raw :: g.raw[c] in g.rawNodes) && W.ReadAsMac(g.rawNodes)
    requires (forall c | c in order :: c in g.raw) && forall c :: c in g.devices <==> c in order && c !in g.phantoms
    requires g.links == LinksBetween(g.rawEdges, g.devices)
    modifies g
    ensures g.Valid() && g.NodesArePlaced() && g.Sound() && g.phantoms == old(g.phantoms)
    ensures Ids(g.endpoints) == old(Ids(g.endpoints)) && KeepsMacs(old(g.endpoints), g.endpoints)
    ensures a == Assembly(g.devices, g.links, g.endpoints, g.hosts, g.parentOf, g.phantoms)
    ensures LeavesRight(g.rawNodes, g.rawEdges, order, g.raw, g.table, before, known, a)
  {
    hide IsTable, IsWhole, Ids, ReasonsExplain, NoRepeats, Placed.Valid, W.NamedByMac, W.ReadAsMac, IsTrusted,
      AllPlacedRight, MachinesSit, KeepsMacs, PlacedAreNodes, HostsArePlaced, W.MovedOnlyUnderAps, W.AddsClients,
      LinksBetween, W.IsSettledAt, W.LastListing, W.NodeOf, StandsRight, LeavesRight;
    ghost var a0 := AddHosts(g, order, known, before);
    g.PlaceClients();
    a := Assembly(g.devices, g.links, g.endpoints, g.hosts, g.parentOf, g.phantoms);
    AfterClients(g.rawNodes, g.rawEdges, order, g.raw, g.table, before, known, a0, a);
  }

  lemma HostsAreAnnounced(raw: map<string, RawNode>, edges: seq<RawEdge>, order: seq<string>, merged: set<string>,
                          devices: seq<string>, ends: seq<string>, ids: seq<string>, at: map<string, Placement>)
    requires (forall c | c in ends :: c in raw) && forall c :: c in ends <==> IsNeighbour(raw, order, merged, c)
    requires forall id | id in at && id !in ids ::
               exists c :: c in ends && EndHostId(raw, c) == id && at[id] == AnnouncedAt(edges, devices, [], c)
    ensures forall id | id in at && id !in ids :: IsAnnounced(raw, edges, order, merged, devices, id, at[id])
  {
    hide EndHostId, AnnouncedAt, IsNeighbour;
  }

  lemma NotEndHosts(raw: map<string, RawNode>, order: seq<string>, merged: set<string>, devices: seq<string>,
                    left: seq<string>)
    requires (forall c | c in order :: c in raw) && forall c :: c in devices <==> c in order && c !in merged
    requires left == Without(devices, Members(EndHosts(raw, devices)))
    ensures forall c :: c in left <==> c in order && c !in merged && !IsEndHost(raw[c])
  {
    hide IsEndHost;
  }

  lemma AfterTables(nodes: seq<RawNode>, edges: seq<RawEdge>, order: seq<string>, raw: map<string, RawNode>,
                    t: MacTable, before: seq<string>, known: seq<Endpoint>, macs: set<Mac>,
                    at0: map<string, Placement>, hosts0: seq<Host>, a: Assembly)
    requires (forall c | c in order :: c in raw) && IsTable(nodes, t)
    requires TableHostsAdded(macs, t, at0, hosts0, a.placed.at, a.hosts)
    requires (forall c :: c in a.devices <==> c in order && c !in a.merged && !IsEndHost(raw[c]))
    requires a.links == LinksBetween(edges, a.devices)
    requires forall m :: m in macs <==> IsKnown(raw, a.devices, a.endpoints, hosts0, t, m)
    requires forall c | IsNeighbour(raw, order, a.merged, c) :: HostOf(raw, c) in hosts0
    requires forall h | h in hosts0 :: exists c :: IsNeighbour(raw, order, a.merged, c) && h == HostOf(raw, c)
    requires forall id | id in at0 && id !in Ids(a.endpoints) ::
               IsAnnounced(raw, edges, order, a.merged, a.devices, id, at0[id])
    requires AllPlacedRight(raw, edges, t, before, a.devices, a.merged, known, a.endpoints, at0)
    requires MachinesSit(raw, edges, a.devices, a.merged, known, a.endpoints, at0)
    requires forall id | id in Ids(a.endpoints) && id in at0 :: id in a.placed.at && a.placed.at[id] == at0[id]
    ensures StandsRight(nodes, edges, order, raw, t, before, known, a)
  {
    hide IsKnown, HostsAreThose, HostsSitRight, AllPlacedRight, MachinesSit, TableHostsUpTo, Ids, IsNeighbour, HostOf,
      IsAnnounced, LinksBetween, IsEndHost;
    assert forall m :: m in t.macs <==> m in t.byMac by { hide IsFact, IsInfra, NoRepeats; }
    TableHostsSitRight(nodes, raw, edges, t, order, a.devices, a.merged, a.endpoints, macs, at0, hosts0, a.placed.at,
                       a.hosts);
    TableHostsAreThose(nodes, raw, t, order, a.devices, a.merged, a.endpoints, macs, at0, hosts0, a.placed.at, a.hosts);
    RightUntouched(raw, edges, t, before, a.devices, a.merged, known, a.endpoints, at0, a.placed.at);
    MachinesUntouched(raw, edges, a.devices, a.merged, known, a.endpoints, at0, a.placed.at);
  }

  lemma AfterClients(nodes: seq<RawNode>, edges: seq<RawEdge>, order: seq<string>, raw: map<string, RawNode>,
                     t: MacTable, before: seq<string>, known: seq<Endpoint>, a0: Assembly, a: Assembly)
    requires (forall c | c in order :: c in raw) && StandsRight(nodes, edges, order, raw, t, before, known, a0)
    requires a.devices == a0.devices && a.links == a0.links && a.merged == a0.merged
    requires Ids(a.endpoints) == Ids(a0.endpoints) && KeepsMacs(a0.endpoints, a.endpoints)
    requires W.MovedOnlyUnderAps(nodes, a.devices, a.endpoints, a.hosts, a0.placed.at, a.placed.at)
    requires W.AddsClients(nodes, a0.hosts, a.hosts)
    requires forall m | m !in t.infra && W.LastListing(nodes, a.devices, m).Some? ::
               W.IsSettledAt(a.endpoints, a.hosts, a.placed.at, W.NodeOf(a0.endpoints, a0.hosts, m), m,
                             W.LastListing(nodes, a.devices, m).value)
    ensures LeavesRight(nodes, edges, order, raw, t, before, known, a)
  {
    hide W.MovedOnlyUnderAps, W.AddsClients, HostsAreThose, HostsSitRight, EndpointsSitRight, AllPlacedRight,
      MachinesSit, MachinesEndRight, KeepsMacs, Ids, W.NodeHas, LinksBetween, IsEndHost, ClientsSettle;
    NodesKeepMacs(nodes, a0.endpoints, a0.hosts, a.endpoints, a.hosts);
    AllClientsSettle(nodes, t, a0, a);
    WifiHostsAreThose(nodes, raw, t, order, a.devices, a.merged, a0.endpoints, a0.hosts, a.endpoints, a.hosts);
    WifiHostsSitRight(nodes, raw, edges, t, order, a.devices, a.merged, a0.endpoints, a0.hosts, a0.placed.at,
                      a.endpoints, a.hosts, a.placed.at);
    WifiPlacesRight(nodes, raw, edges, t, before, a.devices, a.merged, known, a0.endpoints, a.endpoints, a.hosts,
                    a0.placed.at, a.placed.at);
    WifiLetsMachinesSit(nodes, raw, edges, a.devices, a.merged, known, a0.endpoints, a.endpoints, a.hosts,
                        a0.placed.at, a.placed.at);
  }

  lemma AllClientsSettle(nodes: seq<RawNode>, t: MacTable, a0: Assembly, a: Assembly)
    requires forall m | m !in t.infra && W.LastListing(nodes, a.devices, m).Some? ::
               W.IsSettledAt(a.endpoints, a.hosts, a.placed.at, W.NodeOf(a0.endpoints, a0.hosts, m), m,
                             W.LastListing(nodes, a.devices, m).value)
    ensures ClientsSettle(nodes, t, a)
  {
    hide W.LastListing, W.NodeOf, W.NodeHas;
    forall m | m !in t.infra && W.LastListing(nodes, a.devices, m).Some?
      ensures W.IsSettledAt(a.endpoints, a.hosts, a.placed.at, None, m, W.LastListing(nodes, a.devices, m).value)
    {
      var known, p := W.NodeOf(a0.endpoints, a0.hosts, m), W.LastListing(nodes, a.devices, m).value;
      var id :| W.SettlesAt(a.endpoints, a.hosts, a.placed.at, known, m, p, id);
      assert W.SettlesAt(a.endpoints, a.hosts, a.placed.at, None, m, p, id);
    }
  }

  /** The steps of `build`, in order. */
  method AssembleGraph(g: GraphAssembler) returns (ghost a: Assembly)
    requires g.Valid() && g.parentOf == Placed([], map[]) && g.phantoms == {} && KeepsPolled(g.raw, g.devices)
    requires g.hosts == [] && g.reasons == map[]
    requires (forall c | c in g.raw :: g.raw[c] in g.rawNodes) && W.ReadAsMac(g.rawNodes)
    modifies g
    ensures g.Valid() && g.NodesArePlaced() && g.Sound()
    ensures Ids(g.endpoints) == old(Ids(g.endpoints))
    ensures a == Assembly(g.devices, g.links, g.endpoints, g.hosts, g.parentOf, g.phantoms)
    ensures IsAssembled(g.rawNodes, g.rawEdges, old(g.endpoints), old(g.devices), g.raw, g.table, a)
    ensures HasEvidence(g.rawNodes, g.rawEdges, old(g.endpoints), old(g.devices), g.raw, g.table, a)
  {
    hide HasEvidence, IsTable, IsWhole, Ids, ReasonsExplain, NoRepeats, Placed.Valid, W.ReadAsMac, IsTrusted,
      AllPlacedRight, MachinesSit, KeepsMacs, KeepsPolled, PlacedAreNodes, HostsArePlaced, LeavesRight, LinksBetween,
      IsPhantom,
      IsNotMissed, Phantoms, MergesRight;
    ghost var agents, order := g.endpoints, g.devices;
    ghost var early, late := PlaceAgents(g);
    ghost var after, known := g.endpoints, EnrichedAll(agents, g.table);
    EnrichingKeepsMacs(agents, g.table);
    KeepsMacsChain(agents, known, after);
    a := PlaceHosts(g, order, known, Without(order, early));
    MergesAreRight(g.raw, g.rawEdges, g.table, agents, order, early, late, after, g.endpoints);
    KeepsMacsChain(agents, after, g.endpoints);
    EveryPlaceHasEvidence(g.rawNodes, g.rawEdges, agents, order, g.raw, g.table, a);
  }

  /** No agent's own MAC is the chassis MAC of a polled device that is no equipment. */
  ghost predicate NoAgentWasPolled(rawNodes: seq<RawNode>, agents: seq<Endpoint>) {
    forall n, ep | n in rawNodes && ep in agents && n.polled && !n.equipment :: !Claims(ep, n)
  }

  lemma NoneMergedWasPolled(rawNodes: seq<RawNode>, edges: seq<RawEdge>, agents: seq<Endpoint>, order: seq<string>,
                            raw: map<string, RawNode>, t: MacTable, merged: set<string>, endpoints: seq<Endpoint>)
    requires (forall c | c in order :: c in raw) && (forall c | c in raw :: raw[c] in rawNodes) && IsTable(rawNodes, t)
    requires MergesRight(raw, edges, t, agents, order, merged, endpoints) && NoAgentWasPolled(rawNodes, agents)
    ensures NoneWasPolled(raw, merged)
  {
    hide LldpSwitchAndPort, Claims, MergesRight, IsTable;
    NoneMergedWasPolledExactlyWhen(rawNodes, edges, agents, order, raw, t, merged, endpoints);
    forall c | c in Phantoms(raw, agents, edges, order) ensures !Polled(raw, c) {
      assert IsPhantom(raw, agents, edges, order, c);
    }
  }

  /** `build`: the document says what the assembly of the inputs comes to. When none of
      the merged devices had been polled, as when no agent's MAC is that of a polled device
      that is no equipment, and what is known comes from polled devices, every edge end and every parent
      is one of its nodes. Parents in the graph come before their children in any case. */
  method Build(rawNodes: seq<RawNode>, rawEdges: seq<RawEdge>, agents: seq<Endpoint>)
    returns (doc: Document, ghost a: Assembly, ghost order: seq<string>, ghost raw: map<string, RawNode>,
             ghost t: MacTable,
             ghost met: seq<string>, ghost forest: D.Forest)
    requires NoRepeats(Ids(agents)) && W.ReadAsMac(rawNodes)
    ensures IsTable(rawNodes, t) && NoRepeats(order) && (forall c :: c in order <==> c in raw)
    ensures (forall c | c in raw :: raw[c] in rawNodes && raw[c].chassis == c)
    ensures forall n | n in rawNodes :: n.chassis in raw
    ensures IsAssembled(rawNodes, rawEdges, agents, order, raw, t, a) && a.placed.Valid()
    ensures HasEvidence(rawNodes, rawEdges, agents, order, raw, t, a)
    ensures Writes(doc, a.devices, a.links, a.endpoints, a.hosts, a.placed, met, forest)
    ensures IsNumbering(doc.number, doc.nodes) && ParentsComeBefore(doc)
    ensures FromPolled(rawNodes, rawEdges) && NoneWasPolled(raw, a.merged) ==> NamesItsNodes(doc)
    ensures FromPolled(rawNodes, rawEdges) && NoAgentWasPolled(rawNodes, agents) ==> NamesItsNodes(doc)
  {
    hide IsTable, IsWhole, Ids, ReasonsExplain, NoRepeats, Placed.Valid, W.ReadAsMac, NamesItsNodes, FromPolled,
      IsNumbering, PlacedAreNodes, HostsArePlaced, NoneWasPolled, PolledSources, LinksAreKept, ParentsComeBefore,
      KeepsPolled, IsAssembled, Writes, NoAgentWasPolled, HasEvidence;
    var table := BuildMacTable(rawNodes);
    t := table;
    var seen, byChassis := IndexRaw(rawNodes);
    order, raw := seen, byChassis;
    var g := new GraphAssembler(table, seen, byChassis, rawNodes, rawEdges, agents);
    a := AssembleGraph(g);
    AssembledFacts(rawNodes, rawEdges, agents, order, raw, t, a);
    doc, met, forest := WriteDocument(g.raw, g.devices, g.links, g.endpoints, g.hosts, g.parentOf);
    if FromPolled(rawNodes, rawEdges) && NoAgentWasPolled(rawNodes, agents) {
      NoneMergedWasPolled(rawNodes, rawEdges, agents, order, raw, t, a.merged, a.endpoints);
    }
    if FromPolled(rawNodes, rawEdges) && NoneWasPolled(raw, a.merged) {
      FromPolledIsTrusted(rawNodes, raw, rawEdges, table);
    }
  }

  /** Each chassis of the network document is one node of the graph: a device, or the
      host it announced itself as, or the endpoint that has its MAC. */
  lemma EveryChassisIsANode(nodes: seq<RawNode>, edges: seq<RawEdge>, agents: seq<Endpoint>, order: seq<string>,
                            raw: map<string, RawNode>, t: MacTable, a: Assembly, doc: Document, met: seq<string>,
                            forest: D.Forest, c: string)
    requires (forall x | x in order :: x in raw) && IsAssembled(nodes, edges, agents, order, raw, t, a)
    requires a.placed.Valid()
    requires Writes(doc, a.devices, a.links, a.endpoints, a.hosts, a.placed, met, forest) && c in order
    ensures DeviceNodeId(c) in doc.nodes <==> c !in a.merged && !IsEndHost(raw[c])
    ensures c !in a.merged && IsEndHost(raw[c]) ==> EndHostId(raw, c) in doc.nodes
    ensures c in a.merged ==>
              exists ep :: ep in a.endpoints && Claims(ep, raw[c]) && EndpointNodeId(ep.agent) in doc.nodes
  {
    hide MergesRight, EndpointsSitRight, MachinesEndRight, HostsSitRight, D.IsBfs, NumbersInOrder, Listing,
      PlacedEdges, LinkIds, ParentIds, IsEndHost, LinksBetween, ClientsSettle, IsKnown, EndHostId, DeviceNodeId,
      HostNodeId, EndpointNodeId, LldpSwitchAndPort, W.IsClientMac;
    AssembledFacts(nodes, edges, agents, order, raw, t, a);
    var ids := DeviceIds(a.devices) + Ids(a.endpoints) + HostIds(a.hosts);
    DeviceIdsHold(a.devices, c);
    NoOtherIsADevice(nodes, raw, t, order, a, c);
    if c !in a.merged && IsEndHost(raw[c]) {
      assert IsNeighbour(raw, order, a.merged, c);
      var i :| 0 <= i < |a.hosts| && a.hosts[i] == HostOf(raw, c);
      assert HostIds(a.hosts)[i] in ids;
    }
    if c in a.merged {
      assert IsPhantom(raw, a.endpoints, edges, order, c);
      var ep :| ep in a.endpoints && Claims(ep, raw[c]);
      var i :| 0 <= i < |a.endpoints| && a.endpoints[i] == ep;
      assert Ids(a.endpoints)[i] in ids;
    }
  }

  lemma NoOtherIsADevice(nodes: seq<RawNode>, raw: map<string, RawNode>, t: MacTable, order: seq<string>, a: Assembly,
                         c: string)
    requires HostsAreThose(nodes, raw, t, order, a.devices, a.merged, a.endpoints, a.hosts)
    ensures DeviceNodeId(c) !in Ids(a.endpoints) && DeviceNodeId(c) !in HostIds(a.hosts)
  {
    hide IsKnown, DeviceNodeId, HostNodeId, EndpointNodeId, IsEndHost, HostKey, HostMac, W.IsClientMac;
    if DeviceNodeId(c) in Ids(a.endpoints) {
      var i :| 0 <= i < |a.endpoints| && Ids(a.endpoints)[i] == DeviceNodeId(c);
      KindsDiffer(c, a.endpoints[i].agent, "");
    } else if DeviceNodeId(c) in HostIds(a.hosts) {
      var i :| 0 <= i < |a.hosts| && a.hosts[i].id == DeviceNodeId(c);
      var h := a.hosts[i];
      assert h in a.hosts;
      if d :| IsNeighbour(raw, order, a.merged, d) && h == HostOf(raw, d) {
        KindsDiffer(c, "", HostKey(raw[d]));
      } else {
        var m :| (m in t.byMac || W.IsClientMac(nodes, m)) && h == Host(HostNodeId(m), Some(m));
        KindsDiffer(c, "", m);
      }
    }
  }

  /** Every agent's endpoint is a node, and so is a host for every MAC of the tables that
      no endpoint, device or other host has and that is no infrastructure. */
  lemma EveryAgentAndMacIsANode(nodes: seq<RawNode>, edges: seq<RawEdge>, agents: seq<Endpoint>, order: seq<string>,
                                raw: map<string, RawNode>, t: MacTable, a: Assembly, doc: Document, met: seq<string>,
                                forest: D.Forest)
    requires (forall x | x in order :: x in raw) && IsAssembled(nodes, edges, agents, order, raw, t, a)
    requires a.placed.Valid()
    requires Writes(doc, a.devices, a.links, a.endpoints, a.hosts, a.placed, met, forest)
    ensures forall i | 0 <= i < |agents| :: EndpointNodeId(agents[i].agent) in doc.nodes
    ensures forall m | m in t.byMac ::
              || m in t.infra || (exists c :: c in a.devices && c in raw && raw[c].chassisMac == Some(m))
              || exists id :: id in doc.nodes && W.NodeHas(a.endpoints, a.hosts, id, m)
  {
    hide Writes, IsAssembled, DeviceIds, EndpointNodeId, IsKnown;
    WrittenNodes(a, doc, met, forest);
    MacsAreKnown(nodes, edges, agents, order, raw, t, a);
    forall i | 0 <= i < |agents| ensures EndpointNodeId(agents[i].agent) in doc.nodes {
      assert KeepsMac(agents[i], a.endpoints[i]);
      assert Ids(a.endpoints)[i] in Ids(a.endpoints);
    }
    forall m | m in t.byMac
      ensures || m in t.infra || (exists c :: c in a.devices && c in raw && raw[c].chassisMac == Some(m))
              || exists id :: id in doc.nodes && W.NodeHas(a.endpoints, a.hosts, id, m)
    {
      KnownIsANode(raw, a.devices, a.endpoints, a.hosts, t, doc.nodes, m);
    }
  }

  lemma WrittenNodes(a: Assembly, doc: Document, met: seq<string>, forest: D.Forest)
    requires a.placed.Valid() && Writes(doc, a.devices, a.links, a.endpoints, a.hosts, a.placed, met, forest)
    ensures forall id | id in Ids(a.endpoints) :: id in doc.nodes
    ensures forall h | h in a.hosts :: h.id in doc.nodes
  {
    hide D.IsBfs, NumbersInOrder, Listing, PlacedEdges, LinkIds, ParentIds, ParentId, DeviceIds, Ids, HostIds,
      NoRepeats;
    var ids := DeviceIds(a.devices) + Ids(a.endpoints) + HostIds(a.hosts);
    forall h | h in a.hosts ensures h.id in doc.nodes {
      HostIdsHold(a.hosts, h.id);
      assert h.id in ids;
    }
    assert forall id | id in Ids(a.endpoints) :: id in ids;
  }

  lemma MacsAreKnown(nodes: seq<RawNode>, edges: seq<RawEdge>, agents: seq<Endpoint>, order: seq<string>,
                     raw: map<string, RawNode>, t: MacTable, a: Assembly)
    requires (forall x | x in order :: x in raw) && IsAssembled(nodes, edges, agents, order, raw, t, a)
    ensures KeepsMacs(agents, a.endpoints)
    ensures forall m | m in t.byMac :: IsKnown(raw, a.devices, a.endpoints, a.hosts, t, m)
  {
    hide MergesRight, EndpointsSitRight, MachinesEndRight, HostsSitRight, IsEndHost, LinksBetween, ClientsSettle,
      IsKnown, IsNeighbour, HostOf, HostNodeId, KeepsMacs, W.IsClientMac, Phantoms, EnrichedAll, Without;
  }

  lemma KnownIsANode(raw: map<string, RawNode>, devices: seq<string>, endpoints: seq<Endpoint>, hosts: seq<Host>,
                     t: MacTable, nodes: seq<string>, m: Mac)
    requires IsKnown(raw, devices, endpoints, hosts, t, m)
    requires (forall id | id in Ids(endpoints) :: id in nodes) && forall h | h in hosts :: h.id in nodes
    ensures || m in t.infra || (exists c :: c in devices && c in raw && raw[c].chassisMac == Some(m))
            || exists id :: id in nodes && W.NodeHas(endpoints, hosts, id, m)
  {
    if ep :| ep in endpoints && ep.mac == Some(m) {
      var i :| 0 <= i < |endpoints| && endpoints[i] == ep;
      assert Ids(endpoints)[i] in Ids(endpoints) && W.NodeHas(endpoints, hosts, EndpointNodeId(ep.agent), m);
    } else if h :| h in hosts && h.mac == Some(m) {
      assert W.NodeHas(endpoints, hosts, h.id, m);
    }
  }

  lemma AssembledFacts(nodes: seq<RawNode>, edges: seq<RawEdge>, agents: seq<Endpoint>, order: seq<string>,
                       raw: map<string, RawNode>, t: MacTable, a: Assembly)
    requires (forall c | c in order :: c in raw) && IsAssembled(nodes, edges, agents, order, raw, t, a)
    ensures LinksAreKept(a.devices, a.links) && MergesRight(raw, edges, t, agents, order, a.merged, a.endpoints)
    ensures forall c | c in a.merged :: IsPhantom(raw, a.endpoints, edges, order, c)
  {
    hide IsPhantom, EndpointsSitRight, MachinesEndRight, HostsAreThose, HostsSitRight, ClientsSettle, IsNotMissed,
      KeepsMacs;
  }

  lemma MergedHaveParents(raw: map<string, RawNode>, endpoints: seq<Endpoint>, edges: seq<RawEdge>,
                          devices: seq<string>, merged: set<string>, at: map<string, Placement>)
    requires MergedInto(raw, endpoints, edges, merged, at)
    requires forall c | c in merged :: IsPhantom(raw, endpoints, edges, devices, c)
    ensures forall id | id in at :: id in Ids(endpoints) && at[id].parent.Some?
  {
    forall id | id in at ensures at[id].parent.Some? {
      var c :| c in merged && SitsAt(raw, endpoints, edges, id, at[id], c);
      assert IsPhantom(raw, endpoints, edges, devices, c);
    }
  }
}
