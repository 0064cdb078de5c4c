/** What stands behind every place in the assembled graph: a link, a forwarding-table row,
    a shared subnet or an access point's list, read in the document itself. */
module AssemblyEvidence {
  import opened AssemblyHosts
  import opened AssemblyLate
  import opened AssemblyPlacement
  import opened AssemblyResult
  import opened AssemblySteps
  import opened AssemblyWifi
  import opened MacTables
  import opened Wrappers

  /** The switch has a forwarding row for the MAC on that port, which is none of its uplinks. */
  ghost predicate IsLearnedAt(nodes: seq<RawNode>, m: Mac, p: Placement) {
    && p.parent.Some? && p.port.Some?
    && exists n, v :: && n in nodes && n.chassis == p.parent.value && p.port.value !in n.uplinks
                      && Learned(n.fdb, m, p.port.value, v)
  }

  /** The table's row of the MAC names that place. */
  ghost predicate IsOfRow(t: MacTable, m: Mac, p: Placement) {
    m in t.byMac && p.parent == Some(t.byMac[m].chassis) && p.port == Some(t.byMac[m].port)
  }

  /** The agent reports the MAC, or it reports none and the tables pair one with its address. */
  ghost predicate HasMac(agent: Endpoint, t: MacTable, m: Mac) {
    agent.mac == Some(m) || (agent.mac == None && exists ip :: agent.ip == Some(ip) && (ip, m) in t.byIp.Items)
  }

  /** Its MAC is on that port of the switch, as the table's row of it says. */
  ghost predicate IsByTable(nodes: seq<RawNode>, t: MacTable, agent: Endpoint, p: Placement) {
    exists m :: && HasMac(agent, t, m) && IsLearnedAt(nodes, m, p) && IsOfRow(t, m, p)
                && p.confidence == Some(t.byMac[m].confidence)
  }

  /** No row of the table places it: there is none of its MAC, or its switch is gone; or it is
      a device's machine, and that device's announcer is gone. */
  ghost predicate NoRowPlacesIt(raw: map<string, RawNode>, t: MacTable, a: Assembly, agent: Endpoint, ep: Endpoint) {
    || IsClaimed(raw, a.merged, ep)
    || forall m | HasMac(agent, t, m) && m in t.byMac :: t.byMac[m].chassis !in a.devices
  }

  /** The device that is the endpoint's machine is at the other end of the port's link. */
  ghost predicate IsLinked(raw: map<string, RawNode>, edges: seq<RawEdge>, merged: set<string>, ep: Endpoint,
                           p: Placement) {
    exists c :: c in merged && c in raw && Claims(ep, raw[c]) && IsOnLinkTo(edges, p, c)
  }

  /** The device and the endpoint both have addresses, in one /24. */
  ghost predicate IsNear(raw: map<string, RawNode>, c: string, ep: Endpoint) {
    && c in raw && raw[c].ip.Some? && ep.ip.Some?
    && raw[c].ip.value.net.Some? && raw[c].ip.value.net == ep.ip.value.net
  }

  /** The endpoint is online and under a device near it, a polled one if any is. */
  ghost predicate SharesSubnet(raw: map<string, RawNode>, devices: seq<string>, ep: Endpoint, p: Placement) {
    && ep.online && p.parent.Some? && p.port.None?
    && p.parent.value in devices && IsNear(raw, p.parent.value, ep)
    && ((exists c :: c in devices && IsNear(raw, c, ep) && raw[c].polled) ==> raw[p.parent.value].polled)
  }

  /** The endpoint is nowhere: it is offline, or no device is near it. */
  ghost predicate IsLost(raw: map<string, RawNode>, devices: seq<string>, ep: Endpoint, p: Placement) {
    p == UNPLACED && (ep.online ==> forall c | c in devices :: !IsNear(raw, c, ep))
  }

  /** The evidence each confidence stands for, at an endpoint. */
  ghost predicate Backs(nodes: seq<RawNode>, raw: map<string, RawNode>, edges: seq<RawEdge>, t: MacTable,
                        agent: Endpoint, i: nat, a: Assembly, p: Placement)
    requires i < |a.endpoints|
  {
    match p.confidence
    case None => IsLost(raw, a.devices, agent, p) && NoRowPlacesIt(raw, t, a, agent, a.endpoints[i])
    case Some(Lldp) => IsLinked(raw, edges, a.merged, a.endpoints[i], p)
    case Some(Fdb) => false
    case Some(Resolved) => IsByTable(nodes, t, agent, p)
    case Some(Tiebreak) => IsByTable(nodes, t, agent, p)
    case Some(SubnetFallback) =>
      SharesSubnet(raw, a.devices, agent, p) && NoRowPlacesIt(raw, t, a, agent, a.endpoints[i])
    case Some(Wifi) => OnAccessPoint(nodes, a.devices, a.endpoints, a.hosts, EndpointNodeId(a.endpoints[i].agent), p)
  }

  /** A host's name: its own MAC; without one its chassis MAC; without either its chassis id. */
  ghost predicate GoesBy(n: RawNode, id: string) {
    exists key :: && id == HostNodeId(key)
                  && (n.mac == Some(key) || (n.mac == None && n.chassisMac == Some(key))
                      || (n.mac == n.chassisMac == None && n.chassis == key))
  }

  /** The same at a host: a neighbour not merged, a MAC of the tables, or a client. */
  ghost predicate BacksHost(nodes: seq<RawNode>, raw: map<string, RawNode>, edges: seq<RawEdge>, t: MacTable,
                            order: seq<string>, a: Assembly, id: string, p: Placement) {
    match p.confidence
    case None => p == UNPLACED && exists c :: IsNeighbour(raw, order, a.merged, c) && GoesBy(raw[c], id)
    case Some(Lldp) =>
      && p.parent.Some? && p.parent.value in a.devices
      && exists c :: IsNeighbour(raw, order, a.merged, c) && GoesBy(raw[c], id) && IsOnLinkTo(edges, p, c)
    case Some(Fdb) => exists m :: id == HostNodeId(m) && IsLearnedAt(nodes, m, p) && IsOfRow(t, m, p)
    case Some(Resolved) => false
    case Some(Tiebreak) => false
    case Some(SubnetFallback) => false
    case Some(Wifi) => OnAccessPoint(nodes, a.devices, a.endpoints, a.hosts, id, p)
  }

  /** The merged device's endpoint is on the port of a link to its machine; or the device at
      the other end of such a link is gone and it goes by subnet or nowhere; or it is under
      an access point. */
  ghost predicate IsAccountedFor(nodes: seq<RawNode>, raw: map<string, RawNode>, edges: seq<RawEdge>, agent: Endpoint,
                                 a: Assembly, c: string, i: nat)
    requires i < |a.endpoints|
  {
    var id := EndpointNodeId(a.endpoints[i].agent);
    && c in raw && Claims(a.endpoints[i], raw[c]) && id in a.placed.at
    && (|| IsLinked(raw, edges, a.merged, a.endpoints[i], a.placed.at[id])
        || (IsLost(raw, a.devices, agent, a.placed.at[id]) && LostItsSwitch(raw, edges, a, a.endpoints[i]))
        || (SharesSubnet(raw, a.devices, agent, a.placed.at[id]) && LostItsSwitch(raw, edges, a, a.endpoints[i]))
        || OnAccessPoint(nodes, a.devices, a.endpoints, a.hosts, id, a.placed.at[id]))
  }

  ghost predicate LostItsSwitch(raw: map<string, RawNode>, edges: seq<RawEdge>, a: Assembly, ep: Endpoint) {
    exists c, device, port, e :: && c in a.merged && c in raw && Claims(ep, raw[c]) && e in edges
                                 && Joins(e, device, port, c) && device !in a.devices
  }

  /** Every place has its evidence, and every merged device's endpoint is accounted for. */
  ghost predicate HasEvidence(nodes: seq<RawNode>, edges: seq<RawEdge>, agents: seq<Endpoint>, order: seq<string>,
                              raw: map<string, RawNode>, t: MacTable, a: Assembly) {
    && |agents| == |a.endpoints|
    && (forall i | 0 <= i < |agents| ::
          var id := EndpointNodeId(a.endpoints[i].agent);
          id in a.placed.at && Backs(nodes, raw, edges, t, agents[i], i, a, a.placed.at[id]))
    && (forall id | id in a.placed.at && id !in Ids(a.endpoints) ::
          BacksHost(nodes, raw, edges, t, order, a, id, a.placed.at[id]))
    && forall c | c in a.merged ::
         exists i: nat :: i < |agents| && IsAccountedFor(nodes, raw, edges, agents[i], a, c, i)
  }

  // ---- each rung's evidence ---------------------------------------------------------------

  lemma RowIsLearned(nodes: seq<RawNode>, t: MacTable, m: Mac, p: Placement)
    requires IsTable(nodes, t) && m in t.byMac
    requires p.parent == Some(t.byMac[m].chassis) && p.port == Some(t.byMac[m].port)
    ensures IsLearnedAt(nodes, m, p) && IsOfRow(t, m, p) && t.byMac[m].confidence in {Resolved, Tiebreak}
  {
    hide Learned, IsInfra, CandidatesOf, Less;
    RowIsTheBestSighting(nodes, t, m);
    var c :| IsSighting(nodes, m, c) && t.byMac[m].chassis == c.chassis && t.byMac[m].port == c.port;
    var n :| n in nodes && IsSightingBy(n, m, c);
    assert Learned(n.fdb, m, p.port.value, c.vlan);
    assert IsFact(CandidatesOf(nodes, m), Address(ArpOf(AllArp(nodes)), m), t.byMac[m]);
  }

  lemma FallbackIsBacked(raw: map<string, RawNode>, ep: Endpoint, devices: seq<string>)
    requires forall c | c in devices :: c in raw
    ensures var p := Fallback(raw, ep, devices);
            || (p == UNPLACED && IsLost(raw, devices, ep, p))
            || (p.confidence == Some(SubnetFallback) && SharesSubnet(raw, devices, ep, p))
    ensures Fallback(raw, ep, devices).port == None
  {
    SubnetParentIs(raw, ep.ip, devices, None);
    forall c | c in devices ensures IsNear(raw, c, ep) <==> SameSubnet(raw[c].ip, ep.ip) {
    }
  }

  lemma AnnouncedIsLinked(raw: map<string, RawNode>, edges: seq<RawEdge>, merged: set<string>, ep: Endpoint,
                          p: Placement, c: string)
    requires c in merged && c in raw && Claims(ep, raw[c])
    requires (p.parent, p.port) == LldpSwitchAndPort(c, edges) && p.parent.Some?
    ensures IsLinked(raw, edges, merged, ep, p)
  {
    AnnouncedIsOnLink(c, edges, p);
  }

  /** What the tables add to an agent is the MAC they pair with its address. */
  lemma EnrichedHasMac(agent: Endpoint, t: MacTable)
    ensures var known := Enriched(agent, t);
            && known.ip == agent.ip && known.online == agent.online
            && forall m :: known.mac == Some(m) <==> HasMac(agent, t, m)
  {
    if agent.ip.Some? {
      assert agent.ip == Some(agent.ip.value);
    }
  }

  lemma SameAddress(raw: map<string, RawNode>, devices: seq<string>, a: Endpoint, b: Endpoint, p: Placement)
    requires a.ip == b.ip && a.online == b.online
    ensures SharesSubnet(raw, devices, a, p) <==> SharesSubnet(raw, devices, b, p)
    ensures IsLost(raw, devices, a, p) <==> IsLost(raw, devices, b, p)
  {
    assert forall c :: IsNear(raw, c, a) <==> IsNear(raw, c, b);
  }

  /** An endpoint placed right has the evidence its confidence stands for. */
  lemma RightIsBacked(nodes: seq<RawNode>, raw: map<string, RawNode>, edges: seq<RawEdge>, t: MacTable,
                      before: seq<string>, agent: Endpoint, i: nat, a: Assembly, p: Placement)
    requires (forall c | c in a.devices :: c in raw) && IsTable(nodes, t) && i < |a.endpoints|
    requires forall c | c in a.merged :: SwitchOf(c, edges).Some?
    requires IsPlacedRight(raw, edges, t, before, a.devices, a.merged, Enriched(agent, t), a.endpoints[i], p)
    ensures Backs(nodes, raw, edges, t, agent, i, a, p)
  {
    hide Fallback, IsTable, IsLearnedAt, SharesSubnet, IsLost, IsLinked, LldpSwitchAndPort, Claims, HasMac, Enriched,
      IsOfRow;
    var known := Enriched(agent, t);
    EnrichedHasMac(agent, t);
    FallbackIsBacked(raw, known, a.devices);
    SameAddress(raw, a.devices, agent, known, p);
    if p == Fallback(raw, known, a.devices) {
      if !IsClaimed(raw, a.merged, a.endpoints[i]) {
        assert p == ByTableOrSubnet(raw, known, t, before, a.devices);
        forall m | HasMac(agent, t, m) && m in t.byMac ensures t.byMac[m].chassis !in a.devices {
          assert known.mac == Some(m);
        }
      }
    } else if p == ByTableOrSubnet(raw, known, t, before, a.devices) {
      RowIsLearned(nodes, t, known.mac.value, p);
    } else {
      var c :| c in a.merged && c in raw && Claims(a.endpoints[i], raw[c]) && p == LldpPlacement(c, edges);
      AnnouncedIsLinked(raw, edges, a.merged, a.endpoints[i], p, c);
    }
  }

  lemma GoesByItsName(raw: map<string, RawNode>, c: string)
    requires c in raw
    ensures GoesBy(raw[c], EndHostId(raw, c))
  {
    hide HostNodeId;
    var n, key := raw[c], HostKey(raw[c]);
    assert EndHostId(raw, c) == HostNodeId(key);
    assert n.mac == None || n.mac == Some(n.mac.value);
  }

  lemma HostIsBacked(nodes: seq<RawNode>, raw: map<string, RawNode>, edges: seq<RawEdge>, t: MacTable,
                     order: seq<string>, a: Assembly, id: string, p: Placement)
    requires IsTable(nodes, t)
    requires || IsAnnounced(raw, edges, order, a.merged, a.devices, id, p) || IsRowOf(t, id, p)
             || OnAccessPoint(nodes, a.devices, a.endpoints, a.hosts, id, p)
    ensures BacksHost(nodes, raw, edges, t, order, a, id, p)
  {
    hide IsOfRow, IsTable, IsLearnedAt, LldpSwitchAndPort, IsEndHost, HostNodeId, HostKey, NodeHas;
    if c :| IsNeighbour(raw, order, a.merged, c) && EndHostId(raw, c) == id
            && p == AnnouncedAt(edges, a.devices, [], c) {
      GoesByItsName(raw, c);
      if p != UNPLACED {
        AnnouncedIsOnLink(c, edges, p);
      }
    } else if m :| m in t.byMac && id == HostNodeId(m) && p == RowPlacement(t, m) {
      RowIsLearned(nodes, t, m, p);
    }
  }

  lemma MachineIsAccountedFor(nodes: seq<RawNode>, raw: map<string, RawNode>, edges: seq<RawEdge>, t: MacTable,
                              agent: Endpoint, a: Assembly, c: string, i: nat)
    requires (forall d | d in a.devices :: d in raw) && i < |a.endpoints|
    requires forall d | d in a.merged :: SwitchOf(d, edges).Some?
    requires MachineEndsRight(nodes, raw, edges, a.devices, a.merged, Enriched(agent, t), a.endpoints, a.hosts,
                              a.placed.at, c, i)
    ensures IsAccountedFor(nodes, raw, edges, agent, a, c, i)
  {
    hide Fallback, SharesSubnet, IsLost, IsLinked, LldpSwitchAndPort, Claims, OnAccessPoint, EndpointNodeId, Enriched,
      HasMac;
    var known := Enriched(agent, t);
    EnrichedHasMac(agent, t);
    var id := EndpointNodeId(a.endpoints[i].agent);
    var p := a.placed.at[id];
    if !OnAccessPoint(nodes, a.devices, a.endpoints, a.hosts, id, p) {
      var d :| && d in a.merged && d in raw && Claims(a.endpoints[i], raw[d])
               && IsAnnouncedAt(raw, edges, a.devices, known, p, d);
      if (p.parent, p.port) == LldpSwitchAndPort(d, edges) {
        AnnouncedIsLinked(raw, edges, a.merged, a.endpoints[i], p, d);
      } else {
        FallbackIsBacked(raw, known, a.devices);
        SameAddress(raw, a.devices, agent, known, p);
        var (switch, port) := LldpSwitchAndPort(d, edges);
        AnnouncedByTheFirstLink(d, edges);
        var j :| 0 <= j < |edges| && Joins(edges[j], switch.value, port, d);
        assert edges[j] in edges;
      }
    }
  }

  // ---- the whole -----------------------------------------------------------------------

  lemma MergedWereAnnounced(raw: map<string, RawNode>, endpoints: seq<Endpoint>, edges: seq<RawEdge>,
                            order: seq<string>, merged: set<string>)
    requires forall c | c in merged :: IsPhantom(raw, endpoints, edges, order, c)
    ensures forall c | c in merged :: SwitchOf(c, edges).Some?
  {
    hide LldpSwitchAndPort, Claims;
  }

  /** Whatever the assembly leaves, every endpoint and host sits where the document says:
      an LLDP place is a port of a link to that machine, a table place a port the switch
      learned the MAC on, a subnet place a device of the graph on the /24, and a wireless
      one the access point that lists the client. */
  lemma EveryPlaceHasEvidence(nodes: seq<RawNode>, edges: seq<RawEdge>, agents: seq<Endpoint>, order: seq<string>,
                              raw: map<string, RawNode>, t: MacTable, a: Assembly)
    requires (forall c | c in order :: c in raw) && IsTable(nodes, t)
    requires IsAssembled(nodes, edges, agents, order, raw, t, a)
    ensures HasEvidence(nodes, edges, agents, order, raw, t, a)
  {
    hide IsTable, IsPlacedRight, OnAccessPoint, IsAnnounced, IsRowOf, Backs, BacksHost, IsAccountedFor, IsPhantom,
      MachineEndsRight, HostsAreThose, ClientsSettle, LinksBetween, Phantoms, Without, IsEndHost, Ids, EndpointNodeId,
      Enriched, IsNotMissed, KeepsMacs, SwitchOf;
    MergedWereAnnounced(raw, a.endpoints, edges, order, a.merged);
    var known := EnrichedAll(agents, t);
    forall i: nat | i < |agents|
      ensures var id := EndpointNodeId(a.endpoints[i].agent);
              id in a.placed.at && Backs(nodes, raw, edges, t, agents[i], i, a, a.placed.at[id])
    {
      var id := EndpointNodeId(a.endpoints[i].agent);
      if OnAccessPoint(nodes, a.devices, a.endpoints, a.hosts, id, a.placed.at[id]) {
        WifiIsBacked(nodes, raw, edges, t, agents[i], i, a);
      } else {
        RightIsBacked(nodes, raw, edges, t, Without(order, Phantoms(raw, agents, edges, order)), agents[i], i, a,
                      a.placed.at[id]);
      }
    }
    forall id | id in a.placed.at && id !in Ids(a.endpoints)
      ensures BacksHost(nodes, raw, edges, t, order, a, id, a.placed.at[id])
    {
      HostIsBacked(nodes, raw, edges, t, order, a, id, a.placed.at[id]);
    }
    forall c | c in a.merged
      ensures exists i: nat :: i < |agents| && IsAccountedFor(nodes, raw, edges, agents[i], a, c, i)
    {
      var i: nat :| && i < |a.endpoints|
                    && MachineEndsRight(nodes, raw, edges, a.devices, a.merged, known[i], a.endpoints, a.hosts,
                                        a.placed.at, c, i);
      MachineIsAccountedFor(nodes, raw, edges, t, agents[i], a, c, i);
    }
  }

  lemma WifiIsBacked(nodes: seq<RawNode>, raw: map<string, RawNode>, edges: seq<RawEdge>, t: MacTable, agent: Endpoint,
                     i: nat, a: Assembly)
    requires i < |a.endpoints| && EndpointNodeId(a.endpoints[i].agent) in a.placed.at
    requires var id := EndpointNodeId(a.endpoints[i].agent);
             OnAccessPoint(nodes, a.devices, a.endpoints, a.hosts, id, a.placed.at[id])
    ensures Backs(nodes, raw, edges, t, agent, i, a, a.placed.at[EndpointNodeId(a.endpoints[i].agent)])
  {
    hide NodeHas, EndpointNodeId;
  }
}
