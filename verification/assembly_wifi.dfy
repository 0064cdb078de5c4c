/** Moving an access point's clients under it: `_place_wifi_clients`. A client's node is
    looked up by MAC, else it is the one endpoint without a MAC on its address, else it is
    a new host; an LLDP placement is never moved. */
module AssemblyWifi {
  import opened AssemblyHosts
  import opened AssemblyPlacement
  import opened AssemblySteps
  import opened MacTables
  import opened Sequences
  import opened Wrappers

  /** What the step changes. */
  datatype Nodes = Nodes(endpoints: seq<Endpoint>, hosts: seq<Host>, placed: Placed, reasons: map<string, Reason>,
                         byMac: map<Mac, string>)

  ghost predicate NodeHas(endpoints: seq<Endpoint>, hosts: seq<Host>, id: string, m: Mac) {
    || (exists ep :: ep in endpoints && EndpointNodeId(ep.agent) == id && ep.mac == Some(m))
    || exists h :: h in hosts && h.id == id && h.mac == Some(m)
  }

  /** The node has the MAC of a client of an access point of the graph, and sits under
      it on that client's radio. */
  ghost predicate OnAccessPoint(nodes: seq<RawNode>, devices: seq<string>, endpoints: seq<Endpoint>, hosts: seq<Host>,
                                id: string, p: Placement) {
    exists n, client :: n in nodes && n.chassis in devices && IsClientOf(n, client)
                        && client.mac.Some? && NodeHas(endpoints, hosts, id, client.mac.value)
                        && p == Placement(Some(n.chassis), client.radio, Some(Wifi))
  }

  ghost predicate IsClientOf(n: RawNode, client: Client) {
    n.wifiClients.Some? && client in n.wifiClients.value
  }

  /** LLDP placements stand; any other either stands too or is under an access point. */
  ghost predicate MovedOnlyUnderAps(nodes: seq<RawNode>, devices: seq<string>, endpoints: seq<Endpoint>,
                                    hosts: seq<Host>, at0: map<string, Placement>, at: map<string, Placement>) {
    && (forall id | id in at0 :: id in at && (at0[id].confidence == Some(Lldp) ==> at[id] == at0[id]))
    && forall id | id in at ::
         (id in at0 && at[id] == at0[id]) || OnAccessPoint(nodes, devices, endpoints, hosts, id, at[id])
  }

  /** No host is lost, and the new ones are clients. */
  ghost predicate AddsClients(nodes: seq<RawNode>, before: seq<Host>, after: seq<Host>) {
    && (forall h | h in before :: h in after)
    && forall h | h in after && h !in before :: exists m :: IsClientMac(nodes, m) && h == Host(HostNodeId(m), Some(m))
  }

  ghost predicate Consistent(s: Nodes) {
    && s.placed.Valid() && ReasonsExplain(Ids(s.endpoints), s.placed.at, s.reasons)
    && PlacedAreNodes(Ids(s.endpoints), s.hosts, s.placed.at) && HostsArePlaced(s.hosts, s.placed.at)
    && (forall id | id in Ids(s.endpoints) :: id in s.placed.at)
  }

  ghost predicate Indexed(s: Nodes) {
    forall m | m in s.byMac :: NodeHas(s.endpoints, s.hosts, s.byMac[m], m) && s.byMac[m] in s.placed.at
  }

  /** A node of this MAC, the known one if there is one, is where LLDP put it or at p. */
  ghost predicate IsSettledAt(endpoints: seq<Endpoint>, hosts: seq<Host>, at: map<string, Placement>,
                              known: Option<string>, m: Mac, p: Placement) {
    exists id :: SettlesAt(endpoints, hosts, at, known, m, p, id)
  }

  ghost predicate SettlesAt(endpoints: seq<Endpoint>, hosts: seq<Host>, at: map<string, Placement>,
                            known: Option<string>, m: Mac, p: Placement, id: string) {
    && id in at && NodeHas(endpoints, hosts, id, m) && (known.Some? ==> id == known.value)
    && (at[id].confidence == Some(Lldp) || at[id] == p)
  }

  function Known<T>(entries: map<Mac, T>, m: Mac): Option<T> {
    if m in entries then Some(entries[m]) else None
  }

  ghost predicate IsSettled(s0: Nodes, s: Nodes, m: Mac, p: Placement) {
    IsSettledAt(s.endpoints, s.hosts, s.placed.at, Known(s0.byMac, m), m, p)
  }

  /** A MAC that was indexed keeps its node. */
  ghost predicate KeepsIndex(before: map<Mac, string>, after: map<Mac, string>) {
    forall m | m in before :: m in after && after[m] == before[m]
  }

  ghost predicate WifiState(nodes: seq<RawNode>, devices: seq<string>, s0: Nodes, s: Nodes) {
    && Consistent(s) && Indexed(s) && MovedOnlyUnderAps(nodes, devices, s.endpoints, s.hosts, s0.placed.at, s.placed.at)
    && KeepsMacs(s0.endpoints, s.endpoints) && Ids(s.endpoints) == Ids(s0.endpoints)
    && AddsClients(nodes, s0.hosts, s.hosts)
  }

  // ---- the steps ------------------------------------------------------------------------

  function Move(s: Nodes, id: string, m: Mac, p: Placement): Nodes {
    s.(placed := s.placed.Put(id, p), reasons := s.reasons - {id}, byMac := s.byMac[m := id])
  }

  lemma MoveIsConsistent(s: Nodes, id: string, m: Mac, p: Placement)
    requires Consistent(s) && id in s.placed.at && p.parent.Some?
    ensures Consistent(Move(s, id, m, p))
  {
    s.placed.PutIsValid(id, p);
  }

  lemma MoveIsIndexed(s: Nodes, id: string, m: Mac, p: Placement)
    requires Indexed(s) && id in s.placed.at && NodeHas(s.endpoints, s.hosts, id, m)
    ensures Indexed(Move(s, id, m, p))
  {
    hide NodeHas;
  }

  lemma MoveIsUnderAps(nodes: seq<RawNode>, devices: seq<string>, endpoints: seq<Endpoint>, hosts: seq<Host>,
                       at0: map<string, Placement>, at: map<string, Placement>, id: string, p: Placement)
    requires MovedOnlyUnderAps(nodes, devices, endpoints, hosts, at0, at)
    requires OnAccessPoint(nodes, devices, endpoints, hosts, id, p)
    requires id in at ==> at[id].confidence != Some(Lldp)
    ensures MovedOnlyUnderAps(nodes, devices, endpoints, hosts, at0, at[id := p])
  {
    hide OnAccessPoint;
  }

  /** Placements stay evidenced when nodes only gain MACs. */
  lemma MoreNodesStayUnderAps(nodes: seq<RawNode>, devices: seq<string>, endpoints: seq<Endpoint>, hosts: seq<Host>,
                              endpoints': seq<Endpoint>, hosts': seq<Host>, at0: map<string, Placement>,
                              at: map<string, Placement>)
    requires MovedOnlyUnderAps(nodes, devices, endpoints, hosts, at0, at)
    requires forall id, x | NodeHas(endpoints, hosts, id, x) :: NodeHas(endpoints', hosts', id, x)
    ensures MovedOnlyUnderAps(nodes, devices, endpoints', hosts', at0, at)
  {
    hide NodeHas;
    forall id | id in at && OnAccessPoint(nodes, devices, endpoints, hosts, id, at[id])
      ensures OnAccessPoint(nodes, devices, endpoints', hosts', id, at[id])
    {
      var n, client :| n in nodes && n.chassis in devices && IsClientOf(n, client)
                       && client.mac.Some? && NodeHas(endpoints, hosts, id, client.mac.value)
                       && at[id] == Placement(Some(n.chassis), client.radio, Some(Wifi));
      assert NodeHas(endpoints', hosts', id, client.mac.value);
    }
  }

  /** A node has one MAC. */
  lemma OneMac(endpoints: seq<Endpoint>, hosts: seq<Host>, id: string, m: Mac, x: Mac)
    requires NoRepeats(Ids(endpoints)) && NamedAfterMacs(hosts)
    requires NodeHas(endpoints, hosts, id, m) && NodeHas(endpoints, hosts, id, x)
    ensures m == x
  {
    hide NoRepeats, EndpointNodeId, HostNodeId;
    if ep :| ep in endpoints && EndpointNodeId(ep.agent) == id && ep.mac == Some(m) {
      if e :| e in endpoints && EndpointNodeId(e.agent) == id && e.mac == Some(x) {
        SameEndpoint(endpoints, ep, e);
      } else {
        KindsDiffer("", ep.agent, x);
      }
    } else if ep :| ep in endpoints && EndpointNodeId(ep.agent) == id && ep.mac == Some(x) {
      KindsDiffer("", ep.agent, m);
    } else {
      HostIdsDiffer(m, x);
    }
  }

  lemma SameEndpoint(endpoints: seq<Endpoint>, a: Endpoint, b: Endpoint)
    requires NoRepeats(Ids(endpoints)) && a in endpoints && b in endpoints
    requires EndpointNodeId(a.agent) == EndpointNodeId(b.agent)
    ensures a == b
  {
    var i :| 0 <= i < |endpoints| && endpoints[i] == a;
    var j :| 0 <= j < |endpoints| && endpoints[j] == b;
    assert Ids(endpoints)[i] == Ids(endpoints)[j];
  }

  /** Moving a node settles its MAC, and moves no other MAC's. */
  lemma MoveSettles(s0: Nodes, s: Nodes, id: string, m: Mac, p: Placement, x: Mac, q: Placement)
    requires NoRepeats(Ids(s.endpoints)) && NamedAfterMacs(s.hosts) && NodeHas(s.endpoints, s.hosts, id, m)
    requires if x == m then q == p && (Known(s0.byMac, m).Some? ==> id == s0.byMac[m]) else IsSettled(s0, s, x, q)
    ensures IsSettled(s0, Move(s, id, m, p), x, q)
  {
    hide NodeHas, Ids, NoRepeats, NamedAfterMacs;
    var s' := Move(s, id, m, p);
    if x == m {
      assert SettlesAt(s'.endpoints, s'.hosts, s'.placed.at, Known(s0.byMac, m), m, p, id);
    } else {
      var y :| SettlesAt(s.endpoints, s.hosts, s.placed.at, Known(s0.byMac, x), x, q, y);
      if y == id {
        OneMac(s.endpoints, s.hosts, id, m, x);
      }
      assert SettlesAt(s'.endpoints, s'.hosts, s'.placed.at, Known(s0.byMac, x), x, q, y);
    }
  }

  function NameEndpoint(s: Nodes, i: nat, m: Mac): Nodes
    requires i < |s.endpoints|
  {
    s.(endpoints := s.endpoints[i := s.endpoints[i].(mac := Some(m))])
  }

  lemma NodeStillHas(s: Nodes, i: nat, m: Mac, id: string, x: Mac)
    requires i < |s.endpoints| && s.endpoints[i].mac.None? && NodeHas(s.endpoints, s.hosts, id, x)
    ensures NodeHas(NameEndpoint(s, i, m).endpoints, s.hosts, id, x)
  {
    var endpoints' := NameEndpoint(s, i, m).endpoints;
    if ep :| ep in s.endpoints && EndpointNodeId(ep.agent) == id && ep.mac == Some(x) {
      var k :| 0 <= k < |s.endpoints| && s.endpoints[k] == ep;
      assert endpoints'[k] == ep && endpoints'[k] in endpoints';
    }
  }

  lemma NamingKeepsState(nodes: seq<RawNode>, devices: seq<string>, s0: Nodes, s: Nodes, i: nat, m: Mac)
    requires WifiState(nodes, devices, s0, s) && i < |s.endpoints| && s.endpoints[i].mac.None?
    ensures WifiState(nodes, devices, s0, NameEndpoint(s, i, m))
    ensures EndpointNodeId(s.endpoints[i].agent) in s.placed.at
    ensures NodeHas(NameEndpoint(s, i, m).endpoints, s.hosts, EndpointNodeId(s.endpoints[i].agent), m)
  {
    hide NodeHas, IsHost, MovedOnlyUnderAps, Placed.Valid;
    var s' := NameEndpoint(s, i, m);
    assert Ids(s'.endpoints) == Ids(s.endpoints) by { SameIds(s'.endpoints, s.endpoints); }
    assert Ids(s.endpoints)[i] in Ids(s.endpoints);
    forall x | x in s'.byMac ensures NodeHas(s'.endpoints, s'.hosts, s'.byMac[x], x) {
      NodeStillHas(s, i, m, s.byMac[x], x);
    }
    NamedHas(s, i, m);
    forall id, x | NodeHas(s.endpoints, s.hosts, id, x) ensures NodeHas(s'.endpoints, s'.hosts, id, x) {
      NodeStillHas(s, i, m, id, x);
    }
    MoreNodesStayUnderAps(nodes, devices, s.endpoints, s.hosts, s'.endpoints, s'.hosts, s0.placed.at, s.placed.at);
  }

  lemma NamedHas(s: Nodes, i: nat, m: Mac)
    requires i < |s.endpoints|
    ensures NodeHas(NameEndpoint(s, i, m).endpoints, s.hosts, EndpointNodeId(s.endpoints[i].agent), m)
  {
    var endpoints' := NameEndpoint(s, i, m).endpoints;
    assert endpoints'[i] in endpoints';
  }

  lemma NamingKeepsSettled(s0: Nodes, s: Nodes, i: nat, m: Mac, x: Mac, q: Placement)
    requires i < |s.endpoints| && s.endpoints[i].mac.None? && IsSettled(s0, s, x, q)
    ensures IsSettled(s0, NameEndpoint(s, i, m), x, q)
  {
    hide NodeHas;
    var s' := NameEndpoint(s, i, m);
    var y :| SettlesAt(s.endpoints, s.hosts, s.placed.at, Known(s0.byMac, x), x, q, y);
    NodeStillHas(s, i, m, y, x);
    assert SettlesAt(s'.endpoints, s'.hosts, s'.placed.at, Known(s0.byMac, x), x, q, y);
  }

  function AddHost(s: Nodes, m: Mac, p: Placement): Nodes {
    Move(s.(hosts := s.hosts + [Host(HostNodeId(m), Some(m))]), HostNodeId(m), m, p)
  }

  lemma HostAdded(nodes: seq<RawNode>, devices: seq<string>, s0: Nodes, s: Nodes, m: Mac, p: Placement)
    requires WifiState(nodes, devices, s0, s) && p.parent.Some? && IsClientMac(nodes, m)
    requires OnAccessPoint(nodes, devices, AddHost(s, m, p).endpoints, AddHost(s, m, p).hosts, HostNodeId(m), p)
    requires HostNodeId(m) !in s.placed.at
    ensures WifiState(nodes, devices, s0, AddHost(s, m, p))
  {
    hide NodeHas, OnAccessPoint, Ids, HostNodeId, Placed.Valid, PlacedAreNodes, HostsArePlaced, ReasonsExplain,
      IsClientMac, MovedOnlyUnderAps;
    var s' := AddHost(s, m, p);
    OneMoreHost(Ids(s.endpoints), s.hosts, s.placed.at, m, Some(m), p);
    s.placed.PutIsValid(HostNodeId(m), p);
    ReasonRemoved(Ids(s.endpoints), s.placed.at, s.reasons, HostNodeId(m), p);
    forall id, x | NodeHas(s.endpoints, s.hosts, id, x) ensures NodeHas(s'.endpoints, s'.hosts, id, x) {
      HasMore(s, id, x, Host(HostNodeId(m), Some(m)));
    }
    MoreNodesStayUnderAps(nodes, devices, s.endpoints, s.hosts, s'.endpoints, s'.hosts, s0.placed.at, s.placed.at);
    MoveIsUnderAps(nodes, devices, s'.endpoints, s'.hosts, s0.placed.at, s.placed.at, HostNodeId(m), p);
    MoreClients(nodes, s0.hosts, s.hosts, m);
    HostHas(s, m);
    forall x | x in s'.byMac ensures NodeHas(s'.endpoints, s'.hosts, s'.byMac[x], x) && s'.byMac[x] in s'.placed.at {
      if x != m {
        HasMore(s, s.byMac[x], x, Host(HostNodeId(m), Some(m)));
      }
    }
  }

  lemma MoreClients(nodes: seq<RawNode>, before: seq<Host>, after: seq<Host>, m: Mac)
    requires AddsClients(nodes, before, after) && IsClientMac(nodes, m)
    ensures AddsClients(nodes, before, after + [Host(HostNodeId(m), Some(m))])
  {
    hide HostNodeId, IsClientMac;
  }

  lemma ReasonRemoved(ids: seq<string>, at: map<string, Placement>, reasons: map<string, Reason>, id: string,
                      p: Placement)
    requires ReasonsExplain(ids, at, reasons) && p.parent.Some?
    ensures ReasonsExplain(ids, at[id := p], reasons - {id})
  {
  }

  lemma HasMore(s: Nodes, id: string, x: Mac, h: Host)
    requires NodeHas(s.endpoints, s.hosts, id, x)
    ensures NodeHas(s.endpoints, s.hosts + [h], id, x)
  {
    if g :| g in s.hosts && g.id == id && g.mac == Some(x) {
      assert g in s.hosts + [h];
    }
  }

  lemma HostHas(s: Nodes, m: Mac)
    ensures NodeHas(s.endpoints, s.hosts + [Host(HostNodeId(m), Some(m))], HostNodeId(m), m)
  {
    assert Host(HostNodeId(m), Some(m)) in s.hosts + [Host(HostNodeId(m), Some(m))];
  }

  lemma AddingSettles(s0: Nodes, s: Nodes, m: Mac, p: Placement, x: Mac, q: Placement)
    requires NoRepeats(Ids(s.endpoints)) && NamedAfterMacs(s.hosts) && Known(s0.byMac, m).None?
    requires if x == m then q == p else IsSettled(s0, s, x, q)
    ensures IsSettled(s0, AddHost(s, m, p), x, q)
  {
    hide NodeHas, HostNodeId, Ids, NoRepeats;
    var h := Host(HostNodeId(m), Some(m));
    var s1 := s.(hosts := s.hosts + [h]);
    HostHas(s, m);
    assert NamedAfterMacs(s1.hosts);
    if x != m {
      var y :| SettlesAt(s.endpoints, s.hosts, s.placed.at, Known(s0.byMac, x), x, q, y);
      HasMore(s, y, x, h);
      assert SettlesAt(s1.endpoints, s1.hosts, s1.placed.at, Known(s0.byMac, x), x, q, y);
    }
    MoveSettles(s0, s1, HostNodeId(m), m, p, x, q);
  }

  // ---- new hosts are new ------------------------------------------------------------------

  ghost predicate IsClientMac(nodes: seq<RawNode>, m: Mac) {
    exists n, client :: n in nodes && IsClientOf(n, client) && client.mac == Some(m)
  }

  /** A chassis id that is the text of a client's MAC is read as that MAC. */
  ghost predicate ReadAsMac(nodes: seq<RawNode>) {
    forall n | n in nodes && IsClientMac(nodes, n.chassis) :: n.chassisMac == Some(n.chassis)
  }

  /** A host with a MAC is named after it. */
  ghost predicate NamedAfterMacs(hosts: seq<Host>) {
    forall h | h in hosts && h.mac.Some? :: h.id == HostNodeId(h.mac.value)
  }

  /** And a host named after a client's MAC has that MAC. */
  ghost predicate NamedByMac(nodes: seq<RawNode>, hosts: seq<Host>) {
    && NamedAfterMacs(hosts)
    && forall h, m | h in hosts && IsClientMac(nodes, m) && h.id == HostNodeId(m) :: h.mac == Some(m)
  }

  ghost predicate HostsIndexed(hosts: seq<Host>, byMac: map<Mac, string>) {
    forall h | h in hosts && h.mac.Some? :: h.mac.value in byMac
  }

  lemma EndHostsAreNamed(nodes: seq<RawNode>, raw: map<string, RawNode>, ends: seq<string>, hosts: seq<Host>)
    requires ReadAsMac(nodes) && forall c | c in ends :: c in raw && raw[c] in nodes
    requires |hosts| == |ends| && forall i | 0 <= i < |ends| ::
               hosts[i] == Host(EndHostId(raw, ends[i]), HostMac(raw[ends[i]]))
    ensures NamedByMac(nodes, hosts)
  {
    hide HostNodeId, IsClientMac;
    forall h, m | h in hosts && IsClientMac(nodes, m) && h.id == HostNodeId(m) ensures h.mac == Some(m) {
      var i :| 0 <= i < |hosts| && hosts[i] == h;
      var n := raw[ends[i]];
      HostIdsDiffer(HostKey(n), m);
    }
  }

  lemma TableHostsAreNamed(nodes: seq<RawNode>, known: set<Mac>, t: MacTable, at0: map<string, Placement>,
                           hosts0: seq<Host>, at: map<string, Placement>, hosts: seq<Host>)
    requires (forall m | m in t.macs :: m in t.byMac) && TableHostsUpTo(known, t, |t.macs|, at0, hosts0, at, hosts)
    requires NamedByMac(nodes, hosts0)
    ensures NamedByMac(nodes, hosts)
  {
    hide HostNodeId, IsClientMac;
    forall h, m | h in hosts && IsClientMac(nodes, m) && h.id == HostNodeId(m) ensures h.mac == Some(m) {
      if h !in hosts0 {
        var x :| x in t.byMac && h == Host(HostNodeId(x), Some(x));
        HostIdsDiffer(x, m);
      }
    }
  }

  lemma OneMoreNamed(nodes: seq<RawNode>, hosts: seq<Host>, m: Mac)
    requires NamedByMac(nodes, hosts)
    ensures NamedByMac(nodes, hosts + [Host(HostNodeId(m), Some(m))])
  {
    hide HostNodeId, IsClientMac;
    var hosts' := hosts + [Host(HostNodeId(m), Some(m))];
    forall h, x | h in hosts' && IsClientMac(nodes, x) && h.id == HostNodeId(x) ensures h.mac == Some(x) {
      HostIdsDiffer(m, x);
    }
  }

  lemma NewHostIsNew(nodes: seq<RawNode>, s: Nodes, m: Mac)
    requires Consistent(s) && NamedByMac(nodes, s.hosts) && HostsIndexed(s.hosts, s.byMac)
    requires IsClientMac(nodes, m) && m !in s.byMac
    ensures HostNodeId(m) !in s.placed.at
  {
    hide Ids, HostNodeId, Placed.Valid, IsClientMac;
    NoHostIsAnEndpoint(s.endpoints, m);
    forall h | h in s.hosts ensures h.id != HostNodeId(m) {
    }
  }

  // ---- the loops ------------------------------------------------------------------------

  /** `owners`: the endpoints without a MAC on an address. */
  function Owners(endpoints: seq<Endpoint>, ip: Ip): (owners: seq<nat>)
    ensures forall i: nat :: i in owners <==> i < |endpoints| && endpoints[i].mac.None? && endpoints[i].ip == Some(ip)
  {
    if endpoints == [] then []
    else
      var front, last := endpoints[..|endpoints| - 1], endpoints[|endpoints| - 1];
      assert endpoints == front + [last];
      Owners(front, ip) + if last.mac.None? && last.ip == Some(ip) then [|front|] else []
  }

  method FindOwners(endpoints: seq<Endpoint>, ip: Ip) returns (owners: seq<nat>)
    ensures owners == Owners(endpoints, ip)
  {
    owners := [];
    for i := 0 to |endpoints|
      invariant owners == Owners(endpoints[..i], ip)
    {
      assert endpoints[..i + 1][..i] == endpoints[..i];
      if endpoints[i].mac.None? && endpoints[i].ip == Some(ip) {
        owners := owners + [i];
      }
    }
    assert endpoints[..|endpoints|] == endpoints;
  }

  ghost predicate WifiInv(nodes: seq<RawNode>, devices: seq<string>, s0: Nodes, s: Nodes) {
    && WifiState(nodes, devices, s0, s) && NamedByMac(nodes, s.hosts) && HostsIndexed(s.hosts, s.byMac)
    && KeepsIndex(s0.byMac, s.byMac) && NoRepeats(Ids(s.endpoints))
  }

  /** Each MAC met so far is settled at its last listing. */
  ghost predicate AllSettled(s0: Nodes, s: Nodes, last: map<Mac, Placement>) {
    forall m | m in last :: IsSettled(s0, s, m, last[m])
  }

  function Listing(ap: string, client: Client): Placement {
    Placement(Some(ap), client.radio, Some(Wifi))
  }

  /** The client's node moves under the access point. */
  lemma ClientMoves(nodes: seq<RawNode>, devices: seq<string>, ap: string, client: Client, m: Mac, s0: Nodes,
                    s: Nodes, last: map<Mac, Placement>, id: string)
    requires WifiInv(nodes, devices, s0, s) && (forall x | x in last && x != m :: IsSettled(s0, s, x, last[x]))
    requires ap in devices && client.mac == Some(m)
    requires exists n :: n in nodes && n.chassis == ap && IsClientOf(n, client)
    requires NodeHas(s.endpoints, s.hosts, id, m) && id in s.placed.at && s.placed.at[id].confidence != Some(Lldp)
    requires Known(s.byMac, m).Some? ==> id == s.byMac[m]
    ensures WifiInv(nodes, devices, s0, Move(s, id, m, Listing(ap, client)))
    ensures AllSettled(s0, Move(s, id, m, Listing(ap, client)), last[m := Listing(ap, client)])
  {
    hide NodeHas, OnAccessPoint, Consistent, Indexed, Ids, NoRepeats, NamedAfterMacs, IsClientMac, KeepsMacs,
      AddsClients, MovedOnlyUnderAps, IsSettled;
    var p := Listing(ap, client);
    MoveIsConsistent(s, id, m, p);
    MoveIsIndexed(s, id, m, p);
    ClientSits(nodes, devices, s.endpoints, s.hosts, ap, client, m, id);
    MoveIsUnderAps(nodes, devices, s.endpoints, s.hosts, s0.placed.at, s.placed.at, id, p);
    var after := last[m := p];
    forall x | x in after ensures IsSettled(s0, Move(s, id, m, p), x, after[x]) {
      MoveSettles(s0, s, id, m, p, x, after[x]);
    }
  }

  /** A client nothing else knows is a new host under it. */
  lemma ClientIsNew(nodes: seq<RawNode>, devices: seq<string>, ap: string, client: Client, m: Mac, s0: Nodes,
                    s: Nodes, last: map<Mac, Placement>)
    requires WifiInv(nodes, devices, s0, s) && AllSettled(s0, s, last) && m !in s.byMac
    requires ap in devices && client.mac == Some(m)
    requires exists n :: n in nodes && n.chassis == ap && IsClientOf(n, client)
    ensures WifiInv(nodes, devices, s0, AddHost(s, m, Listing(ap, client)))
    ensures AllSettled(s0, AddHost(s, m, Listing(ap, client)), last[m := Listing(ap, client)])
  {
    hide WifiState, NamedByMac, HostsIndexed, KeepsIndex, NoRepeats, AddHost;
    var p := Listing(ap, client);
    ClientIs(nodes, ap, client, m);
    NewHostSettles(nodes, devices, s0, s, m, p, last);
    NewHostKeepsState(nodes, devices, ap, client, m, s0, s);
    NewHostIsIndexed(nodes, s0.byMac, s, m, p);
  }

  lemma NewHostKeepsState(nodes: seq<RawNode>, devices: seq<string>, ap: string, client: Client, m: Mac, s0: Nodes,
                          s: Nodes)
    requires WifiState(nodes, devices, s0, s) && NamedByMac(nodes, s.hosts)
    requires HostsIndexed(s.hosts, s.byMac) && m !in s.byMac
    requires ap in devices && client.mac == Some(m)
    requires exists n :: n in nodes && n.chassis == ap && IsClientOf(n, client)
    ensures WifiState(nodes, devices, s0, AddHost(s, m, Listing(ap, client)))
    ensures Ids(AddHost(s, m, Listing(ap, client)).endpoints) == Ids(s.endpoints)
  {
    hide Consistent, NodeHas, OnAccessPoint, IsClientMac, NamedByMac, Ids;
    var p := Listing(ap, client);
    ClientIs(nodes, ap, client, m);
    assert Consistent(s);
    NewHostIsNew(nodes, s, m);
    HostHas(s, m);
    ClientSits(nodes, devices, s.endpoints, AddHost(s, m, p).hosts, ap, client, m, HostNodeId(m));
    HostAdded(nodes, devices, s0, s, m, p);
  }

  lemma NewHostIsIndexed(nodes: seq<RawNode>, byMac0: map<Mac, string>, s: Nodes, m: Mac, p: Placement)
    requires NamedByMac(nodes, s.hosts) && HostsIndexed(s.hosts, s.byMac)
    requires KeepsIndex(byMac0, s.byMac) && m !in s.byMac
    ensures NamedByMac(nodes, AddHost(s, m, p).hosts) && HostsIndexed(AddHost(s, m, p).hosts, AddHost(s, m, p).byMac)
    ensures KeepsIndex(byMac0, AddHost(s, m, p).byMac)
  {
    hide NamedByMac, HostNodeId;
    OneMoreNamed(nodes, s.hosts, m);
  }

  lemma NewHostSettles(nodes: seq<RawNode>, devices: seq<string>, s0: Nodes, s: Nodes, m: Mac, p: Placement,
                       last: map<Mac, Placement>)
    requires WifiInv(nodes, devices, s0, s) && AllSettled(s0, s, last) && m !in s.byMac
    ensures AllSettled(s0, AddHost(s, m, p), last[m := p])
  {
    hide IsSettled, WifiState, NoRepeats, Ids, NamedAfterMacs, AddHost;
    var after := last[m := p];
    forall x | x in after ensures IsSettled(s0, AddHost(s, m, p), x, after[x]) {
      AddingSettles(s0, s, m, p, x, after[x]);
    }
  }

  /** An endpoint without a MAC turns out to be the client. */
  lemma ClientIsNamed(nodes: seq<RawNode>, devices: seq<string>, s0: Nodes, s: Nodes, last: map<Mac, Placement>,
                      i: nat, m: Mac)
    requires WifiInv(nodes, devices, s0, s) && AllSettled(s0, s, last) && i < |s.endpoints| && s.endpoints[i].mac.None?
    ensures WifiInv(nodes, devices, s0, NameEndpoint(s, i, m)) && AllSettled(s0, NameEndpoint(s, i, m), last)
    ensures EndpointNodeId(s.endpoints[i].agent) in s.placed.at
    ensures NodeHas(NameEndpoint(s, i, m).endpoints, s.hosts, EndpointNodeId(s.endpoints[i].agent), m)
  {
    hide NodeHas, IsSettled, WifiState, NamedByMac, Ids, NoRepeats, EndpointNodeId;
    NamingKeepsState(nodes, devices, s0, s, i, m);
    SameIds(NameEndpoint(s, i, m).endpoints, s.endpoints);
    forall x | x in last ensures IsSettled(s0, NameEndpoint(s, i, m), x, last[x]) {
      NamingKeepsSettled(s0, s, i, m, x, last[x]);
    }
  }

  /** The indexed node of a MAC has it and is placed. */
  lemma KnownNode(nodes: seq<RawNode>, devices: seq<string>, s0: Nodes, s: Nodes, m: Mac)
    requires WifiInv(nodes, devices, s0, s)
    ensures m in s.byMac ==> NodeHas(s.endpoints, s.hosts, s.byMac[m], m) && s.byMac[m] in s.placed.at
    ensures m in s0.byMac ==> m in s.byMac && s.byMac[m] == s0.byMac[m]
  {
    hide NodeHas, Consistent, MovedOnlyUnderAps, NamedByMac, HostsIndexed, KeepsMacs, AddsClients, Ids, NoRepeats;
  }

  /** One client, its MAC no infrastructure: its node ends on this access point and the
      client's radio, unless LLDP placed it, and no other MAC's node moves. */
  method PlaceClient(nodes: seq<RawNode>, devices: seq<string>, ap: string, client: Client, m: Mac, ghost s0: Nodes,
                     ghost last: map<Mac, Placement>, before: Nodes)
    returns (s: Nodes)
    requires WifiInv(nodes, devices, s0, before) && AllSettled(s0, before, last) && client.mac == Some(m)
    requires exists n :: n in nodes && n.chassis == ap && IsClientOf(n, client)
    requires ap in devices
    ensures WifiInv(nodes, devices, s0, s) && AllSettled(s0, s, last[m := Listing(ap, client)])
  {
    hide WifiInv, NodeHas, IsSettled, EndpointNodeId;
    s := before;
    var p := Listing(ap, client);
    KnownNode(nodes, devices, s0, s, m);
    var node: Option<string> := if m in s.byMac then Some(s.byMac[m]) else None;
    if node.None? && client.ip.Some? {
      var owners := FindOwners(s.endpoints, client.ip.value);
      if |owners| == 1 {
        assert owners[0] in owners;
        ClientIsNamed(nodes, devices, s0, s, last, owners[0], m);
        node := Some(EndpointNodeId(s.endpoints[owners[0]].agent));
        s := NameEndpoint(s, owners[0], m);
      }
    }
    if node.None? {
      ClientIsNew(nodes, devices, ap, client, m, s0, s, last);
      s := AddHost(s, m, p);
    } else if s.placed.at[node.value].confidence == Some(Lldp) {
      StandsSettled(s0, s, node.value, m, p);
    } else {
      ClientMoves(nodes, devices, ap, client, m, s0, s, last, node.value);
      s := Move(s, node.value, m, p);
    }
  }

  lemma StandsSettled(s0: Nodes, s: Nodes, id: string, m: Mac, p: Placement)
    requires NodeHas(s.endpoints, s.hosts, id, m) && id in s.placed.at && s.placed.at[id].confidence == Some(Lldp)
    requires Known(s0.byMac, m).Some? ==> id == s0.byMac[m]
    ensures IsSettled(s0, s, m, p)
  {
    hide NodeHas;
    assert SettlesAt(s.endpoints, s.hosts, s.placed.at, Known(s0.byMac, m), m, p, id);
  }

  lemma ClientIs(nodes: seq<RawNode>, ap: string, client: Client, m: Mac)
    requires client.mac == Some(m) && exists n :: n in nodes && n.chassis == ap && IsClientOf(n, client)
    ensures IsClientMac(nodes, m)
  {
  }

  lemma ClientSits(nodes: seq<RawNode>, devices: seq<string>, endpoints: seq<Endpoint>, hosts: seq<Host>, ap: string,
                   client: Client, m: Mac, id: string)
    requires ap in devices && client.mac == Some(m)
    requires exists n :: n in nodes && n.chassis == ap && IsClientOf(n, client)
    requires NodeHas(endpoints, hosts, id, m)
    ensures OnAccessPoint(nodes, devices, endpoints, hosts, id, Listing(ap, client))
  {
    hide NodeHas;
  }

  /** Where the last of these clients with this MAC sits. */
  function ListedOn(ap: string, clients: seq<Client>, m: Mac): Option<Placement> {
    if clients == [] then None
    else
      var client := clients[|clients| - 1];
      if client.mac == Some(m) then Some(Listing(ap, client)) else ListedOn(ap, clients[..|clients| - 1], m)
  }

  /** Where the last access point of the graph to list this MAC has it. */
  function LastListing(nodes: seq<RawNode>, devices: seq<string>, m: Mac): Option<Placement> {
    if nodes == [] then None
    else
      var n := nodes[|nodes| - 1];
      var lists := n.chassis in devices && n.wifiClients.Some?;
      var here := if lists then ListedOn(n.chassis, n.wifiClients.value, m) else None;
      if here.Some? then here else LastListing(nodes[..|nodes| - 1], devices, m)
  }

  /** A MAC has a last listing exactly when some access point of the graph lists it, and
      that is where it is. */
  lemma {:induction false} LastListingIsAListing(nodes: seq<RawNode>, devices: seq<string>, m: Mac)
    ensures var p := LastListing(nodes, devices, m);
            if p.Some? then
              exists n, client :: IsListed(nodes, devices, m, n, client) && p.value == Listing(n.chassis, client)
            else !exists n, client :: IsListed(nodes, devices, m, n, client)
  {
    if nodes != [] {
      var front, last := nodes[..|nodes| - 1], nodes[|nodes| - 1];
      assert nodes == front + [last];
      LastListingIsAListing(front, devices, m);
      if last.chassis in devices && last.wifiClients.Some? {
        ListedOnIsListed(last.chassis, last.wifiClients.value, m);
        if client :| client in last.wifiClients.value && client.mac == Some(m)
                     && ListedOn(last.chassis, last.wifiClients.value, m) == Some(Listing(last.chassis, client)) {
          assert IsListed(nodes, devices, m, last, client);
        }
      }
      assert forall n, client :: IsListed(nodes, devices, m, n, client) <==>
                                 IsListed(front, devices, m, n, client) || IsListed([last], devices, m, n, client);
    }
  }

  ghost predicate IsListed(nodes: seq<RawNode>, devices: seq<string>, m: Mac, n: RawNode, client: Client) {
    n in nodes && n.chassis in devices && IsClientOf(n, client) && client.mac == Some(m)
  }

  lemma {:induction false} ListedOnIsListed(ap: string, clients: seq<Client>, m: Mac)
    ensures var p := ListedOn(ap, clients, m);
            if p.Some? then
              exists client :: client in clients && client.mac == Some(m) && p == Some(Listing(ap, client))
            else !exists client :: client in clients && client.mac == Some(m)
  {
    if clients != [] {
      var front, last := clients[..|clients| - 1], clients[|clients| - 1];
      assert clients == front + [last];
      ListedOnIsListed(ap, front, m);
    }
  }

  /** The listings of one access point, on top of earlier ones. */
  ghost predicate AddsListings(ap: string, clients: seq<Client>, infra: set<Mac>, before: map<Mac, Placement>,
                               after: map<Mac, Placement>) {
    forall m | m !in infra ::
      Known(after, m) == if ListedOn(ap, clients, m).Some? then ListedOn(ap, clients, m) else Known(before, m)
  }

  lemma OneMoreListing(ap: string, clients: seq<Client>, j: nat, infra: set<Mac>, before: map<Mac, Placement>,
                       after: map<Mac, Placement>)
    requires j < |clients| && AddsListings(ap, clients[..j], infra, before, after)
    ensures var m := clients[j].mac;
            AddsListings(ap, clients[..j + 1], infra, before,
                         if m.None? || m.value in infra then after else after[m.value := Listing(ap, clients[j])])
  {
    assert clients[..j + 1][..j] == clients[..j];
  }

  method PlaceClientsOf(nodes: seq<RawNode>, devices: seq<string>, infra: set<Mac>, n: RawNode, ghost s0: Nodes,
                        ghost last0: map<Mac, Placement>, before: Nodes)
    returns (s: Nodes, ghost last: map<Mac, Placement>)
    requires WifiInv(nodes, devices, s0, before) && AllSettled(s0, before, last0)
    requires n in nodes && n.chassis in devices && n.wifiClients.Some?
    ensures WifiInv(nodes, devices, s0, s) && AllSettled(s0, s, last)
    ensures AddsListings(n.chassis, n.wifiClients.value, infra, last0, last)
  {
    hide WifiInv, AllSettled, AddsListings;
    s, last := before, last0;
    var clients := n.wifiClients.value;
    assert AddsListings(n.chassis, clients[..0], infra, last0, last) by { NoListing(n.chassis, clients, infra, last0); }
    for j := 0 to |clients|
      invariant WifiInv(nodes, devices, s0, s) && AllSettled(s0, s, last)
      invariant AddsListings(n.chassis, clients[..j], infra, last0, last)
    {
      OneMoreListing(n.chassis, clients, j, infra, last0, last);
      var m := clients[j].mac;
      if m.None? || m.value in infra {
        continue;
      }
      assert IsClientOf(n, clients[j]);
      s := PlaceClient(nodes, devices, n.chassis, clients[j], m.value, s0, last, s);
      last := last[m.value := Listing(n.chassis, clients[j])];
    }
    assert clients[..|clients|] == clients;
  }

  lemma NoListing(ap: string, clients: seq<Client>, infra: set<Mac>, last: map<Mac, Placement>)
    ensures AddsListings(ap, clients[..0], infra, last, last)
  {
  }

  /** Each MAC that is no infrastructure is known by its last listing. */
  ghost predicate AreLast(nodes: seq<RawNode>, devices: seq<string>, infra: set<Mac>, last: map<Mac, Placement>) {
    forall m | m !in infra :: Known(last, m) == LastListing(nodes, devices, m)
  }

  lemma OneMoreAccessPoint(nodes: seq<RawNode>, i: nat, devices: seq<string>, infra: set<Mac>,
                           before: map<Mac, Placement>, after: map<Mac, Placement>)
    requires i < |nodes| && AreLast(nodes[..i], devices, infra, before)
    requires if nodes[i].chassis in devices && nodes[i].wifiClients.Some?
             then AddsListings(nodes[i].chassis, nodes[i].wifiClients.value, infra, before, after) else after == before
    ensures AreLast(nodes[..i + 1], devices, infra, after)
  {
    hide ListedOn, Known;
    assert nodes[..i + 1][..i] == nodes[..i];
  }

  /** `_place_wifi_clients`. LLDP placements stand, and every client's node, the indexed one
      if its MAC was known, ends where LLDP or the last access point to list it says. */
  method PlaceWifiClients(nodes: seq<RawNode>, devices: seq<string>, infra: set<Mac>, s0: Nodes) returns (s: Nodes)
    requires WifiInv(nodes, devices, s0, s0)
    ensures WifiInv(nodes, devices, s0, s)
    ensures forall m | m !in infra && LastListing(nodes, devices, m).Some? ::
              IsSettled(s0, s, m, LastListing(nodes, devices, m).value)
  {
    hide WifiInv, IsSettled, LastListing, AddsListings;
    s := s0;
    ghost var last: map<Mac, Placement> := map[];
    assert AreLast(nodes[..0], devices, infra, last) by { NothingListed(nodes, devices, infra); }
    for i := 0 to |nodes|
      invariant WifiInv(nodes, devices, s0, s) && AllSettled(s0, s, last) && AreLast(nodes[..i], devices, infra, last)
    {
      var n := nodes[i];
      ghost var before := last;
      if n.chassis in devices && n.wifiClients.Some? {
        s, last := PlaceClientsOf(nodes, devices, infra, n, s0, last, s);
      }
      OneMoreAccessPoint(nodes, i, devices, infra, before, last);
    }
    assert nodes[..|nodes|] == nodes;
    forall m | m !in infra && LastListing(nodes, devices, m).Some?
      ensures IsSettled(s0, s, m, LastListing(nodes, devices, m).value)
    {
      assert Known(last, m) == LastListing(nodes, devices, m);
    }
  }

  lemma NothingListed(nodes: seq<RawNode>, devices: seq<string>, infra: set<Mac>)
    ensures AreLast(nodes[..0], devices, infra, map[])
  {
  }

  /** Everything stays under devices of the graph. */
  lemma WifiIsKept(raw: map<string, RawNode>, nodes: seq<RawNode>, devices: seq<string>, endpoints: seq<Endpoint>,
                   hosts: seq<Host>, at0: map<string, Placement>, at: map<string, Placement>)
    requires MovedOnlyUnderAps(nodes, devices, endpoints, hosts, at0, at) && IsWhole(raw, devices, at0)
    ensures IsWhole(raw, devices, at)
  {
    forall id | id in at && at[id].parent.Some? ensures at[id].parent.value in devices {
      if !(id in at0 && at[id] == at0[id]) {
        assert OnAccessPoint(nodes, devices, endpoints, hosts, id, at[id]);
      }
    }
  }

  function LastEndpoint(endpoints: seq<Endpoint>, m: Mac): Option<string> {
    if endpoints == [] then None
    else
      var ep := endpoints[|endpoints| - 1];
      if ep.mac == Some(m) then Some(EndpointNodeId(ep.agent)) else LastEndpoint(endpoints[..|endpoints| - 1], m)
  }

  function LastHost(hosts: seq<Host>, m: Mac): Option<string> {
    if hosts == [] then None
    else
      var h := hosts[|hosts| - 1];
      if h.mac == Some(m) then Some(h.id) else LastHost(hosts[..|hosts| - 1], m)
  }

  /** The last node with the MAC, hosts coming after endpoints. */
  function NodeOf(endpoints: seq<Endpoint>, hosts: seq<Host>, m: Mac): Option<string> {
    if LastHost(hosts, m).Some? then LastHost(hosts, m) else LastEndpoint(endpoints, m)
  }

  lemma {:induction false} LastEndpointIsLast(endpoints: seq<Endpoint>, m: Mac)
    ensures LastEndpoint(endpoints, m).None? <==> forall ep | ep in endpoints :: ep.mac != Some(m)
    ensures forall i | 0 <= i < |endpoints| && endpoints[i].mac == Some(m)
                       && (forall j | i < j < |endpoints| :: endpoints[j].mac != Some(m)) ::
              LastEndpoint(endpoints, m) == Some(EndpointNodeId(endpoints[i].agent))
  {
    hide EndpointNodeId;
    if endpoints != [] {
      var front, ep := endpoints[..|endpoints| - 1], endpoints[|endpoints| - 1];
      assert endpoints == front + [ep];
      LastEndpointIsLast(front, m);
      assert forall i | 0 <= i < |front| :: front[i] == endpoints[i];
    }
  }

  lemma {:induction false} LastHostIsLast(hosts: seq<Host>, m: Mac)
    ensures LastHost(hosts, m).None? <==> forall h | h in hosts :: h.mac != Some(m)
    ensures forall i | 0 <= i < |hosts| && hosts[i].mac == Some(m)
                       && (forall j | i < j < |hosts| :: hosts[j].mac != Some(m)) ::
              LastHost(hosts, m) == Some(hosts[i].id)
  {
    if hosts != [] {
      var front, h := hosts[..|hosts| - 1], hosts[|hosts| - 1];
      assert hosts == front + [h];
      LastHostIsLast(front, m);
      assert forall i | 0 <= i < |front| :: front[i] == hosts[i];
    }
  }

  /** A MAC's node is the last host with it; without any, the last endpoint. */
  lemma NodeOfIsTheLast(endpoints: seq<Endpoint>, hosts: seq<Host>, m: Mac)
    ensures NodeOf(endpoints, hosts, m).None?
            <==> (forall ep | ep in endpoints :: ep.mac != Some(m)) && forall h | h in hosts :: h.mac != Some(m)
    ensures forall i | 0 <= i < |hosts| && hosts[i].mac == Some(m)
                       && (forall j | i < j < |hosts| :: hosts[j].mac != Some(m)) ::
              NodeOf(endpoints, hosts, m) == Some(hosts[i].id)
    ensures (forall h | h in hosts :: h.mac != Some(m)) ==>
              forall i | 0 <= i < |endpoints| && endpoints[i].mac == Some(m)
                         && (forall j | i < j < |endpoints| :: endpoints[j].mac != Some(m)) ::
                NodeOf(endpoints, hosts, m) == Some(EndpointNodeId(endpoints[i].agent))
  {
    hide EndpointNodeId, LastEndpoint, LastHost;
    LastEndpointIsLast(endpoints, m);
    LastHostIsLast(hosts, m);
    forall i | 0 <= i < |hosts| && hosts[i].mac == Some(m) ensures LastHost(hosts, m).Some? {
      assert hosts[i] in hosts;
    }
  }

  lemma NoHostYet(endpoints: seq<Endpoint>, hosts: seq<Host>)
    ensures forall m :: NodeOf(endpoints, hosts[..0], m) == LastEndpoint(endpoints, m)
  {
  }

  lemma OneMoreNode(endpoints: seq<Endpoint>, hosts: seq<Host>, i: nat, m: Mac)
    requires i < |hosts|
    ensures NodeOf(endpoints, hosts[..i + 1], m)
            == if hosts[i].mac == Some(m) then Some(hosts[i].id) else NodeOf(endpoints, hosts[..i], m)
  {
    assert hosts[..i + 1][..i] == hosts[..i];
  }

  /** `by_mac` over the endpoints and the hosts. */
  method IndexNodes(endpoints: seq<Endpoint>, hosts: seq<Host>) returns (byMac: map<Mac, string>)
    ensures forall m :: Known(byMac, m) == NodeOf(endpoints, hosts, m)
    ensures forall m | m in byMac :: NodeHas(endpoints, hosts, byMac[m], m)
    ensures HostsIndexed(hosts, byMac)
  {
    hide EndpointNodeId;
    byMac := map[];
    for i := 0 to |endpoints|
      invariant forall m :: Known(byMac, m) == LastEndpoint(endpoints[..i], m)
      invariant forall m | m in byMac :: NodeHas(endpoints, hosts, byMac[m], m)
    {
      assert endpoints[..i + 1][..i] == endpoints[..i];
      if endpoints[i].mac.Some? {
        assert endpoints[i] in endpoints;
        byMac := byMac[endpoints[i].mac.value := EndpointNodeId(endpoints[i].agent)];
      }
    }
    assert endpoints[..|endpoints|] == endpoints;
    NoHostYet(endpoints, hosts);
    for i := 0 to |hosts|
      invariant forall m :: Known(byMac, m) == NodeOf(endpoints, hosts[..i], m)
      invariant forall m | m in byMac :: NodeHas(endpoints, hosts, byMac[m], m)
      invariant forall k | 0 <= k < i && hosts[k].mac.Some? :: hosts[k].mac.value in byMac
    {
      forall m
        ensures NodeOf(endpoints, hosts[..i + 1], m)
                == if hosts[i].mac == Some(m) then Some(hosts[i].id) else NodeOf(endpoints, hosts[..i], m)
      {
        OneMoreNode(endpoints, hosts, i, m);
      }
      if hosts[i].mac.Some? {
        assert hosts[i] in hosts;
        byMac := byMac[hosts[i].mac.value := hosts[i].id];
      }
    }
    assert hosts[..|hosts|] == hosts;
  }

  lemma IndexedNodesArePlaced(endpoints: seq<Endpoint>, hosts: seq<Host>, at: map<string, Placement>, id: string,
                              m: Mac)
    requires NodeHas(endpoints, hosts, id, m) && HostsArePlaced(hosts, at) && forall x | x in Ids(endpoints) :: x in at
    ensures id in at
  {
    if ep :| ep in endpoints && EndpointNodeId(ep.agent) == id {
      var i :| 0 <= i < |endpoints| && endpoints[i] == ep;
      assert Ids(endpoints)[i] == id;
    }
  }
}
