/** The assembly of the graph, step by step: `GraphAssembler` and its fields. Each method
    applies one step to the fields, and says what it leaves of the devices, the links, the
    placements and the hosts, and that parents stay devices of the graph. */
module Assembler {
  import opened AssemblyHosts
  import opened AssemblyLate
  import opened AssemblyPlacement
  import opened AssemblyResult
  import opened AssemblySteps
  import opened AssemblyWifi
  import opened MacTables
  import opened Sequences
  import opened Wrappers

  /** The nodes of the document by chassis id, in order; the last of each id counts. */
  method IndexRaw(nodes: seq<RawNode>) returns (order: seq<string>, raw: map<string, RawNode>)
    ensures NoRepeats(order) && forall c :: c in order <==> c in raw
    ensures forall c | c in raw :: raw[c] in nodes && raw[c].chassis == c
    ensures forall n | n in nodes :: n.chassis in raw
  {
    order, raw := [], map[];
    for i := 0 to |nodes|
      invariant NoRepeats(order) && forall c :: c in order <==> c in raw
      invariant forall c | c in raw :: raw[c] in nodes && raw[c].chassis == c
      invariant forall k | 0 <= k < i :: nodes[k].chassis in raw
    {
      order := if nodes[i].chassis in raw then order else order + [nodes[i].chassis];
      raw := raw[nodes[i].chassis := nodes[i]];
    }
  }

  ghost predicate TableHostsAdded(known: set<Mac>, t: MacTable, at0: map<string, Placement>, hosts0: seq<Host>,
                                  at: map<string, Placement>, hosts: seq<Host>) {
    (forall m | m in t.macs :: m in t.byMac) && TableHostsUpTo(known, t, |t.macs|, at0, hosts0, at, hosts)
  }

  /** `_add_table_hosts` on what it reads. */
  method HostsFromTables(nodes: seq<RawNode>, ghost edges: seq<RawEdge>, raw: map<string, RawNode>,
                         devices: seq<string>, endpoints: seq<Endpoint>, t: MacTable, before: Placed,
                         ghost reasons: map<string, Reason>, hosts0: seq<Host>)
    returns (ghost known: set<Mac>, placed: Placed, hosts: seq<Host>)
    requires (forall c | c in devices :: c in raw) && IsTable(nodes, t) && before.Valid()
    requires PlacedAreNodes(Ids(endpoints), hosts0, before.at) && HostsArePlaced(hosts0, before.at)
    requires NamedByMac(nodes, hosts0)
    requires ReasonsExplain(Ids(endpoints), before.at, reasons)
    ensures placed.Valid() && PlacedAreNodes(Ids(endpoints), hosts, placed.at) && HostsArePlaced(hosts, placed.at)
    ensures NamedByMac(nodes, hosts)
    ensures ReasonsExplain(Ids(endpoints), placed.at, reasons) && forall id | id in before.at :: id in placed.at
    ensures forall m :: m in known <==> IsKnown(raw, devices, endpoints, hosts0, t, m)
    ensures TableHostsAdded(known, t, before.at, hosts0, placed.at, hosts)
    ensures forall id | id in Ids(endpoints) && id in before.at :: id in placed.at && placed.at[id] == before.at[id]
    ensures PolledSources(raw, edges, t) && IsWhole(raw, devices, before.at) ==> IsWhole(raw, devices, placed.at)
  {
    hide IsTable, IsWhole, Ids, ReasonsExplain, NoRepeats, Placed.Valid, PlacedAreNodes, HostsArePlaced, NamedByMac,
      IsKnown, TableHostsUpTo, PolledSources;
    ByIpIsInTable(nodes, t);
    var macs := KnownMacs(raw, devices, endpoints, hosts0, t);
    known := macs;
    placed, hosts := PlaceTableHosts(macs, t, Ids(endpoints), before, hosts0);
    TableHostsAreKept(raw, endpoints, edges, devices, macs, t, before.at, hosts0, placed.at, hosts, reasons);
    TableHostsAreNamed(nodes, macs, t, before.at, hosts0, placed.at, hosts);
    EarlierStayPlaced(macs, t, before.at, hosts0, placed.at, hosts);
  }

  class GraphAssembler {
    const rawNodes: seq<RawNode>
    const rawEdges: seq<RawEdge>
    const raw: map<string, RawNode>
    const table: MacTable
    var devices: seq<string>
    var endpoints: seq<Endpoint>
    var parentOf: Placed
    var reasons: map<string, Reason>
    var phantoms: set<string>
    var links: seq<(string, string)>
    var hosts: seq<Host>

    ghost predicate Valid()
      reads this
    {
      && NoRepeats(devices) && (forall c | c in devices :: c in raw)
      && parentOf.Valid() && NoRepeats(Ids(endpoints)) && IsTable(rawNodes, table)
    }

    /** If nothing polled was merged, polled devices are still there and every parent is. */
    ghost predicate Sound()
      reads this
    {
      IsTrusted(raw, rawEdges, table, phantoms) ==> IsWhole(raw, devices, parentOf.at)
    }

    /** Every endpoint sits right, given what was known of it and the devices left when
        the ladder placed it. */
    ghost predicate PlacedRight(known: seq<Endpoint>, before: seq<string>)
      reads this
      requires Valid()
    {
      && KeepsMacs(known, endpoints) && (forall c | c in devices :: c in before)
      && AllPlacedRight(raw, rawEdges, table, before, devices, phantoms, known, endpoints, parentOf.at)
      && MachinesSit(raw, rawEdges, devices, phantoms, known, endpoints, parentOf.at)
    }

    /** All endpoints are placed, and nothing else yet. */
    ghost predicate EndpointsArePlaced()
      reads this
    {
      && (forall id | id in parentOf.at :: id in Ids(endpoints))
      && (forall id | id in Ids(endpoints) :: id in parentOf.at)
      && ReasonsExplain(Ids(endpoints), parentOf.at, reasons)
    }

    constructor (table: MacTable, order: seq<string>, raw: map<string, RawNode>, nodes: seq<RawNode>,
                 edges: seq<RawEdge>, agents: seq<Endpoint>)
      requires IsTable(nodes, table) && NoRepeats(Ids(agents))
      requires NoRepeats(order) && forall c :: c in order <==> c in raw
      ensures Valid() && this.table == table && this.raw == raw && rawNodes == nodes && rawEdges == edges
      ensures devices == order && endpoints == agents && parentOf == Placed([], map[]) && phantoms == {}
      ensures KeepsPolled(raw, devices)
      ensures links == [] && hosts == [] && reasons == map[]
    {
      this.table, this.raw, rawNodes, rawEdges := table, raw, nodes, edges;
      devices, endpoints, parentOf, phantoms := order, agents, Placed([], map[]), {};
      reasons, links, hosts := map[], [], [];
    }

    /** Rung 1: the devices that are agents' machines become their endpoints. */
    method MergeLldpPhantoms()
      requires Valid() && parentOf == Placed([], map[]) && phantoms == {} && KeepsPolled(raw, devices)
      modifies `devices, `parentOf, `phantoms
      ensures Valid() && Sound()
      ensures forall c :: c in phantoms <==> IsPhantom(raw, endpoints, rawEdges, old(devices), c)
      ensures devices == Without(old(devices), phantoms)
      ensures MergedInto(raw, endpoints, rawEdges, phantoms, parentOf.at)
      ensures forall c | c in phantoms :: AgentIsPlaced(raw, endpoints, parentOf.at, c)
    {
      hide IsTrusted, IsWhole, KeepsPolled, IsPhantom, Ids, IsTable;
      var merged, placed := FindPhantoms(raw, endpoints, rawEdges, devices);
      if IsTrusted(raw, rawEdges, table, merged) {
        MergedIsWhole(raw, endpoints, rawEdges, table, devices, merged, placed.at);
      }
      devices, parentOf, phantoms := Without(devices, merged), placed, merged;
    }

    /** The links between the devices left. */
    method LinkDevices()
      modifies `links
      ensures links == LinksBetween(rawEdges, devices)
    {
      links := LinkThem(rawEdges, devices);
    }

    /** Rungs 2 and 3, for the endpoints rung 1 left. */
    method PlaceFromTables()
      requires Valid() && Sound() && reasons == map[]
      requires forall id | id in parentOf.at :: id in Ids(endpoints) && parentOf.at[id].parent.Some?
      requires MergedInto(raw, endpoints, rawEdges, phantoms, parentOf.at)
      requires forall c | c in phantoms :: AgentIsPlaced(raw, endpoints, parentOf.at, c)
      modifies `endpoints, `parentOf, `reasons
      ensures Valid() && Sound() && EndpointsArePlaced() && Ids(endpoints) == old(Ids(endpoints))
      ensures endpoints == EnrichedAll(old(endpoints), table) && PlacedRight(endpoints, devices)
      ensures PlacedUpTo(raw, old(endpoints), table, devices, old(parentOf.at), old(|endpoints|), parentOf.at, reasons)
    {
      hide IsTrusted, IsWhole, Ids, PlacedUpTo, NoRepeats, Placed.Valid, MergedInto, AllPlacedRight, MachinesSit,
        AgentIsPlaced, KeepsMacs, IsTable;
      ByIpIsInTable(rawNodes, table);
      var eps, placed, why := PlaceEndpoints(raw, endpoints, table, devices, parentOf);
      if IsTrusted(raw, rawEdges, table, phantoms) {
        LadderIsWhole(raw, endpoints, rawEdges, table, devices, phantoms, parentOf.at, placed.at, why);
      }
      LadderIsExplained(raw, endpoints, table, devices, parentOf.at, placed.at, why);
      OnlyEndpointsByLadder(raw, endpoints, table, devices, parentOf.at, placed.at, why);
      LadderPlacesRight(raw, rawEdges, table, devices, phantoms, endpoints, parentOf.at, eps, placed.at, why);
      EnrichingKeepsMacs(endpoints, table);
      EarlierStay(raw, endpoints, table, devices, parentOf.at, placed.at, why);
      LadderLetsMachinesSit(raw, rawEdges, devices, phantoms, endpoints, parentOf.at, eps, placed.at);
      SameMacs(eps);
      endpoints, parentOf, reasons := eps, placed, why;
    }

    /** `_retire_devices`: nothing but endpoints hangs off what is dropped. */
    method RetireDevices(gone: set<string>)
      requires Valid() && OnlyEndpointsOn(endpoints, gone, parentOf.at)
      requires ReasonsExplain(Ids(endpoints), parentOf.at, reasons)
      modifies `devices, `parentOf, `links, `reasons
      ensures Valid() && ReasonsExplain(Ids(endpoints), parentOf.at, reasons)
      ensures devices == Without(old(devices), gone) && links == LinksWithout(old(links), gone)
      ensures parentOf.order == old(parentOf.order) && parentOf.at.Keys == old(parentOf.at).Keys
      ensures AreRetired(raw, endpoints, devices, gone, old(parentOf.at), parentOf.at)
      ensures IsWhole(raw, old(devices), old(parentOf.at)) && NoneWasPolled(raw, gone) ==>
                IsWhole(raw, devices, parentOf.at)
    {
      hide IsTable, IsWhole, Ids, AreRetired, ReasonsExplain, NoneWasPolled, NoRepeats;
      var left := Without(devices, gone);
      var placed, why := ReplaceRetired(raw, endpoints, left, gone, parentOf, reasons);
      if IsWhole(raw, devices, parentOf.at) && NoneWasPolled(raw, gone) {
        RetiringKeepsWhole(raw, endpoints, devices, gone, parentOf.at, placed.at);
      }
      SameKeysStayValid(parentOf, placed);
      devices, links, parentOf, reasons := left, LinksWithout(links, gone), placed, why;
    }

    /** The second pass of rung 1, over the MACs gained meanwhile: no endpoint's device is
        missed, and each that is merged is a phantom of the endpoints as they are now. */
    method MergeLatePhantoms() returns (ghost late: set<string>)
      requires Valid() && Sound() && EndpointsArePlaced() && PlacedRight(endpoints, devices)
      modifies `devices, `endpoints, `parentOf, `reasons, `phantoms, `links
      ensures Valid() && Sound() && EndpointsArePlaced() && Ids(endpoints) == old(Ids(endpoints))
      ensures PlacedRight(old(endpoints), old(devices))
      ensures phantoms == old(phantoms) + late
      ensures devices == Without(old(devices), late) && links == LinksWithout(old(links), late)
      ensures LateMergesRight(raw, rawEdges, table, old(devices), late, old(endpoints), endpoints, parentOf.at)
    {
      hide Without, LinksWithout, IsTable, IsWhole, Ids, ReasonsExplain, IsTrusted, NoRepeats, AreRetired,
        Placed.Valid, LateUpTo, OnlyEndpointsOn, AllPlacedRight, MachinesSit, KeepsMacs, LateMergesRight,
        NoneWasPolled;
      ghost var known, before, at0 := endpoints, devices, parentOf.at;
      var merged := TakeLate();
      late := merged;
      ghost var at := parentOf.at;
      RetireDevices(merged);
      RetiringIsRight(raw, rawEdges, table, before, before, late, phantoms, known, endpoints, at, parentOf.at);
      LateEndsRight(raw, rawEdges, table, before, known, at0, late, endpoints, at, parentOf.at);
    }

    /** Its loop, before the devices are dropped. */
    method TakeLate() returns (late: set<string>)
      requires Valid() && Sound() && EndpointsArePlaced() && PlacedRight(endpoints, devices)
      modifies `endpoints, `parentOf, `reasons, `phantoms
      ensures Valid() && EndpointsArePlaced() && PlacedRight(old(endpoints), devices)
      ensures Ids(endpoints) == old(Ids(endpoints)) && phantoms == old(phantoms) + late
      ensures (forall c | c in late :: c in devices) && OnlyEndpointsOn(endpoints, late, parentOf.at)
      ensures IsTrusted(raw, rawEdges, table, phantoms) ==>
                IsWhole(raw, devices, parentOf.at) && NoneWasPolled(raw, late)
      ensures LateUpTo(raw, rawEdges, table, devices, old(endpoints), old(parentOf.at), |old(endpoints)|, late,
                       endpoints, parentOf.at)
    {
      hide IsTable, IsWhole, Ids, ReasonsExplain, IsTrusted, NoRepeats, Placed.Valid, LateUpTo, OnlyEndpointsOn,
        AllPlacedRight, MachinesSit, KeepsMacs, NoneWasPolled;
      var eps, placed, why;
      late, eps, placed, why := FindLate(raw, endpoints, rawEdges, table, devices, parentOf, reasons);
      LateIsRight(raw, rawEdges, table, devices, phantoms, endpoints, parentOf.at, late, eps, placed.at);
      endpoints, parentOf, reasons, phantoms := eps, placed, why, phantoms + late;
    }

    /** Neighbours no agent claimed that are no equipment become hosts, where they were
        announced if that is a device left. */
    method AddLldpEndHosts(ghost known: seq<Endpoint>, ghost before: seq<string>)
      requires Valid() && Sound() && EndpointsArePlaced() && hosts == [] && PlacedRight(known, before)
      requires (forall c | c in raw :: raw[c] in rawNodes) && ReadAsMac(rawNodes)
      modifies `devices, `parentOf, `reasons, `links, `hosts
      ensures Valid() && Sound() && NodesArePlaced() && NamedByMac(rawNodes, hosts) && PlacedRight(known, before)
      ensures var ends := EndHosts(raw, old(devices));
              && devices == Without(old(devices), Members(ends)) && links == LinksWithout(old(links), Members(ends))
              && |hosts| == |ends| && (forall i | 0 <= i < |hosts| :: hosts[i] == HostOf(raw, ends[i]))
              && forall id | id in parentOf.at && id !in Ids(endpoints) ::
                   exists c :: c in ends && EndHostId(raw, c) == id
                               && parentOf.at[id] == AnnouncedAt(rawEdges, devices, [], c)
    {
      hide Without, LinksWithout, IsTable, IsWhole, Ids, ReasonsExplain, IsTrusted, NoRepeats, AreRetired,
        Placed.Valid, OnlyEndpointsOn, IsEndHost, HostKey, EndHostsUpTo, PlacedAreNodes, HostsArePlaced, NamedByMac,
        ReadAsMac, AllPlacedRight, MachinesSit, KeepsMacs, AnnouncedAt, EndHostId;
      ghost var was, at0 := devices, parentOf.at;
      var ends := TakeEndHosts(known, before);
      ghost var at := parentOf.at;
      RetireDevices(Members(ends));
      SameKeysStayPlaced(Ids(endpoints), hosts, at, parentOf.at);
      RetiringIsRight(raw, rawEdges, table, before, was, Members(ends), phantoms, known, endpoints, at, parentOf.at);
      HostsStayAnnounced(raw, rawEdges, endpoints, was, ends, at0, at, parentOf.at);
    }

    /** Its loop, before the devices are dropped. */
    method TakeEndHosts(ghost known: seq<Endpoint>, ghost before: seq<string>) returns (ends: seq<string>)
      requires Valid() && Sound() && EndpointsArePlaced() && hosts == [] && PlacedRight(known, before)
      requires (forall c | c in raw :: raw[c] in rawNodes) && ReadAsMac(rawNodes)
      modifies `parentOf, `hosts
      ensures Valid() && Sound() && PlacedRight(known, before) && NamedByMac(rawNodes, hosts)
      ensures ends == EndHosts(raw, devices) && (forall c | c in ends :: c in raw) && NoneWasPolled(raw, Members(ends))
      ensures |hosts| == |ends| && forall i | 0 <= i < |hosts| :: hosts[i] == HostOf(raw, ends[i])
      ensures EndHostsUpTo(raw, rawEdges, devices, ends, old(parentOf.at), |ends|, parentOf.at)
      ensures PlacedAreNodes(Ids(endpoints), hosts, parentOf.at) && HostsArePlaced(hosts, parentOf.at)
      ensures (forall c | c in Members(ends) :: c in devices) && OnlyEndpointsOn(endpoints, Members(ends), parentOf.at)
      ensures ReasonsExplain(Ids(endpoints), parentOf.at, reasons)
      ensures forall id | id in old(parentOf.at) :: id in parentOf.at && parentOf.at[id] == old(parentOf.at)[id]
    {
      hide IsTable, IsWhole, Ids, ReasonsExplain, IsTrusted, NoRepeats, Placed.Valid, OnlyEndpointsOn, IsEndHost,
        HostKey, EndHostsUpTo, PlacedAreNodes, HostsArePlaced, NamedByMac, ReadAsMac, AllPlacedRight, MachinesSit,
        KeepsMacs, AnnouncedAt, EndHostId, NoneWasPolled;
      var placed, announced;
      ends, placed, announced := PlaceEndHosts(raw, rawEdges, devices, Ids(endpoints), parentOf);
      EndHostsAreKept(raw, endpoints, rawEdges, devices, ends, parentOf.at, placed.at, reasons);
      NoEndHostWasPolled(raw, devices);
      EndHostsAreNamed(rawNodes, raw, ends, announced);
      RightUntouched(raw, rawEdges, table, before, devices, phantoms, known, endpoints, parentOf.at, placed.at);
      MachinesUntouched(raw, rawEdges, devices, phantoms, known, endpoints, parentOf.at, placed.at);
      parentOf, hosts := placed, announced;
    }

    /** Endpoints and hosts are placed, nothing else is, and the unplaced endpoints explained. */
    ghost predicate NodesArePlaced()
      reads this
    {
      && PlacedAreNodes(Ids(endpoints), hosts, parentOf.at) && HostsArePlaced(hosts, parentOf.at)
      && (forall id | id in Ids(endpoints) :: id in parentOf.at)
      && ReasonsExplain(Ids(endpoints), parentOf.at, reasons)
    }

    /** Each MAC of the tables that is not yet known gets a host at its row's port. */
    method AddTableHosts() returns (ghost known: set<Mac>)
      requires Valid() && Sound() && NodesArePlaced() && NamedByMac(rawNodes, hosts)
      modifies `parentOf, `hosts
      ensures Valid() && Sound() && NodesArePlaced() && NamedByMac(rawNodes, hosts)
      ensures forall m :: m in known <==> IsKnown(raw, devices, endpoints, old(hosts), table, m)
      ensures TableHostsAdded(known, table, old(parentOf.at), old(hosts), parentOf.at, hosts)
      ensures forall id | id in Ids(endpoints) && id in old(parentOf.at) ::
                id in parentOf.at && parentOf.at[id] == old(parentOf.at)[id]
    {
      hide IsTable, IsWhole, Ids, ReasonsExplain, NoRepeats, Placed.Valid, PlacedAreNodes, HostsArePlaced,
        NamedByMac, IsKnown, TableHostsAdded, PolledSources, NoneWasPolled;
      var placed, found;
      known, placed,
        found := HostsFromTables(rawNodes, rawEdges, raw, devices, endpoints, table, parentOf, reasons, hosts);
      parentOf, hosts := placed, found;
    }

    /** Clients of the access points move under them. */
    method PlaceClients()
      requires Valid() && Sound() && NodesArePlaced() && NamedByMac(rawNodes, hosts)
      modifies `endpoints, `parentOf, `reasons, `hosts
      ensures Valid() && Sound() && NodesArePlaced() && Ids(endpoints) == old(Ids(endpoints))
      ensures MovedOnlyUnderAps(rawNodes, devices, endpoints, hosts, old(parentOf.at), parentOf.at)
      ensures KeepsMacs(old(endpoints), endpoints) && AddsClients(rawNodes, old(hosts), hosts)
      ensures forall m | m !in table.infra && LastListing(rawNodes, devices, m).Some? ::
                IsSettledAt(endpoints, hosts, parentOf.at, NodeOf(old(endpoints), old(hosts), m), m,
                            LastListing(rawNodes, devices, m).value)
    {
      hide IsTable, IsWhole, Ids, ReasonsExplain, NoRepeats, Placed.Valid, PlacedAreNodes, HostsArePlaced,
        NamedByMac, IsTrusted, MovedOnlyUnderAps, IsSettledAt, NodeHas, LastListing, NodeOf, AddsClients, KeepsMacs;
      var byMac := IndexNodes(endpoints, hosts);
      var s0 := Nodes(endpoints, hosts, parentOf, reasons, byMac);
      StartsSettled(rawNodes, devices, s0);
      var s := PlaceWifiClients(rawNodes, devices, table.infra, s0);
      if IsTrusted(raw, rawEdges, table, phantoms) {
        WifiIsKept(raw, rawNodes, devices, s.endpoints, s.hosts, parentOf.at, s.placed.at);
      }
      endpoints, parentOf, reasons, hosts := s.endpoints, s.placed, s.reasons, s.hosts;
    }
  }

  lemma StartsSettled(nodes: seq<RawNode>, devices: seq<string>, s: Nodes)
    requires Consistent(s) && NamedByMac(nodes, s.hosts) && HostsIndexed(s.hosts, s.byMac)
    requires (forall m | m in s.byMac :: NodeHas(s.endpoints, s.hosts, s.byMac[m], m)) && NoRepeats(Ids(s.endpoints))
    ensures WifiInv(nodes, devices, s, s)
  {
    hide NoRepeats, NodeHas, NamedByMac, Placed.Valid, Ids, ReasonsExplain, PlacedAreNodes, HostsArePlaced;
    forall m | m in s.byMac ensures s.byMac[m] in s.placed.at {
      IndexedNodesArePlaced(s.endpoints, s.hosts, s.placed.at, s.byMac[m], m);
    }
  }

  lemma SameKeysStayPlaced(ids: seq<string>, hosts: seq<Host>, before: map<string, Placement>,
                           after: map<string, Placement>)
    requires PlacedAreNodes(ids, hosts, before) && HostsArePlaced(hosts, before)
    requires forall id :: id in after <==> id in before
    ensures PlacedAreNodes(ids, hosts, after) && HostsArePlaced(hosts, after)
    ensures forall h | h in hosts :: h.id in after
  {
    hide IsHost;
  }

  lemma EarlierStayPlaced(known: set<Mac>, t: MacTable, at0: map<string, Placement>, hosts0: seq<Host>,
                          at: map<string, Placement>, hosts: seq<Host>)
    requires (forall m | m in t.macs :: m in t.byMac) && TableHostsUpTo(known, t, |t.macs|, at0, hosts0, at, hosts)
    ensures forall id | id in at0 :: id in at
  {
  }

  lemma ByIpIsInTable(nodes: seq<RawNode>, t: MacTable)
    requires IsTable(nodes, t)
    ensures (forall ip | ip in t.byIp :: t.byIp[ip] in t.byMac) && (forall m | m in t.macs :: m in t.byMac)
  {
    hide IsFact, IsInfra, NoRepeats;
  }

  lemma OnlyEndpointsByLadder(raw: map<string, RawNode>, endpoints: seq<Endpoint>, t: MacTable, devices: seq<string>,
                              at0: map<string, Placement>, at: map<string, Placement>, reasons: map<string, Reason>)
    requires (forall c | c in devices :: c in raw) && forall id | id in at0 :: id in Ids(endpoints)
    requires PlacedUpTo(raw, endpoints, t, devices, at0, |endpoints|, at, reasons)
    ensures forall id | id in at :: id in Ids(endpoints)
  {
    hide ByLadder;
    assert Ids(endpoints)[..|endpoints|] == Ids(endpoints);
  }

  lemma EarlierStay(raw: map<string, RawNode>, endpoints: seq<Endpoint>, t: MacTable, devices: seq<string>,
                    at0: map<string, Placement>, at: map<string, Placement>, reasons: map<string, Reason>)
    requires (forall c | c in devices :: c in raw)
    requires PlacedUpTo(raw, endpoints, t, devices, at0, |endpoints|, at, reasons)
    ensures forall id | id in at0 :: id in at && at[id] == at0[id]
  {
    hide ByLadder;
  }

  lemma SameKeysStayValid(before: Placed, after: Placed)
    requires before.Valid() && after.order == before.order && forall id :: id in after.at <==> id in before.at
    ensures after.Valid()
  {
  }

  lemma FewerAreTrusted(raw: map<string, RawNode>, edges: seq<RawEdge>, t: MacTable, merged: set<string>,
                        more: set<string>)
    requires IsTrusted(raw, edges, t, more) && merged <= more
    ensures IsTrusted(raw, edges, t, merged)
  {
    hide PolledSources, Polled;
  }

  lemma LateFacts(raw: map<string, RawNode>, edges: seq<RawEdge>, t: MacTable, devices: seq<string>,
                  endpoints0: seq<Endpoint>, at0: map<string, Placement>, late: set<string>, endpoints: seq<Endpoint>,
                  at: map<string, Placement>)
    requires forall c | c in devices :: c in raw
    requires LateUpTo(raw, edges, t, devices, endpoints0, at0, |endpoints0|, late, endpoints, at)
    ensures at.Keys == at0.Keys && forall ep | ep in endpoints0 :: IsNotMissed(raw, ep, edges, t, devices, late)
  {
    hide IsSame, IsMerged, IsNotMissed, CanMerge;
  }

  /** Some endpoint has the merged device's MAC, and sits where it was announced unless the
      announcer was merged too. */
  ghost predicate SitsWhereAnnounced(raw: map<string, RawNode>, edges: seq<RawEdge>, t: MacTable,
                                     devices: seq<string>, late: set<string>, endpoints0: seq<Endpoint>,
                                     endpoints: seq<Endpoint>, at: map<string, Placement>, c: string)
    requires |endpoints| == |endpoints0| && forall d | d in devices :: d in raw
  {
    exists j :: 0 <= j < |endpoints0| && SitsAsMerged(raw, edges, t, devices, late, endpoints0[j], endpoints[j], at, c)
  }

  ghost predicate SitsAsMerged(raw: map<string, RawNode>, edges: seq<RawEdge>, t: MacTable, devices: seq<string>,
                               late: set<string>, before: Endpoint, after: Endpoint, at: map<string, Placement>,
                               c: string)
    requires forall d | d in devices :: d in raw
  {
    var id := EndpointNodeId(before.agent);
    && LateDevice(raw, before, t, devices) == Some(c) && after == before.(mac := raw[c].chassisMac) && id in at
    && (SwitchOf(c, edges).Some? && SwitchOf(c, edges).value !in late ==>
          (at[id].parent, at[id].port) == LldpSwitchAndPort(c, edges))
  }

  lemma LateIsRight(raw: map<string, RawNode>, edges: seq<RawEdge>, t: MacTable, devices: seq<string>,
                    merged: set<string>, endpoints0: seq<Endpoint>, at0: map<string, Placement>, late: set<string>,
                    endpoints: seq<Endpoint>, at: map<string, Placement>)
    requires forall d | d in devices :: d in raw
    requires AllPlacedRight(raw, edges, t, devices, devices, merged, endpoints0, endpoints0, at0)
    requires MachinesSit(raw, edges, devices, merged, endpoints0, endpoints0, at0)
    requires LateUpTo(raw, edges, t, devices, endpoints0, at0, |endpoints0|, late, endpoints, at)
    requires Ids(endpoints) == Ids(endpoints0) && forall id | id in at0 :: id in Ids(endpoints0)
    requires IsTrusted(raw, edges, t, merged) ==> IsWhole(raw, devices, at0)
    ensures IsTrusted(raw, edges, t, merged + late) ==> IsWhole(raw, devices, at) && NoneWasPolled(raw, late)
    ensures OnlyEndpointsOn(endpoints, late, at)
    ensures AllPlacedRight(raw, edges, t, devices, devices, merged + late, endpoints0, endpoints, at)
    ensures MachinesSit(raw, edges, devices, merged + late, endpoints0, endpoints, at)
    ensures at.Keys == at0.Keys && KeepsMacs(endpoints0, endpoints) && forall c | c in late :: c in devices
  {
    hide AllPlacedRight, MachinesSit, LateUpTo, KeepsMacs, IsPhantom, IsNotMissed, IsTrusted, IsWhole,
      NoneWasPolled, OnlyEndpointsOn, Ids;
    if IsTrusted(raw, edges, t, merged + late) {
      FewerAreTrusted(raw, edges, t, merged, merged + late);
      LateIsWhole(raw, edges, t, devices, endpoints0, at0, merged, late, endpoints, at);
    }
    LateArePhantoms(raw, edges, t, devices, endpoints0, at0, late, endpoints, at);
    LateFacts(raw, edges, t, devices, endpoints0, at0, late, endpoints, at);
    LatePlacesRight(raw, edges, t, devices, merged, endpoints0, at0, late, endpoints, at);
    LateLetsMachinesSit(raw, edges, t, devices, merged, endpoints0, at0, late, endpoints, at);
    PhantomsAreDevices(raw, endpoints, edges, devices, late);
    SameEndpointsOn(endpoints, late, at);
  }

  lemma RetiringIsRight(raw: map<string, RawNode>, edges: seq<RawEdge>, t: MacTable, before: seq<string>,
                        devices: seq<string>, gone: set<string>, merged: set<string>, known: seq<Endpoint>,
                        endpoints: seq<Endpoint>, at0: map<string, Placement>, at: map<string, Placement>)
    requires (forall c | c in devices :: c in raw && c in before) && (forall c | c in gone :: c in devices)
    requires NoRepeats(Ids(endpoints)) && KeepsMacs(known, endpoints) && OnlyEndpointsOn(endpoints, gone, at0)
    requires AllPlacedRight(raw, edges, t, before, devices, merged, known, endpoints, at0)
    requires MachinesSit(raw, edges, devices, merged, known, endpoints, at0)
    requires AreRetired(raw, endpoints, Without(devices, gone), gone, at0, at)
    ensures AllPlacedRight(raw, edges, t, before, Without(devices, gone), merged, known, endpoints, at)
    ensures MachinesSit(raw, edges, Without(devices, gone), merged, known, endpoints, at)
  {
    hide Ids, NoRepeats, KeepsMacs, OnlyEndpointsOn, AllPlacedRight, MachinesSit, AreRetired;
    RetiringPlacesRight(raw, edges, t, before, devices, gone, merged, known, endpoints, at0, at);
    RetiringLetsMachinesSit(raw, edges, devices, gone, merged, known, endpoints, at0, at);
  }

  /** What is merged late: a phantom of the endpoints as they are now, and no new device of
      infrastructure, whose endpoint sits where it was announced. None is missed. */
  ghost predicate LateMergesRight(raw: map<string, RawNode>, edges: seq<RawEdge>, t: MacTable, devices: seq<string>,
                                  late: set<string>, endpoints0: seq<Endpoint>, endpoints: seq<Endpoint>,
                                  at: map<string, Placement>)
    requires forall d | d in devices :: d in raw
  {
    && |endpoints| == |endpoints0|
    && (forall c | c in late :: && IsPhantom(raw, endpoints, edges, devices, c) && IsOwnOrNew(raw, t, endpoints0, c)
                                && SitsWhereAnnounced(raw, edges, t, devices, late, endpoints0, endpoints, at, c))
    && forall ep | ep in endpoints0 :: IsNotMissed(raw, ep, edges, t, devices, late)
  }

  lemma LateEndsRight(raw: map<string, RawNode>, edges: seq<RawEdge>, t: MacTable, devices: seq<string>,
                      endpoints0: seq<Endpoint>, at0: map<string, Placement>, late: set<string>,
                      endpoints: seq<Endpoint>, at1: map<string, Placement>, at: map<string, Placement>)
    requires (forall c | c in devices :: c in raw) && OnlyEndpointsOn(endpoints, late, at1)
    requires LateUpTo(raw, edges, t, devices, endpoints0, at0, |endpoints0|, late, endpoints, at1)
    requires AreRetired(raw, endpoints, Without(devices, late), late, at1, at)
    ensures LateMergesRight(raw, edges, t, devices, late, endpoints0, endpoints, at)
  {
    hide IsPhantom, IsNotMissed, SitsWhereAnnounced, OnlyEndpointsOn, AreRetired;
    LateArePhantoms(raw, edges, t, devices, endpoints0, at0, late, endpoints, at1);
    LateAreOwnOrNew(raw, edges, t, devices, endpoints0, at0, late, endpoints, at1);
    LateFacts(raw, edges, t, devices, endpoints0, at0, late, endpoints, at1);
    LateSit(raw, edges, t, devices, endpoints0, at0, late, endpoints, at1, at);
  }

  lemma LateSit(raw: map<string, RawNode>, edges: seq<RawEdge>, t: MacTable, devices: seq<string>,
                endpoints0: seq<Endpoint>, at0: map<string, Placement>, late: set<string>, endpoints: seq<Endpoint>,
                at1: map<string, Placement>, at: map<string, Placement>)
    requires (forall c | c in devices :: c in raw) && OnlyEndpointsOn(endpoints, late, at1)
    requires LateUpTo(raw, edges, t, devices, endpoints0, at0, |endpoints0|, late, endpoints, at1)
    requires AreRetired(raw, endpoints, Without(devices, late), late, at1, at)
    ensures forall c | c in late :: SitsWhereAnnounced(raw, edges, t, devices, late, endpoints0, endpoints, at, c)
  {
    hide IsNotMissed, LateDevice, Without, Fallback, EndpointOf, LldpPlacement, EndpointNodeId, CanMerge,
      OnlyEndpointsOn, IsSame;
    forall c | c in late ensures SitsWhereAnnounced(raw, edges, t, devices, late, endpoints0, endpoints, at, c) {
      var j: nat :| j < |endpoints0| && IsMerged(raw, edges, t, devices, endpoints0, at0, endpoints, at1, j, c);
      assert SitsAsMerged(raw, edges, t, devices, late, endpoints0[j], endpoints[j], at, c);
    }
  }

  lemma PhantomsAreDevices(raw: map<string, RawNode>, endpoints: seq<Endpoint>, edges: seq<RawEdge>,
                           devices: seq<string>, late: set<string>)
    requires forall c | c in late :: IsPhantom(raw, endpoints, edges, devices, c)
    ensures forall c | c in late :: c in devices
  {
  }

  /** Dropping the end hosts moves only endpoints, so each host stays where it was announced. */
  lemma HostsStayAnnounced(raw: map<string, RawNode>, edges: seq<RawEdge>, endpoints: seq<Endpoint>,
                           devices: seq<string>, ends: seq<string>, at0: map<string, Placement>,
                           at1: map<string, Placement>, at: map<string, Placement>)
    requires (forall c | c in ends :: c in raw) && (forall c | c in devices :: c in raw)
    requires EndHostsUpTo(raw, edges, devices, ends, at0, |ends|, at1)
    requires (forall id | id in at0 :: id in Ids(endpoints)) && OnlyEndpointsOn(endpoints, Members(ends), at1)
    requires AreRetired(raw, endpoints, Without(devices, Members(ends)), Members(ends), at1, at)
    ensures forall id | id in at && id !in Ids(endpoints) ::
              exists c :: c in ends && EndHostId(raw, c) == id
                          && at[id] == AnnouncedAt(edges, Without(devices, Members(ends)), [], c)
  {
    hide Ids, EndHostId, AnnouncedAt, Without, Fallback, EndpointOf, IsLastOf;
    forall id | id in at && id !in Ids(endpoints)
      ensures exists c :: c in ends && EndHostId(raw, c) == id
                          && at[id] == AnnouncedAt(edges, Without(devices, Members(ends)), [], c)
    {
      assert IsEndHostAt(raw, edges, devices, ends, id, at1[id]);
      var c :| c in ends && EndHostId(raw, c) == id && at1[id] == AnnouncedAt(edges, devices, ends, c);
      AnnouncedStays(edges, devices, ends, c);
    }
  }

  lemma SameEndpointsOn(endpoints: seq<Endpoint>, gone: set<string>, at: map<string, Placement>)
    requires forall id | id in at :: id in Ids(endpoints)
    ensures OnlyEndpointsOn(endpoints, gone, at)
  {
  }
}
