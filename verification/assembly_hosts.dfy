/** Hosts with no agent: devices that announced themselves over LLDP or CDP and are no
    network equipment, and MACs a switch learned that belong to no node. Each becomes a
    host node, on the port that announced or learned it. */
module AssemblyHosts {
  import opened AssemblyPlacement
  import opened AssemblySteps
  import opened MacTables
  import opened Wrappers

  /** A host no agent reports. */
  datatype Host = Host(id: string, mac: Option<Mac>)

  ghost predicate IsHost(hosts: seq<Host>, id: string) {
    exists h :: h in hosts && h.id == id
  }

  /** Every placed node is an endpoint or one of the hosts. */
  ghost predicate PlacedAreNodes(ids: seq<string>, hosts: seq<Host>, at: map<string, Placement>) {
    forall id | id in at :: id in ids || IsHost(hosts, id)
  }

  /** Hosts are no endpoints, and each is placed or nowhere. */
  ghost predicate HostsArePlaced(hosts: seq<Host>, at: map<string, Placement>) {
    forall h | h in hosts :: h.id in at && exists key :: h.id == HostNodeId(key)
  }

  lemma OneMoreHost(ids: seq<string>, hosts: seq<Host>, at: map<string, Placement>, key: string, mac: Option<Mac>,
                    p: Placement)
    requires PlacedAreNodes(ids, hosts, at) && HostsArePlaced(hosts, at)
    ensures var h := Host(HostNodeId(key), mac);
            PlacedAreNodes(ids, hosts + [h], at[h.id := p]) && HostsArePlaced(hosts + [h], at[h.id := p])
  {
    hide HostNodeId;
    var h := Host(HostNodeId(key), mac);
    assert h in hosts + [h];
    forall id | id in at[h.id := p] ensures id in ids || IsHost(hosts + [h], id) {
      if id != h.id && id !in ids {
        assert IsHost(hosts, id);
        var g :| g in hosts && g.id == id;
        assert g in hosts + [h];
      }
    }
  }

  // ---- LLDP ---------------------------------------------------------------------------

  function EndHosts(raw: map<string, RawNode>, devices: seq<string>): (ends: seq<string>)
    requires forall c | c in devices :: c in raw
    ensures forall c :: c in ends <==> c in devices && IsEndHost(raw[c])
  {
    if devices == [] then []
    else
      var front, last := devices[..|devices| - 1], devices[|devices| - 1];
      assert devices == front + [last];
      EndHosts(raw, front) + if IsEndHost(raw[last]) then [last] else []
  }

  method CollectEndHosts(raw: map<string, RawNode>, devices: seq<string>) returns (ends: seq<string>)
    requires forall c | c in devices :: c in raw
    ensures ends == EndHosts(raw, devices)
  {
    ends := [];
    for i := 0 to |devices|
      invariant ends == EndHosts(raw, devices[..i])
    {
      assert devices[..i + 1][..i] == devices[..i];
      if IsEndHost(raw[devices[i]]) {
        ends := ends + [devices[i]];
      }
    }
    assert devices[..|devices|] == devices;
  }

  /** A host that announced itself goes on the reporting port, when the reporter is a
      device that stays. */
  function AnnouncedAt(edges: seq<RawEdge>, devices: seq<string>, ends: seq<string>, c: string): Placement {
    var (switch, port) := LldpSwitchAndPort(c, edges);
    if switch.Some? && switch.value in devices && switch.value !in ends
    then Placement(switch, port, Some(Lldp)) else UNPLACED
  }

  function HostMac(n: RawNode): Option<Mac> {
    if n.mac.Some? then n.mac else n.chassisMac
  }

  /** Named by its MAC, else by its chassis id. */
  function HostKey(n: RawNode): string {
    HostMac(n).GetOr(n.chassis)
  }

  function EndHostId(raw: map<string, RawNode>, c: string): string
    requires c in raw
  {
    HostNodeId(HostKey(raw[c]))
  }

  /** Some of the hosts has this node id. */
  ghost predicate Names(raw: map<string, RawNode>, ends: seq<string>, id: string) {
    exists c :: c in ends && c in raw && EndHostId(raw, c) == id
  }

  ghost predicate IsEndHostAt(raw: map<string, RawNode>, edges: seq<RawEdge>, devices: seq<string>, ends: seq<string>,
                              id: string, p: Placement)
  {
    exists c :: c in ends && c in raw && EndHostId(raw, c) == id && p == AnnouncedAt(edges, devices, ends, c)
  }

  ghost predicate IsLastOf(raw: map<string, RawNode>, ends: seq<string>, k: nat, j: nat)
    requires j < k <= |ends| && forall c | c in ends :: c in raw
  {
    forall l | j < l < k :: EndHostId(raw, ends[l]) != EndHostId(raw, ends[j])
  }

  /** The first k hosts are placed, the last of each id where it was announced; nothing
      else has moved. */
  ghost predicate EndHostsUpTo(raw: map<string, RawNode>, edges: seq<RawEdge>, devices: seq<string>,
                               ends: seq<string>, at0: map<string, Placement>, k: nat, at: map<string, Placement>)
    requires k <= |ends| && forall c | c in ends :: c in raw
  {
    && (forall id | id in at0 :: id in at)
    && (forall id | id in at :: if Names(raw, ends[..k], id) then IsEndHostAt(raw, edges, devices, ends, id, at[id])
                                else id in at0 && at[id] == at0[id])
    && forall j: nat | j < k :: && EndHostId(raw, ends[j]) in at
                                && (IsLastOf(raw, ends, k, j) ==>
                                      at[EndHostId(raw, ends[j])] == AnnouncedAt(edges, devices, ends, ends[j]))
  }

  lemma EndHostsStep(raw: map<string, RawNode>, edges: seq<RawEdge>, devices: seq<string>, ends: seq<string>,
                     at0: map<string, Placement>, k: nat, at: map<string, Placement>)
    requires k < |ends| && (forall c | c in ends :: c in raw) && EndHostsUpTo(raw, edges, devices, ends, at0, k, at)
    ensures EndHostsUpTo(raw, edges, devices, ends, at0, k + 1,
                         at[EndHostId(raw, ends[k]) := AnnouncedAt(edges, devices, ends, ends[k])])
  {
    hide EndHostId, AnnouncedAt, Names, IsEndHostAt, IsLastOf;
    var c := ends[k];
    var at' := at[EndHostId(raw, c) := AnnouncedAt(edges, devices, ends, c)];
    forall id | id in at'
      ensures if Names(raw, ends[..k + 1], id) then IsEndHostAt(raw, edges, devices, ends, id, at'[id])
              else id in at0 && at'[id] == at0[id]
    {
      NamesOneMore(raw, edges, devices, ends, k, id);
    }
    forall j: nat | j < k + 1
      ensures EndHostId(raw, ends[j]) in at'
      ensures IsLastOf(raw, ends, k + 1, j) ==>
                at'[EndHostId(raw, ends[j])] == AnnouncedAt(edges, devices, ends, ends[j])
    {
      LastOfOneMore(raw, ends, k, j);
    }
  }

  lemma NamesOneMore(raw: map<string, RawNode>, edges: seq<RawEdge>, devices: seq<string>, ends: seq<string>, k: nat,
                     id: string)
    requires k < |ends| && forall c | c in ends :: c in raw
    ensures Names(raw, ends[..k + 1], id) <==> Names(raw, ends[..k], id) || id == EndHostId(raw, ends[k])
    ensures id == EndHostId(raw, ends[k]) ==>
              IsEndHostAt(raw, edges, devices, ends, id, AnnouncedAt(edges, devices, ends, ends[k]))
  {
    hide EndHostId, AnnouncedAt;
    assert ends[..k + 1] == ends[..k] + [ends[k]] && ends[k] in ends && ends[k] in ends[..k + 1];
  }

  lemma LastOfOneMore(raw: map<string, RawNode>, ends: seq<string>, k: nat, j: nat)
    requires j <= k < |ends| && forall c | c in ends :: c in raw
    ensures j < k && IsLastOf(raw, ends, k + 1, j) ==>
              IsLastOf(raw, ends, k, j) && EndHostId(raw, ends[k]) != EndHostId(raw, ends[j])
  {
  }

  /** The loop of `_add_lldp_end_hosts`, before the devices are dropped. */
  method PlaceEndHosts(raw: map<string, RawNode>, edges: seq<RawEdge>, devices: seq<string>, ids: seq<string>,
                       before: Placed)
    returns (ends: seq<string>, placed: Placed, hosts: seq<Host>)
    requires (forall c | c in devices :: c in raw) && before.Valid() && forall id | id in before.at :: id in ids
    ensures ends == EndHosts(raw, devices) && placed.Valid()
    ensures EndHostsUpTo(raw, edges, devices, ends, before.at, |ends|, placed.at)
    ensures |hosts| == |ends| && forall i | 0 <= i < |ends| ::
              hosts[i] == Host(EndHostId(raw, ends[i]), HostMac(raw[ends[i]]))
    ensures PlacedAreNodes(ids, hosts, placed.at) && HostsArePlaced(hosts, placed.at)
    ensures forall id | id in placed.at && placed.at[id].parent.Some? && id !in before.at ::
              exists c :: c in ends && EndHostId(raw, c) == id && IsOnLinkTo(edges, placed.at[id], c)
  {
    hide IsOnLinkTo, HostKey, HostNodeId, EndHostsUpTo, Placed.Valid, PlacedAreNodes, HostsArePlaced;
    ends := CollectEndHosts(raw, devices);
    placed, hosts := before, [];
    NoEndHostsYet(raw, edges, devices, ends, ids, before.at);
    for i := 0 to |ends|
      invariant placed.Valid() && EndHostsUpTo(raw, edges, devices, ends, before.at, i, placed.at)
      invariant |hosts| == i
      invariant forall k | 0 <= k < i :: hosts[k] == Host(EndHostId(raw, ends[k]), HostMac(raw[ends[k]]))
      invariant PlacedAreNodes(ids, hosts, placed.at) && HostsArePlaced(hosts, placed.at)
    {
      var n := raw[ends[i]];
      var id := EndHostId(raw, ends[i]);
      EndHostsStep(raw, edges, devices, ends, before.at, i, placed.at);
      OneMoreHost(ids, hosts, placed.at, HostKey(n), HostMac(n), AnnouncedAt(edges, devices, ends, ends[i]));
      placed.PutIsValid(id, AnnouncedAt(edges, devices, ends, ends[i]));
      placed := placed.Put(id, AnnouncedAt(edges, devices, ends, ends[i]));
      hosts := hosts + [Host(id, HostMac(n))];
    }
    EndHostsAreOnLinks(raw, edges, devices, ends, before.at, placed.at);
  }

  lemma EndHostsAreOnLinks(raw: map<string, RawNode>, edges: seq<RawEdge>, devices: seq<string>, ends: seq<string>,
                           at0: map<string, Placement>, at: map<string, Placement>)
    requires (forall c | c in ends :: c in raw) && EndHostsUpTo(raw, edges, devices, ends, at0, |ends|, at)
    ensures forall id | id in at && at[id].parent.Some? && id !in at0 ::
              exists c :: c in ends && EndHostId(raw, c) == id && IsOnLinkTo(edges, at[id], c)
  {
    hide LldpSwitchAndPort, IsOnLinkTo, EndHostId, IsLastOf;
    forall id | id in at && at[id].parent.Some? && id !in at0
      ensures exists c :: c in ends && EndHostId(raw, c) == id && IsOnLinkTo(edges, at[id], c)
    {
      var c :| c in ends && EndHostId(raw, c) == id && at[id] == AnnouncedAt(edges, devices, ends, c);
      AnnouncedIsOnLink(c, edges, at[id]);
    }
  }

  lemma NoEndHostsYet(raw: map<string, RawNode>, edges: seq<RawEdge>, devices: seq<string>, ends: seq<string>,
                      ids: seq<string>, at: map<string, Placement>)
    requires (forall c | c in ends :: c in raw) && forall id | id in at :: id in ids
    ensures EndHostsUpTo(raw, edges, devices, ends, at, 0, at) && PlacedAreNodes(ids, [], at) && HostsArePlaced([], at)
  {
  }

  lemma NoHostIsAnEndpoint(endpoints: seq<Endpoint>, key: string)
    ensures HostNodeId(key) !in Ids(endpoints)
  {
    if HostNodeId(key) in Ids(endpoints) {
      var i :| 0 <= i < |endpoints| && Ids(endpoints)[i] == HostNodeId(key);
      KindsDiffer("", endpoints[i].agent, key);
    }
  }

  /** The hosts placed hang off devices that stay; the endpoints are where they were. */
  lemma EndHostsAreKept(raw: map<string, RawNode>, endpoints: seq<Endpoint>, edges: seq<RawEdge>,
                        devices: seq<string>, ends: seq<string>, at0: map<string, Placement>,
                        at: map<string, Placement>, reasons: map<string, Reason>)
    requires (forall c | c in ends :: c in raw) && EndHostsUpTo(raw, edges, devices, ends, at0, |ends|, at)
    requires (forall id | id in at0 :: id in Ids(endpoints)) && ReasonsExplain(Ids(endpoints), at0, reasons)
    ensures OnlyEndpointsOn(endpoints, Members(ends), at) && ReasonsExplain(Ids(endpoints), at, reasons)
    ensures IsWhole(raw, devices, at0) ==> IsWhole(raw, devices, at)
    ensures forall id | id in at0 :: id in at && at[id] == at0[id]
  {
    hide Ids, HostKey, HostNodeId, KeepsPolled, IsLastOf;
    forall id | id in Ids(endpoints) ensures !Names(raw, ends[..|ends|], id) {
      if c :| c in ends && EndHostId(raw, c) == id {
        NoHostIsAnEndpoint(endpoints, HostKey(raw[c]));
      }
    }
  }

  lemma NoEndHostWasPolled(raw: map<string, RawNode>, devices: seq<string>)
    requires forall c | c in devices :: c in raw
    ensures NoneWasPolled(raw, Members(EndHosts(raw, devices)))
  {
  }

  // ---- the tables -----------------------------------------------------------------------

  ghost predicate HasMac(endpoints: seq<Endpoint>, hosts: seq<Host>, m: Mac) {
    (exists ep :: ep in endpoints && ep.mac == Some(m)) || exists h :: h in hosts && h.mac == Some(m)
  }

  /** The MAC belongs to a node of the graph or to infrastructure. */
  ghost predicate IsKnown(raw: map<string, RawNode>, devices: seq<string>, endpoints: seq<Endpoint>, hosts: seq<Host>,
                          t: MacTable, m: Mac) {
    m in t.infra || HasMac(endpoints, hosts, m) || exists c :: c in devices && c in raw && raw[c].chassisMac == Some(m)
  }

  method KnownMacs(raw: map<string, RawNode>, devices: seq<string>, endpoints: seq<Endpoint>, hosts: seq<Host>,
                   t: MacTable)
    returns (known: set<Mac>)
    requires forall c | c in devices :: c in raw
    ensures forall m :: m in known <==> IsKnown(raw, devices, endpoints, hosts, t, m)
  {
    known := (set c | c in devices && raw[c].chassisMac.Some? :: raw[c].chassisMac.value)
             + (set ep | ep in endpoints && ep.mac.Some? :: ep.mac.value)
             + (set h | h in hosts && h.mac.Some? :: h.mac.value) + t.infra;
  }

  ghost predicate TableHostsUpTo(known: set<Mac>, t: MacTable, k: nat, at0: map<string, Placement>, hosts0: seq<Host>,
                                 at: map<string, Placement>, hosts: seq<Host>)
    requires k <= |t.macs| && forall m | m in t.macs :: m in t.byMac
  {
    && (forall id | id in at0 :: id in at)
    && (forall id | id in at :: (id in at0 && at[id] == at0[id]) || IsFromTable(known, t, id, at[id]))
    && (forall i: nat | i < k && t.macs[i] !in known ::
          HostNodeId(t.macs[i]) in at && at[HostNodeId(t.macs[i])] == RowPlacement(t, t.macs[i]))
    && (forall h | h in hosts0 :: h in hosts)
    && (forall h | h in hosts ::
          h in hosts0 || exists m :: m in t.byMac && m !in known && h == Host(HostNodeId(m), Some(m)))
    && forall i | 0 <= i < k && t.macs[i] !in known :: Host(HostNodeId(t.macs[i]), Some(t.macs[i])) in hosts
  }

  /** A MAC's host goes on the port the switch learned it on. */
  function RowPlacement(t: MacTable, m: Mac): Placement
    requires m in t.byMac
  {
    Placement(Some(t.byMac[m].chassis), Some(t.byMac[m].port), Some(Fdb))
  }

  /** The node is a host of its own: a MAC of the tables that nothing else has. */
  ghost predicate IsFromTable(known: set<Mac>, t: MacTable, id: string, p: Placement) {
    exists m :: m in t.byMac && m !in known && id == HostNodeId(m) && p == RowPlacement(t, m)
  }

  lemma HostIdsDiffer(a: string, b: string)
    ensures HostNodeId(a) == HostNodeId(b) <==> a == b
  {
    assert HostNodeId(a)[5..] == a && HostNodeId(b)[5..] == b;
  }

  lemma TableHostsStep(known: set<Mac>, t: MacTable, k: nat, at0: map<string, Placement>, hosts0: seq<Host>,
                       at: map<string, Placement>, hosts: seq<Host>)
    requires k < |t.macs| && (forall m | m in t.macs :: m in t.byMac)
    requires TableHostsUpTo(known, t, k, at0, hosts0, at, hosts)
    ensures t.macs[k] in known ==> TableHostsUpTo(known, t, k + 1, at0, hosts0, at, hosts)
    ensures t.macs[k] !in known ==>
              var m := t.macs[k];
              TableHostsUpTo(known, t, k + 1, at0, hosts0,
                             at[HostNodeId(m) := RowPlacement(t, m)], hosts + [Host(HostNodeId(m), Some(m))])
  {
    var m := t.macs[k];
    forall x: Mac ensures HostNodeId(x) == HostNodeId(m) ==> x == m {
      HostIdsDiffer(x, m);
    }
  }

  /** The loop of `_add_table_hosts`. */
  method PlaceTableHosts(known: set<Mac>, t: MacTable, ids: seq<string>, before: Placed, hosts0: seq<Host>)
    returns (placed: Placed, hosts: seq<Host>)
    requires before.Valid() && (forall m | m in t.macs :: m in t.byMac)
    requires PlacedAreNodes(ids, hosts0, before.at) && HostsArePlaced(hosts0, before.at)
    ensures placed.Valid() && PlacedAreNodes(ids, hosts, placed.at) && HostsArePlaced(hosts, placed.at)
    ensures TableHostsUpTo(known, t, |t.macs|, before.at, hosts0, placed.at, hosts)
  {
    hide HostNodeId, TableHostsUpTo, Placed.Valid, PlacedAreNodes, HostsArePlaced;
    placed, hosts := before, hosts0;
    assert TableHostsUpTo(known, t, 0, before.at, hosts0, placed.at,
                          hosts) by { NoTableHostsYet(known, t, before.at, hosts0); }
    for i := 0 to |t.macs|
      invariant placed.Valid() && PlacedAreNodes(ids, hosts, placed.at) && HostsArePlaced(hosts, placed.at)
      invariant TableHostsUpTo(known, t, i, before.at, hosts0, placed.at, hosts)
    {
      var m := t.macs[i];
      TableHostsStep(known, t, i, before.at, hosts0, placed.at, hosts);
      if m in known {
        continue;
      }
      var fact := t.byMac[m];
      var p := Placement(Some(fact.chassis), Some(fact.port), Some(Fdb));
      OneMoreHost(ids, hosts, placed.at, m, Some(m), p);
      placed.PutIsValid(HostNodeId(m), p);
      hosts := hosts + [Host(HostNodeId(m), Some(m))];
      placed := placed.Put(HostNodeId(m), p);
    }
  }

  lemma NoTableHostsYet(known: set<Mac>, t: MacTable, at: map<string, Placement>, hosts: seq<Host>)
    requires forall m | m in t.macs :: m in t.byMac
    ensures TableHostsUpTo(known, t, 0, at, hosts, at, hosts)
  {
  }

  lemma TableHostsAreKept(raw: map<string, RawNode>, endpoints: seq<Endpoint>, edges: seq<RawEdge>,
                          devices: seq<string>, known: set<Mac>, t: MacTable, at0: map<string, Placement>,
                          hosts0: seq<Host>, at: map<string, Placement>, hosts: seq<Host>,
                          reasons: map<string, Reason>)
    requires (forall m | m in t.macs :: m in t.byMac) && TableHostsUpTo(known, t, |t.macs|, at0, hosts0, at, hosts)
    requires ReasonsExplain(Ids(endpoints), at0, reasons)
    ensures ReasonsExplain(Ids(endpoints), at, reasons)
    ensures forall id | id in Ids(endpoints) && id in at0 :: id in at && at[id] == at0[id]
    ensures PolledSources(raw, edges, t) && IsWhole(raw, devices, at0) ==> IsWhole(raw, devices, at)
  {
    hide Ids, HostNodeId;
    forall id | id in at && id in Ids(endpoints) ensures id in at0 && at[id] == at0[id] {
      if !(id in at0 && at[id] == at0[id]) {
        var m :| m in t.byMac && id == HostNodeId(m);
        NoHostIsAnEndpoint(endpoints, m);
      }
    }
    if PolledSources(raw, edges, t) && IsWhole(raw, devices, at0) {
      forall id | id in at && at[id].parent.Some? ensures at[id].parent.value in devices {
        if !(id in at0 && at[id] == at0[id]) {
          var m :| m in t.byMac && id == HostNodeId(m) && at[id] == RowPlacement(t, m);
          assert Polled(raw, t.byMac[m].chassis);
        }
      }
    }
  }
}
