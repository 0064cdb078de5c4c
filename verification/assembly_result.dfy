/** What the whole assembly comes to, whatever order its steps drop devices in. */
module AssemblyResult {
  import opened AssemblyHosts
  import opened AssemblyLate
  import opened AssemblyPlacement
  import opened AssemblySteps
  import opened AssemblyWifi
  import opened MacTables
  import opened Sequences
  import opened Wrappers

  // ---- the links -----------------------------------------------------------------------

  lemma LinksWithoutLast(front: seq<(string, string)>, l: (string, string), gone: set<string>)
    ensures LinksWithout(front + [l], gone)
            == LinksWithout(front, gone) + if l.0 in gone || l.1 in gone then [] else [l]
  {
    assert (front + [l])[..|front|] == front;
  }

  lemma LinksBetweenLast(front: seq<RawEdge>, e: RawEdge, devices: seq<string>)
    ensures LinksBetween(front + [e], devices)
            == LinksBetween(front, devices)
               + if e.source in devices && e.target in devices then [(e.source, e.target)] else []
  {
    assert (front + [e])[..|front|] == front;
  }

  /** One more link, dropped or not. */
  lemma OneLinkMore(kept: seq<(string, string)>, front: seq<RawEdge>, e: RawEdge, devices: seq<string>,
                    left: seq<string>, gone: set<string>)
    requires kept == LinksWithout(LinksBetween(front, devices), gone) == LinksBetween(front, left)
    requires e.source in left <==> e.source in devices && e.source !in gone
    requires e.target in left <==> e.target in devices && e.target !in gone
    ensures LinksWithout(LinksBetween(front + [e], devices), gone) == LinksBetween(front + [e], left)
  {
    LinksBetweenLast(front, e, devices);
    LinksBetweenLast(front, e, left);
    if e.source in devices && e.target in devices {
      LinksWithoutLast(LinksBetween(front, devices), (e.source, e.target), gone);
    } else {
      assert LinksBetween(front, devices) + [] == LinksBetween(front, devices);
    }
  }

  /** Dropping devices leaves the links between the others. */
  lemma {:induction false} LinksLeftAreBetween(edges: seq<RawEdge>, devices: seq<string>, gone: set<string>)
    ensures LinksWithout(LinksBetween(edges, devices), gone) == LinksBetween(edges, Without(devices, gone))
  {
    if edges != [] {
      var front, e := edges[..|edges| - 1], edges[|edges| - 1];
      assert edges == front + [e];
      LinksLeftAreBetween(front, devices, gone);
      OneLinkMore(LinksBetween(front, Without(devices, gone)), front, e, devices, Without(devices, gone), gone);
    }
  }

  // ---- the endpoints -------------------------------------------------------------------

  /** Some merged device has the endpoint's MAC. */
  ghost predicate IsClaimed(raw: map<string, RawNode>, merged: set<string>, ep: Endpoint) {
    exists c :: c in merged && c in raw && Claims(ep, raw[c])
  }

  /** The endpoint sits where a device that was its machine was announced; or, when it had
      none, or that announcer was dropped, where the ladder puts it among the devices left. */
  ghost predicate IsPlacedRight(raw: map<string, RawNode>, edges: seq<RawEdge>, t: MacTable, before: seq<string>,
                                devices: seq<string>, merged: set<string>, known: Endpoint, ep: Endpoint,
                                p: Placement)
    requires forall c | c in devices :: c in raw
  {
    || p == ByTableOrSubnet(raw, known, t, before, devices)
    || (IsClaimed(raw, merged, ep) && p == Fallback(raw, known, devices))
    || exists c :: c in merged && c in raw && Claims(ep, raw[c]) && p == LldpPlacement(c, edges)
  }

  ghost predicate AllPlacedRight(raw: map<string, RawNode>, edges: seq<RawEdge>, t: MacTable, before: seq<string>,
                                 devices: seq<string>, merged: set<string>, known: seq<Endpoint>,
                                 endpoints: seq<Endpoint>, at: map<string, Placement>)
    requires forall c | c in devices :: c in raw
  {
    && |known| == |endpoints|
    && forall i | 0 <= i < |endpoints| ::
         && EndpointNodeId(endpoints[i].agent) in at
         && IsPlacedRight(raw, edges, t, before, devices, merged, known[i], endpoints[i],
                          at[EndpointNodeId(endpoints[i].agent)])
  }

  lemma OneEndpoint(endpoints: seq<Endpoint>, i: nat, ep: Endpoint)
    requires NoRepeats(Ids(endpoints)) && i < |endpoints| && ep in endpoints && ep.agent == endpoints[i].agent
    ensures ep == endpoints[i]
  {
    var j :| 0 <= j < |endpoints| && endpoints[j] == ep;
    assert Ids(endpoints)[i] == Ids(endpoints)[j];
  }

  lemma AgentIs(a: string, b: string)
    requires EndpointNodeId(a) == EndpointNodeId(b)
    ensures a == b
  {
    assert EndpointNodeId(a)[9..] == a && EndpointNodeId(b)[9..] == b;
  }

  /** After rungs 1 to 3. */
  lemma LadderPlacesRight(raw: map<string, RawNode>, edges: seq<RawEdge>, t: MacTable, devices: seq<string>,
                          merged: set<string>, endpoints0: seq<Endpoint>, at0: map<string, Placement>,
                          endpoints: seq<Endpoint>, at: map<string, Placement>, reasons: map<string, Reason>)
    requires (forall c | c in devices :: c in raw) && NoRepeats(Ids(endpoints0))
    requires MergedInto(raw, endpoints0, edges, merged, at0)
    requires PlacedUpTo(raw, endpoints0, t, devices, at0, |endpoints0|, at, reasons) && |endpoints| == |endpoints0|
    requires forall i | 0 <= i < |endpoints| ::
               endpoints[i] == if Ids(endpoints0)[i] in at0 then endpoints0[i] else Enriched(endpoints0[i], t)
    ensures endpoints == EnrichedAll(endpoints0, t)
    ensures AllPlacedRight(raw, edges, t, devices, devices, merged, endpoints, endpoints, at)
  {
    hide Fallback, Ladder, LldpPlacement, NoRepeats, MergedInto;
    forall i: nat | i < |endpoints|
      ensures endpoints[i] == Enriched(endpoints0[i], t)
      ensures EndpointNodeId(endpoints[i].agent) in at
      ensures IsPlacedRight(raw, edges, t, devices, devices, merged, endpoints[i], endpoints[i],
                            at[EndpointNodeId(endpoints[i].agent)])
    {
      var id := EndpointNodeId(endpoints0[i].agent);
      assert Ids(endpoints0)[i] == id;
      if id in at0 {
        var c, ep := ClaimedBy(raw, endpoints0, edges, merged, at0, id);
        AgentIs(ep.agent, endpoints0[i].agent);
        OneEndpoint(endpoints0, i, ep);
      } else {
        assert ByLadder(raw, endpoints0[i], t, devices, at, reasons);
        LadderIsByTable(raw, Enriched(endpoints0[i], t), t, devices);
      }
    }
  }

  lemma LadderIsByTable(raw: map<string, RawNode>, ep: Endpoint, t: MacTable, devices: seq<string>)
    requires forall c | c in devices :: c in raw
    ensures Ladder(raw, ep, t, devices) == ByTableOrSubnet(raw, ep, t, devices, devices)
  {
  }

  lemma ClaimedBy(raw: map<string, RawNode>, endpoints: seq<Endpoint>, edges: seq<RawEdge>, merged: set<string>,
                  at: map<string, Placement>, id: string) returns (c: string, ep: Endpoint)
    requires MergedInto(raw, endpoints, edges, merged, at) && id in at
    ensures c in merged && c in raw && at[id] == LldpPlacement(c, edges)
    ensures ep in endpoints && Claims(ep, raw[c]) && id == EndpointNodeId(ep.agent)
  {
    c :| c in merged && SitsAt(raw, endpoints, edges, id, at[id], c);
    ep :| ep in endpoints && Claims(ep, raw[c]) && id == EndpointNodeId(ep.agent);
  }

  /** Merging more devices, and filling in MACs, keeps a placement right. */
  lemma RightStays(raw: map<string, RawNode>, edges: seq<RawEdge>, t: MacTable, before: seq<string>,
                   devices: seq<string>, merged: set<string>, more: set<string>, known: Endpoint, ep: Endpoint,
                   ep': Endpoint, p: Placement)
    requires (forall c | c in devices :: c in raw) && merged <= more && KeepsMac(ep, ep')
    requires IsPlacedRight(raw, edges, t, before, devices, merged, known, ep, p)
    ensures IsPlacedRight(raw, edges, t, before, devices, more, known, ep', p)
  {
    hide ByTableOrSubnet, Fallback, LldpPlacement;
    if c :| c in merged && c in raw && Claims(ep, raw[c]) {
      assert Claims(ep', raw[c]);
      if p == LldpPlacement(c, edges) {
        assert c in more;
      } else if d :| d in merged && d in raw && Claims(ep, raw[d]) && p == LldpPlacement(d, edges) {
        assert d in more && Claims(ep', raw[d]);
      }
    }
  }

  /** After the late merges, before their devices are dropped. */
  lemma LatePlacesRight(raw: map<string, RawNode>, edges: seq<RawEdge>, t: MacTable, devices: seq<string>,
                        merged: set<string>, endpoints0: seq<Endpoint>, at0: map<string, Placement>,
                        late: set<string>, endpoints: seq<Endpoint>, at: map<string, Placement>)
    requires forall d | d in devices :: d in raw
    requires AllPlacedRight(raw, edges, t, devices, devices, merged, endpoints0, endpoints0, at0)
    requires LateUpTo(raw, edges, t, devices, endpoints0, at0, |endpoints0|, late, endpoints, at)
    ensures AllPlacedRight(raw, edges, t, devices, devices, merged + late, endpoints0, endpoints, at)
  {
    hide IsPlacedRight, IsNotMissed, CanMerge, LldpPlacement, LateDevice, LldpSwitchAndPort;
    forall i: nat | i < |endpoints|
      ensures EndpointNodeId(endpoints[i].agent) in at
      ensures IsPlacedRight(raw, edges, t, devices, devices, merged + late, endpoints0[i], endpoints[i],
                            at[EndpointNodeId(endpoints[i].agent)])
    {
      var id := EndpointNodeId(endpoints0[i].agent);
      if IsSame(endpoints0, at0, endpoints, at, i) {
        RightStays(raw, edges, t, devices, devices, merged, merged + late, endpoints0[i], endpoints0[i], endpoints[i],
                   at[id]);
      } else {
        var c :| c in late && IsMerged(raw, edges, t, devices, endpoints0, at0, endpoints, at, i, c);
        if at[id] == at0[id] {
          RightStays(raw, edges, t, devices, devices, merged, merged + late, endpoints0[i], endpoints0[i],
                     endpoints[i], at[id]);
        } else {
          MergedIsRight(raw, edges, t, devices, merged + late, endpoints0[i], endpoints[i], at[id], c);
        }
      }
    }
  }

  lemma MergedIsRight(raw: map<string, RawNode>, edges: seq<RawEdge>, t: MacTable, devices: seq<string>,
                      merged: set<string>, known: Endpoint, ep: Endpoint, p: Placement, c: string)
    requires (forall d | d in devices :: d in raw) && c in merged && c in raw && Claims(ep, raw[c])
    requires p == LldpPlacement(c, edges)
    ensures IsPlacedRight(raw, edges, t, devices, devices, merged, known, ep, p)
  {
  }

  /** A placement stays right when devices are dropped and what hung off them is placed again. */
  lemma RetiredIsRight(raw: map<string, RawNode>, edges: seq<RawEdge>, t: MacTable, before: seq<string>,
                       devices: seq<string>, gone: set<string>, merged: set<string>, known: Endpoint, ep: Endpoint,
                       p: Placement, p': Placement)
    requires (forall c | c in devices :: c in raw && c in before) && (forall c | c in gone :: c in devices)
    requires KeepsMac(known, ep)
    requires IsPlacedRight(raw, edges, t, before, devices, merged, known, ep, p)
    requires p' == if p.parent.Some? && p.parent.value in gone then Fallback(raw, ep, Without(devices, gone)) else p
    ensures IsPlacedRight(raw, edges, t, before, Without(devices, gone), merged, known, ep, p')
  {
    hide Without, LldpPlacement, ByTableOrSubnet;
    assert Fallback(raw, ep, Without(devices, gone)) == Fallback(raw, known, Without(devices, gone));
    if p == ByTableOrSubnet(raw, known, t, before, devices) {
      ByTableStays(raw, known, t, before, devices, gone);
    } else if IsClaimed(raw, merged, ep) && p == Fallback(raw, known, devices) {
      if !(p.parent.Some? && p.parent.value in gone) {
        FallbackStays(raw, known, devices, gone);
      }
    } else {
    }
  }

  lemma ByTableStays(raw: map<string, RawNode>, ep: Endpoint, t: MacTable, before: seq<string>, devices: seq<string>,
                     gone: set<string>)
    requires (forall c | c in devices :: c in raw && c in before) && (forall c | c in gone :: c in devices)
    ensures var p, left := ByTableOrSubnet(raw, ep, t, before, devices), Without(devices, gone);
            ByTableOrSubnet(raw, ep, t, before, left)
            == if p.parent.Some? && p.parent.value in gone then Fallback(raw, ep, left) else p
  {
    hide Fallback, Without;
    var p := Fallback(raw, ep, devices);
    if !(p.parent.Some? && p.parent.value in gone) {
      FallbackStays(raw, ep, devices, gone);
    }
  }

  lemma RetiringPlacesRight(raw: map<string, RawNode>, edges: seq<RawEdge>, t: MacTable, before: seq<string>,
                            devices: seq<string>, gone: set<string>, merged: set<string>, known: seq<Endpoint>,
                            endpoints: seq<Endpoint>, at0: map<string, Placement>, at: map<string, Placement>)
    requires (forall c | c in devices :: c in raw && c in before) && (forall c | c in gone :: c in devices)
    requires NoRepeats(Ids(endpoints)) && KeepsMacs(known, endpoints) && OnlyEndpointsOn(endpoints, gone, at0)
    requires AllPlacedRight(raw, edges, t, before, devices, merged, known, endpoints, at0)
    requires AreRetired(raw, endpoints, Without(devices, gone), gone, at0, at)
    ensures AllPlacedRight(raw, edges, t, before, Without(devices, gone), merged, known, endpoints, at)
  {
    hide IsPlacedRight, Fallback, Without, NoRepeats;
    forall i: nat | i < |endpoints|
      ensures EndpointNodeId(endpoints[i].agent) in at
      ensures IsPlacedRight(raw, edges, t, before, Without(devices, gone), merged, known[i], endpoints[i],
                            at[EndpointNodeId(endpoints[i].agent)])
    {
      var id := EndpointNodeId(endpoints[i].agent);
      assert Ids(endpoints)[i] == id;
      EndpointOfIs(endpoints, i);
      RetiredIsRight(raw, edges, t, before, devices, gone, merged, known[i], endpoints[i], at0[id], at[id]);
    }
  }

  lemma {:induction false} FirstWithId(endpoints: seq<Endpoint>, id: string)
    requires id in Ids(endpoints)
    ensures EndpointOf(endpoints, id) in endpoints && EndpointNodeId(EndpointOf(endpoints, id).agent) == id
  {
    if Ids(endpoints)[0] != id {
      assert Ids(endpoints)[1..] == Ids(endpoints[1..]);
      FirstWithId(endpoints[1..], id);
    }
  }

  lemma EndpointOfIs(endpoints: seq<Endpoint>, i: nat)
    requires NoRepeats(Ids(endpoints)) && i < |endpoints|
    ensures Ids(endpoints)[i] in Ids(endpoints) && EndpointOf(endpoints, Ids(endpoints)[i]) == endpoints[i]
  {
    hide EndpointOf, NoRepeats, Ids, EndpointNodeId;
    var id := Ids(endpoints)[i];
    FirstWithId(endpoints, id);
    AgentIs(EndpointOf(endpoints, id).agent, endpoints[i].agent);
    OneEndpoint(endpoints, i, EndpointOf(endpoints, id));
  }

  /** Steps that touch no endpoint leave them right. */
  lemma RightUntouched(raw: map<string, RawNode>, edges: seq<RawEdge>, t: MacTable, before: seq<string>,
                       devices: seq<string>, merged: set<string>, known: seq<Endpoint>, endpoints: seq<Endpoint>,
                       at0: map<string, Placement>, at: map<string, Placement>)
    requires (forall c | c in devices :: c in raw)
    requires AllPlacedRight(raw, edges, t, before, devices, merged, known, endpoints, at0)
    requires forall id | id in Ids(endpoints) && id in at0 :: id in at && at[id] == at0[id]
    ensures AllPlacedRight(raw, edges, t, before, devices, merged, known, endpoints, at)
  {
    hide IsPlacedRight;
    forall i: nat | i < |endpoints|
      ensures EndpointNodeId(endpoints[i].agent) in at
      ensures IsPlacedRight(raw, edges, t, before, devices, merged, known[i], endpoints[i],
                            at[EndpointNodeId(endpoints[i].agent)])
    {
      assert Ids(endpoints)[i] in Ids(endpoints);
    }
  }

  /** Every endpoint's place: right as above, or under an access point it is a client of. */
  ghost predicate EndpointsSitRight(nodes: seq<RawNode>, raw: map<string, RawNode>, edges: seq<RawEdge>, t: MacTable,
                                    before: seq<string>, devices: seq<string>, merged: set<string>,
                                    known: seq<Endpoint>, endpoints: seq<Endpoint>, hosts: seq<Host>,
                                    at: map<string, Placement>)
    requires forall c | c in devices :: c in raw
  {
    && |known| == |endpoints|
    && forall i | 0 <= i < |endpoints| ::
         var id := EndpointNodeId(endpoints[i].agent);
         && id in at
         && (|| IsPlacedRight(raw, edges, t, before, devices, merged, known[i], endpoints[i], at[id])
             || OnAccessPoint(nodes, devices, endpoints, hosts, id, at[id]))
  }

  lemma WifiPlacesRight(nodes: seq<RawNode>, raw: map<string, RawNode>, edges: seq<RawEdge>, t: MacTable,
                        before: seq<string>, devices: seq<string>, merged: set<string>, known: seq<Endpoint>,
                        endpoints0: seq<Endpoint>, endpoints: seq<Endpoint>, hosts: seq<Host>,
                        at0: map<string, Placement>, at: map<string, Placement>)
    requires (forall c | c in devices :: c in raw) && KeepsMacs(endpoints0, endpoints)
    requires AllPlacedRight(raw, edges, t, before, devices, merged, known, endpoints0, at0)
    requires MovedOnlyUnderAps(nodes, devices, endpoints, hosts, at0, at)
    ensures EndpointsSitRight(nodes, raw, edges, t, before, devices, merged, known, endpoints, hosts, at)
  {
    hide IsPlacedRight, OnAccessPoint;
    forall i: nat | i < |endpoints|
      ensures var id := EndpointNodeId(endpoints[i].agent);
              && id in at
              && (|| IsPlacedRight(raw, edges, t, before, devices, merged, known[i], endpoints[i], at[id])
                  || OnAccessPoint(nodes, devices, endpoints, hosts, id, at[id]))
    {
      var id := EndpointNodeId(endpoints[i].agent);
      assert KeepsMac(endpoints0[i], endpoints[i]);
      if at[id] == at0[id] {
        RightStays(raw, edges, t, before, devices, merged, merged, known[i], endpoints0[i], endpoints[i], at[id]);
      }
    }
  }

  // ---- the merged devices' machines ------------------------------------------------------

  /** The endpoint sits on the port a device that was its machine was announced on; or that
      announcer was dropped, and it is placed by subnet. */
  ghost predicate SitsByAnnouncement(raw: map<string, RawNode>, edges: seq<RawEdge>, devices: seq<string>,
                                     merged: set<string>, known: Endpoint, ep: Endpoint, p: Placement)
    requires forall c | c in devices :: c in raw
  {
    exists c :: c in merged && c in raw && Claims(ep, raw[c]) && IsAnnouncedAt(raw, edges, devices, known, p, c)
  }

  ghost predicate IsAnnouncedAt(raw: map<string, RawNode>, edges: seq<RawEdge>, devices: seq<string>, known: Endpoint,
                                p: Placement, c: string)
    requires forall d | d in devices :: d in raw
  {
    || (p.parent, p.port) == LldpSwitchAndPort(c, edges)
    || (SwitchOf(c, edges).Some? && SwitchOf(c, edges).value !in devices && p == Fallback(raw, known, devices))
  }

  ghost predicate MachineSits(raw: map<string, RawNode>, edges: seq<RawEdge>, devices: seq<string>,
                              merged: set<string>, known: seq<Endpoint>, endpoints: seq<Endpoint>,
                              at: map<string, Placement>, c: string, i: nat)
    requires i < |endpoints| == |known| && forall d | d in devices :: d in raw
  {
    var id := EndpointNodeId(endpoints[i].agent);
    && c in raw && Claims(endpoints[i], raw[c]) && id in at
    && SitsByAnnouncement(raw, edges, devices, merged, known[i], endpoints[i], at[id])
  }

  /** Every merged device has its endpoint, and that sits where it was announced. */
  ghost predicate MachinesSit(raw: map<string, RawNode>, edges: seq<RawEdge>, devices: seq<string>,
                              merged: set<string>, known: seq<Endpoint>, endpoints: seq<Endpoint>,
                              at: map<string, Placement>)
    requires forall d | d in devices :: d in raw
  {
    && |known| == |endpoints|
    && forall c | c in merged ::
         exists i: nat :: i < |endpoints| && MachineSits(raw, edges, devices, merged, known, endpoints, at, c, i)
  }

  lemma LadderLetsMachinesSit(raw: map<string, RawNode>, edges: seq<RawEdge>, devices: seq<string>,
                              merged: set<string>, endpoints0: seq<Endpoint>, at0: map<string, Placement>,
                              endpoints: seq<Endpoint>, at: map<string, Placement>)
    requires (forall c | c in devices :: c in raw) && NoRepeats(Ids(endpoints0))
    requires MergedInto(raw, endpoints0, edges, merged, at0)
    requires forall c | c in merged :: AgentIsPlaced(raw, endpoints0, at0, c)
    requires KeepsMacs(endpoints0, endpoints) && forall id | id in at0 :: id in at && at[id] == at0[id]
    ensures MachinesSit(raw, edges, devices, merged, endpoints, endpoints, at)
  {
    hide LldpSwitchAndPort, NoRepeats, MergedInto, EndpointNodeId, Fallback, Ids;
    forall c | c in merged
      ensures exists i: nat ::
                i < |endpoints| && MachineSits(raw, edges, devices, merged, endpoints, endpoints, at, c, i)
    {
      var ep :| ep in endpoints0 && Claims(ep, raw[c]) && EndpointNodeId(ep.agent) in at0;
      var i: nat :| i < |endpoints0| && endpoints0[i] == ep;
      assert KeepsMac(endpoints0[i], endpoints[i]);
      var c', ep' := ClaimedBy(raw, endpoints0, edges, merged, at0, EndpointNodeId(ep.agent));
      AgentIs(ep'.agent, ep.agent);
      OneEndpoint(endpoints0, i, ep');
      assert IsAnnouncedAt(raw, edges, devices, endpoints[i], at[EndpointNodeId(ep.agent)], c');
      assert MachineSits(raw, edges, devices, merged, endpoints, endpoints, at, c, i);
    }
  }

  lemma LateLetsMachinesSit(raw: map<string, RawNode>, edges: seq<RawEdge>, t: MacTable, devices: seq<string>,
                            merged: set<string>, endpoints0: seq<Endpoint>, at0: map<string, Placement>,
                            late: set<string>, endpoints: seq<Endpoint>, at: map<string, Placement>)
    requires forall d | d in devices :: d in raw
    requires MachinesSit(raw, edges, devices, merged, endpoints0, endpoints0, at0)
    requires LateUpTo(raw, edges, t, devices, endpoints0, at0, |endpoints0|, late, endpoints, at)
    ensures MachinesSit(raw, edges, devices, merged + late, endpoints0, endpoints, at)
  {
    hide IsNotMissed, CanMerge, SitsByAnnouncement, IsSame, IsMerged;
    forall c | c in merged + late
      ensures exists i: nat ::
                i < |endpoints| && MachineSits(raw, edges, devices, merged + late, endpoints0, endpoints, at, c, i)
    {
      if c in late {
        var j: nat :| j < |endpoints0| && IsMerged(raw, edges, t, devices, endpoints0, at0, endpoints, at, j, c);
        LateMachineSits(raw, edges, t, devices, merged + late, endpoints0, at0, endpoints, at, j, c, c);
      } else {
        var i: nat :| i < |endpoints0| && MachineSits(raw, edges, devices, merged, endpoints0, endpoints0, at0, c, i);
        if IsSame(endpoints0, at0, endpoints, at, i) {
          SameMachineSits(raw, edges, devices, merged, late, endpoints0, at0, endpoints, at, i, c);
        } else {
          var d :| d in late && IsMerged(raw, edges, t, devices, endpoints0, at0, endpoints, at, i, d);
          LateMachineSits(raw, edges, t, devices, merged + late, endpoints0, at0, endpoints, at, i, c, d);
        }
      }
    }
  }

  lemma LateMachineSits(raw: map<string, RawNode>, edges: seq<RawEdge>, t: MacTable, devices: seq<string>,
                        merged: set<string>, endpoints0: seq<Endpoint>, at0: map<string, Placement>,
                        endpoints: seq<Endpoint>, at: map<string, Placement>, i: nat, c: string, d: string)
    requires (forall x | x in devices :: x in raw) && i < |endpoints0| == |endpoints| && d in merged
    requires IsMerged(raw, edges, t, devices, endpoints0, at0, endpoints, at, i, d)
    requires (c == d || (c in raw && Claims(endpoints0[i], raw[c])))
    ensures MachineSits(raw, edges, devices, merged, endpoints0, endpoints, at, c, i)
  {
    hide LateDevice, LldpSwitchAndPort, Fallback, EndpointNodeId;
    var id := EndpointNodeId(endpoints0[i].agent);
    assert IsAnnouncedAt(raw, edges, devices, endpoints0[i], at[id], d) && Claims(endpoints[i], raw[d]);
  }

  lemma SameMachineSits(raw: map<string, RawNode>, edges: seq<RawEdge>, devices: seq<string>, merged: set<string>,
                        late: set<string>, endpoints0: seq<Endpoint>, at0: map<string, Placement>,
                        endpoints: seq<Endpoint>, at: map<string, Placement>, i: nat, c: string)
    requires (forall x | x in devices :: x in raw) && i < |endpoints0| == |endpoints|
    requires IsSame(endpoints0, at0, endpoints, at, i)
    requires MachineSits(raw, edges, devices, merged, endpoints0, endpoints0, at0, c, i)
    ensures MachineSits(raw, edges, devices, merged + late, endpoints0, endpoints, at, c, i)
  {
    hide IsAnnouncedAt, EndpointNodeId;
    var id := EndpointNodeId(endpoints0[i].agent);
    var d :| d in merged && d in raw && Claims(endpoints0[i], raw[d])
             && IsAnnouncedAt(raw, edges, devices, endpoints0[i], at0[id], d);
    assert d in merged + late;
  }

  lemma RetiredMachineSits(raw: map<string, RawNode>, edges: seq<RawEdge>, devices: seq<string>, gone: set<string>,
                           merged: set<string>, known: Endpoint, ep: Endpoint, p: Placement, p': Placement)
    requires (forall c | c in devices :: c in raw) && KeepsMac(known, ep)
    requires SitsByAnnouncement(raw, edges, devices, merged, known, ep, p)
    requires p' == if p.parent.Some? && p.parent.value in gone then Fallback(raw, ep, Without(devices, gone)) else p
    ensures SitsByAnnouncement(raw, edges, Without(devices, gone), merged, known, ep, p')
  {
    hide Without, LldpSwitchAndPort;
    var left := Without(devices, gone);
    assert Fallback(raw, ep, left) == Fallback(raw, known, left);
    var c :| c in merged && c in raw && Claims(ep, raw[c]) && IsAnnouncedAt(raw, edges, devices, known, p, c);
    if (p.parent, p.port) != LldpSwitchAndPort(c, edges) && !(p.parent.Some? && p.parent.value in gone) {
      FallbackStays(raw, known, devices, gone);
    }
    assert IsAnnouncedAt(raw, edges, left, known, p', c);
  }

  lemma RetiringLetsMachinesSit(raw: map<string, RawNode>, edges: seq<RawEdge>, devices: seq<string>,
                                gone: set<string>, merged: set<string>, known: seq<Endpoint>,
                                endpoints: seq<Endpoint>, at0: map<string, Placement>, at: map<string, Placement>)
    requires (forall c | c in devices :: c in raw) && MachinesSit(raw, edges, devices, merged, known, endpoints, at0)
    requires NoRepeats(Ids(endpoints)) && KeepsMacs(known, endpoints) && OnlyEndpointsOn(endpoints, gone, at0)
    requires AreRetired(raw, endpoints, Without(devices, gone), gone, at0, at)
    ensures MachinesSit(raw, edges, Without(devices, gone), merged, known, endpoints, at)
  {
    hide SitsByAnnouncement, Fallback, Without, NoRepeats, OnlyEndpointsOn;
    forall c | c in merged
      ensures exists i: nat ::
                i < |endpoints| && MachineSits(raw, edges, Without(devices, gone), merged, known, endpoints, at, c, i)
    {
      var i: nat :| i < |endpoints| && MachineSits(raw, edges, devices, merged, known, endpoints, at0, c, i);
      var id := EndpointNodeId(endpoints[i].agent);
      assert Ids(endpoints)[i] == id;
      EndpointOfIs(endpoints, i);
      RetiredMachineSits(raw, edges, devices, gone, merged, known[i], endpoints[i], at0[id], at[id]);
      assert MachineSits(raw, edges, Without(devices, gone), merged, known, endpoints, at, c, i);
    }
  }

  lemma MachinesUntouched(raw: map<string, RawNode>, edges: seq<RawEdge>, devices: seq<string>, merged: set<string>,
                          known: seq<Endpoint>, endpoints: seq<Endpoint>, at0: map<string, Placement>,
                          at: map<string, Placement>)
    requires (forall c | c in devices :: c in raw) && MachinesSit(raw, edges, devices, merged, known, endpoints, at0)
    requires forall id | id in Ids(endpoints) && id in at0 :: id in at && at[id] == at0[id]
    ensures MachinesSit(raw, edges, devices, merged, known, endpoints, at)
  {
    hide SitsByAnnouncement;
    forall c | c in merged
      ensures exists i: nat :: i < |endpoints| && MachineSits(raw, edges, devices, merged, known, endpoints, at, c, i)
    {
      var i: nat :| i < |endpoints| && MachineSits(raw, edges, devices, merged, known, endpoints, at0, c, i);
      assert Ids(endpoints)[i] in Ids(endpoints);
      assert MachineSits(raw, edges, devices, merged, known, endpoints, at, c, i);
    }
  }

  /** Every merged device's endpoint sits where it was announced, or under an access point
      it is a client of. */
  ghost predicate MachinesEndRight(nodes: seq<RawNode>, raw: map<string, RawNode>, edges: seq<RawEdge>,
                                   devices: seq<string>, merged: set<string>, known: seq<Endpoint>,
                                   endpoints: seq<Endpoint>, hosts: seq<Host>, at: map<string, Placement>)
    requires forall d | d in devices :: d in raw
  {
    && |known| == |endpoints|
    && forall c | c in merged :: exists i: nat ::
          i < |endpoints| && MachineEndsRight(nodes, raw, edges, devices, merged, known[i], endpoints, hosts, at, c, i)
  }

  ghost predicate MachineEndsRight(nodes: seq<RawNode>, raw: map<string, RawNode>, edges: seq<RawEdge>,
                                   devices: seq<string>, merged: set<string>, known: Endpoint,
                                   endpoints: seq<Endpoint>, hosts: seq<Host>, at: map<string, Placement>, c: string,
                                   i: nat)
    requires i < |endpoints| && forall d | d in devices :: d in raw
  {
    var id := EndpointNodeId(endpoints[i].agent);
    && c in raw && Claims(endpoints[i], raw[c]) && id in at
    && (|| SitsByAnnouncement(raw, edges, devices, merged, known, endpoints[i], at[id])
        || OnAccessPoint(nodes, devices, endpoints, hosts, id, at[id]))
  }

  lemma WifiLetsMachinesSit(nodes: seq<RawNode>, raw: map<string, RawNode>, edges: seq<RawEdge>, devices: seq<string>,
                            merged: set<string>, known: seq<Endpoint>, endpoints0: seq<Endpoint>,
                            endpoints: seq<Endpoint>, hosts: seq<Host>, at0: map<string, Placement>,
                            at: map<string, Placement>)
    requires (forall c | c in devices :: c in raw) && KeepsMacs(endpoints0, endpoints)
    requires MachinesSit(raw, edges, devices, merged, known, endpoints0, at0)
    requires MovedOnlyUnderAps(nodes, devices, endpoints, hosts, at0, at)
    ensures MachinesEndRight(nodes, raw, edges, devices, merged, known, endpoints, hosts, at)
  {
    hide MachineSits, MachineEndsRight, OnAccessPoint, MovedOnlyUnderAps;
    forall c | c in merged
      ensures exists i: nat ::
          i < |endpoints| && MachineEndsRight(nodes, raw, edges, devices, merged, known[i], endpoints, hosts, at, c, i)
    {
      var i: nat :| i < |endpoints0| && MachineSits(raw, edges, devices, merged, known, endpoints0, at0, c, i);
      assert KeepsMac(endpoints0[i], endpoints[i]);
      WifiLetsMachineSit(nodes, raw, edges, devices, merged, known, endpoints0, endpoints, hosts, at0, at, c, i);
    }
  }

  lemma WifiLetsMachineSit(nodes: seq<RawNode>, raw: map<string, RawNode>, edges: seq<RawEdge>, devices: seq<string>,
                           merged: set<string>, known: seq<Endpoint>, endpoints0: seq<Endpoint>,
                           endpoints: seq<Endpoint>, hosts: seq<Host>, at0: map<string, Placement>,
                           at: map<string, Placement>, c: string, i: nat)
    requires (forall c | c in devices :: c in raw) && i < |endpoints0| == |endpoints| == |known|
    requires MachineSits(raw, edges, devices, merged, known, endpoints0, at0, c, i)
    requires KeepsMac(endpoints0[i], endpoints[i])
    requires MovedOnlyUnderAps(nodes, devices, endpoints, hosts, at0, at)
    ensures MachineEndsRight(nodes, raw, edges, devices, merged, known[i], endpoints, hosts, at, c, i)
  {
    hide IsAnnouncedAt, OnAccessPoint;
  }

  // ---- the hosts -----------------------------------------------------------------------

  /** A device of the document that was not merged and is no network equipment. */
  predicate IsNeighbour(raw: map<string, RawNode>, order: seq<string>, merged: set<string>, c: string) {
    c in order && c in raw && c !in merged && IsEndHost(raw[c])
  }

  function HostOf(raw: map<string, RawNode>, c: string): Host
    requires c in raw
  {
    Host(EndHostId(raw, c), HostMac(raw[c]))
  }

  /** The host sits where the neighbour it is was announced, if that is a device of the graph. */
  ghost predicate IsAnnounced(raw: map<string, RawNode>, edges: seq<RawEdge>, order: seq<string>, merged: set<string>,
                              devices: seq<string>, id: string, p: Placement) {
    exists c :: IsNeighbour(raw, order, merged, c) && EndHostId(raw, c) == id && p == AnnouncedAt(edges, devices, [], c)
  }

  ghost predicate IsRowOf(t: MacTable, id: string, p: Placement) {
    exists m :: m in t.byMac && id == HostNodeId(m) && p == RowPlacement(t, m)
  }

  /** Every host is there for a reason, and sits where that says. */
  ghost predicate HostsSitRight(nodes: seq<RawNode>, raw: map<string, RawNode>, edges: seq<RawEdge>, t: MacTable,
                                order: seq<string>, devices: seq<string>, merged: set<string>,
                                endpoints: seq<Endpoint>, hosts: seq<Host>, at: map<string, Placement>) {
    forall id | id in at && id !in Ids(endpoints) ::
      || IsAnnounced(raw, edges, order, merged, devices, id, at[id])
      || IsRowOf(t, id, at[id])
      || OnAccessPoint(nodes, devices, endpoints, hosts, id, at[id])
  }

  /** Every neighbour left is a host, and every MAC of the tables belongs to some node; and
      no host is there that is none of these, nor a client. */
  ghost predicate HostsAreThose(nodes: seq<RawNode>, raw: map<string, RawNode>, t: MacTable, order: seq<string>,
                                devices: seq<string>, merged: set<string>, endpoints: seq<Endpoint>,
                                hosts: seq<Host>) {
    && (forall c | IsNeighbour(raw, order, merged, c) :: HostOf(raw, c) in hosts)
    && (forall m | m in t.byMac :: IsKnown(raw, devices, endpoints, hosts, t, m))
    && forall h | h in hosts ::
         || (exists c :: IsNeighbour(raw, order, merged, c) && h == HostOf(raw, c))
         || (exists m :: (m in t.byMac || IsClientMac(nodes, m)) && h == Host(HostNodeId(m), Some(m)))
  }

  /** When the end hosts are dropped, an announcer that was none of them is what is left. */
  lemma AnnouncedStays(edges: seq<RawEdge>, devices: seq<string>, ends: seq<string>, c: string)
    ensures AnnouncedAt(edges, devices, ends, c) == AnnouncedAt(edges, Without(devices, Members(ends)), [], c)
  {
  }

  /** After the table hosts: from what the end hosts and the tables added. */
  lemma TableHostsSitRight(nodes: seq<RawNode>, raw: map<string, RawNode>, edges: seq<RawEdge>, t: MacTable,
                           order: seq<string>, devices: seq<string>, merged: set<string>, endpoints: seq<Endpoint>,
                           known: set<Mac>, at0: map<string, Placement>, hosts0: seq<Host>,
                           at: map<string, Placement>, hosts: seq<Host>)
    requires (forall m | m in t.macs :: m in t.byMac) && TableHostsUpTo(known, t, |t.macs|, at0, hosts0, at, hosts)
    requires forall id | id in at0 && id !in Ids(endpoints) ::
               IsAnnounced(raw, edges, order, merged, devices, id, at0[id])
    ensures HostsSitRight(nodes, raw, edges, t, order, devices, merged, endpoints, hosts, at)
  {
    hide IsAnnounced, OnAccessPoint, Ids, HostNodeId, RowPlacement;
    forall id | id in at && id !in Ids(endpoints)
      ensures IsAnnounced(raw, edges, order, merged, devices, id, at[id]) || IsRowOf(t, id, at[id])
    {
      if !(id in at0 && at[id] == at0[id]) {
        var m :| m in t.byMac && m !in known && id == HostNodeId(m) && at[id] == RowPlacement(t, m);
      }
    }
  }

  lemma KnownStays(raw: map<string, RawNode>, devices: seq<string>, t: MacTable, m: Mac, endpoints0: seq<Endpoint>,
                   hosts0: seq<Host>, endpoints: seq<Endpoint>, hosts: seq<Host>)
    requires IsKnown(raw, devices, endpoints0, hosts0, t, m) && KeepsMacs(endpoints0, endpoints)
    requires forall h | h in hosts0 :: h in hosts
    ensures IsKnown(raw, devices, endpoints, hosts, t, m)
  {
    if ep :| ep in endpoints0 && ep.mac == Some(m) {
      var i :| 0 <= i < |endpoints0| && endpoints0[i] == ep;
      assert KeepsMac(endpoints0[i], endpoints[i]) && endpoints[i] in endpoints;
    }
  }

  lemma HostIsKnown(raw: map<string, RawNode>, devices: seq<string>, t: MacTable, m: Mac, endpoints: seq<Endpoint>,
                    hosts: seq<Host>)
    requires Host(HostNodeId(m), Some(m)) in hosts
    ensures IsKnown(raw, devices, endpoints, hosts, t, m)
  {
  }

  lemma TableHostsAreThose(nodes: seq<RawNode>, raw: map<string, RawNode>, t: MacTable, order: seq<string>,
                           devices: seq<string>, merged: set<string>, endpoints: seq<Endpoint>, known: set<Mac>,
                           at0: map<string, Placement>, hosts0: seq<Host>, at: map<string, Placement>,
                           hosts: seq<Host>)
    requires (forall m :: m in t.macs <==> m in t.byMac) && TableHostsUpTo(known, t, |t.macs|, at0, hosts0, at, hosts)
    requires forall m :: m in known <==> IsKnown(raw, devices, endpoints, hosts0, t, m)
    requires forall c | IsNeighbour(raw, order, merged, c) :: HostOf(raw, c) in hosts0
    requires forall h | h in hosts0 :: exists c :: IsNeighbour(raw, order, merged, c) && h == HostOf(raw, c)
    ensures HostsAreThose(nodes, raw, t, order, devices, merged, endpoints, hosts)
  {
    hide IsKnown, HostNodeId, HostOf, IsNeighbour, IsFromTable, RowPlacement, IsClientMac;
    forall m | m in t.byMac ensures IsKnown(raw, devices, endpoints, hosts, t, m) {
      if m in known {
        KnownStays(raw, devices, t, m, endpoints, hosts0, endpoints, hosts) by { SameMacs(endpoints); }
      } else {
        var i :| 0 <= i < |t.macs| && t.macs[i] == m;
        HostIsKnown(raw, devices, t, m, endpoints, hosts);
      }
    }
  }

  lemma SameMacs(endpoints: seq<Endpoint>)
    ensures KeepsMacs(endpoints, endpoints)
  {
  }

  lemma WifiHostsSitRight(nodes: seq<RawNode>, raw: map<string, RawNode>, edges: seq<RawEdge>, t: MacTable,
                          order: seq<string>, devices: seq<string>, merged: set<string>, endpoints0: seq<Endpoint>,
                          hosts0: seq<Host>, at0: map<string, Placement>, endpoints: seq<Endpoint>, hosts: seq<Host>,
                          at: map<string, Placement>)
    requires Ids(endpoints) == Ids(endpoints0) && MovedOnlyUnderAps(nodes, devices, endpoints, hosts, at0, at)
    requires HostsSitRight(nodes, raw, edges, t, order, devices, merged, endpoints0, hosts0, at0)
    requires forall id, m | NodeHas(endpoints0, hosts0, id, m) :: NodeHas(endpoints, hosts, id, m)
    ensures HostsSitRight(nodes, raw, edges, t, order, devices, merged, endpoints, hosts, at)
  {
    hide IsAnnounced, IsRowOf, Ids, NodeHas;
    forall id | id in at && id !in Ids(endpoints)
      ensures || IsAnnounced(raw, edges, order, merged, devices, id, at[id]) || IsRowOf(t, id, at[id])
              || OnAccessPoint(nodes, devices, endpoints, hosts, id, at[id])
    {
      if id in at0 && at[id] == at0[id] && OnAccessPoint(nodes, devices, endpoints0, hosts0, id, at0[id]) {
        var n, client :| n in nodes && n.chassis in devices && IsClientOf(n, client)
                         && client.mac.Some? && NodeHas(endpoints0, hosts0, id, client.mac.value)
                         && at[id] == Placement(Some(n.chassis), client.radio, Some(Wifi));
        assert NodeHas(endpoints, hosts, id, client.mac.value);
      }
    }
  }

  lemma WifiHostsAreThose(nodes: seq<RawNode>, raw: map<string, RawNode>, t: MacTable, order: seq<string>,
                          devices: seq<string>, merged: set<string>, endpoints0: seq<Endpoint>, hosts0: seq<Host>,
                          endpoints: seq<Endpoint>, hosts: seq<Host>)
    requires HostsAreThose(nodes, raw, t, order, devices, merged, endpoints0, hosts0)
    requires KeepsMacs(endpoints0, endpoints) && AddsClients(nodes, hosts0, hosts)
    ensures HostsAreThose(nodes, raw, t, order, devices, merged, endpoints, hosts)
  {
    hide IsKnown, HostNodeId, HostOf, IsNeighbour, IsClientMac, KeepsMacs;
    forall m | m in t.byMac ensures IsKnown(raw, devices, endpoints, hosts, t, m) {
      KnownStays(raw, devices, t, m, endpoints0, hosts0, endpoints, hosts);
    }
  }

  lemma NodesKeepMacs(nodes: seq<RawNode>, endpoints0: seq<Endpoint>, hosts0: seq<Host>, endpoints: seq<Endpoint>,
                      hosts: seq<Host>)
    requires KeepsMacs(endpoints0, endpoints) && AddsClients(nodes, hosts0, hosts)
    ensures forall id, m | NodeHas(endpoints0, hosts0, id, m) :: NodeHas(endpoints, hosts, id, m)
  {
    hide EndpointNodeId, IsClientMac;
    forall id, m | NodeHas(endpoints0, hosts0, id, m) ensures NodeHas(endpoints, hosts, id, m) {
      if ep :| ep in endpoints0 && EndpointNodeId(ep.agent) == id && ep.mac == Some(m) {
        var i :| 0 <= i < |endpoints0| && endpoints0[i] == ep;
        assert KeepsMac(endpoints0[i], endpoints[i]) && endpoints[i] in endpoints;
      }
    }
  }

  // ---- the whole -----------------------------------------------------------------------

  /** The devices rung 1 merges. */
  ghost function Phantoms(raw: map<string, RawNode>, endpoints: seq<Endpoint>, edges: seq<RawEdge>,
                          devices: seq<string>): set<string> {
    set c | c in devices && IsPhantom(raw, endpoints, edges, devices, c)
  }

  /** What the assembly leaves: the devices and links, the nodes and places, and what was merged. */
  datatype Assembly = Assembly(devices: seq<string>, links: seq<(string, string)>, endpoints: seq<Endpoint>,
                               hosts: seq<Host>,
                               placed: Placed, merged: set<string>)

  /** Rung 1's phantoms are merged, then those of endpoints that the tables gave a MAC,
      none missed; nothing is that is not a phantom of the endpoints as they ended up, and
      no device of infrastructure is merged late. */
  ghost predicate MergesRight(raw: map<string, RawNode>, edges: seq<RawEdge>, t: MacTable, agents: seq<Endpoint>,
                              order: seq<string>, merged: set<string>, endpoints: seq<Endpoint>)
    requires forall c | c in order :: c in raw
  {
    var early := Phantoms(raw, agents, edges, order);
    && early <= merged && (forall c | c in merged :: IsPhantom(raw, endpoints, edges, order, c))
    && (forall c | c in merged - early :: raw[c].chassisMac.Some? && raw[c].chassisMac.value !in t.infra)
    && forall ep | ep in EnrichedAll(agents, t) :: IsNotMissed(raw, ep, edges, t, Without(order, early), merged - early)
  }

  /** Every client's MAC has a node where LLDP put it, or under the last access point of
      the graph to list it. */
  ghost predicate ClientsSettle(nodes: seq<RawNode>, t: MacTable, a: Assembly) {
    forall m | m !in t.infra && LastListing(nodes, a.devices, m).Some? ::
      IsSettledAt(a.endpoints, a.hosts, a.placed.at, None, m, LastListing(nodes, a.devices, m).value)
  }

  /** The devices left are those not merged that are no end hosts, their links are the
      document's, and endpoints and hosts are where they should be. */
  ghost predicate LeavesRight(nodes: seq<RawNode>, edges: seq<RawEdge>, order: seq<string>, raw: map<string, RawNode>,
                              t: MacTable, before: seq<string>, known: seq<Endpoint>, a: Assembly)
    requires forall c | c in order :: c in raw
  {
    && (forall c :: c in a.devices <==> c in order && c !in a.merged && !IsEndHost(raw[c]))
    && a.links == LinksBetween(edges, a.devices)
    && EndpointsSitRight(nodes, raw, edges, t, before, a.devices, a.merged, known, a.endpoints, a.hosts, a.placed.at)
    && MachinesEndRight(nodes, raw, edges, a.devices, a.merged, known, a.endpoints, a.hosts, a.placed.at)
    && HostsAreThose(nodes, raw, t, order, a.devices, a.merged, a.endpoints, a.hosts)
    && HostsSitRight(nodes, raw, edges, t, order, a.devices, a.merged, a.endpoints, a.hosts, a.placed.at)
    && ClientsSettle(nodes, t, a)
  }

  /** The same before the access points' clients are moved. */
  ghost predicate StandsRight(nodes: seq<RawNode>, edges: seq<RawEdge>, order: seq<string>, raw: map<string, RawNode>,
                              t: MacTable, before: seq<string>, known: seq<Endpoint>, a: Assembly)
    requires forall c | c in order :: c in raw
  {
    && (forall c :: c in a.devices <==> c in order && c !in a.merged && !IsEndHost(raw[c]))
    && a.links == LinksBetween(edges, a.devices)
    && AllPlacedRight(raw, edges, t, before, a.devices, a.merged, known, a.endpoints, a.placed.at)
    && MachinesSit(raw, edges, a.devices, a.merged, known, a.endpoints, a.placed.at)
    && HostsAreThose(nodes, raw, t, order, a.devices, a.merged, a.endpoints, a.hosts)
    && HostsSitRight(nodes, raw, edges, t, order, a.devices, a.merged, a.endpoints, a.hosts, a.placed.at)
  }

  ghost predicate IsAssembled(nodes: seq<RawNode>, edges: seq<RawEdge>, agents: seq<Endpoint>, order: seq<string>,
                              raw: map<string, RawNode>, t: MacTable, a: Assembly)
    requires forall c | c in order :: c in raw
  {
    && MergesRight(raw, edges, t, agents, order, a.merged, a.endpoints) && KeepsMacs(agents, a.endpoints)
    && LeavesRight(nodes, edges, order, raw, t, Without(order, Phantoms(raw, agents, edges, order)),
                   EnrichedAll(agents, t), a)
  }

  lemma KeepsMacsChain(a: seq<Endpoint>, b: seq<Endpoint>, c: seq<Endpoint>)
    requires KeepsMacs(a, b) && KeepsMacs(b, c)
    ensures KeepsMacs(a, c)
  {
    forall i | 0 <= i < |a| ensures KeepsMac(a[i], c[i]) {
      assert KeepsMac(a[i], b[i]) && KeepsMac(b[i], c[i]);
    }
  }

  lemma EnrichingKeepsMacs(endpoints: seq<Endpoint>, t: MacTable)
    ensures KeepsMacs(endpoints, EnrichedAll(endpoints, t))
  {
  }

  /** A phantom stays one when endpoints gain MACs, and is one among more devices. */
  lemma PhantomStays(raw: map<string, RawNode>, edges: seq<RawEdge>, endpoints: seq<Endpoint>,
                     endpoints': seq<Endpoint>, devices: seq<string>, devices': seq<string>, c: string)
    requires IsPhantom(raw, endpoints, edges, devices, c) && KeepsMacs(endpoints, endpoints')
    requires forall d | d in devices :: d in devices'
    ensures IsPhantom(raw, endpoints', edges, devices', c)
  {
    hide LldpSwitchAndPort;
    var ep :| ep in endpoints && Claims(ep, raw[c]);
    var i :| 0 <= i < |endpoints| && endpoints[i] == ep;
    assert KeepsMac(endpoints[i], endpoints'[i]) && endpoints'[i] in endpoints' && Claims(endpoints'[i], raw[c]);
  }

  /** The two merges together. */
  lemma MergesAreRight(raw: map<string, RawNode>, edges: seq<RawEdge>, t: MacTable, agents: seq<Endpoint>,
                       order: seq<string>, early: set<string>, late: set<string>, after: seq<Endpoint>,
                       endpoints: seq<Endpoint>)
    requires (forall c | c in order :: c in raw) && early == Phantoms(raw, agents, edges, order)
    requires forall c | c in late :: IsPhantom(raw, after, edges, Without(order, early), c)
    requires forall ep | ep in EnrichedAll(agents, t) :: IsNotMissed(raw, ep, edges, t, Without(order, early), late)
    requires forall c | c in late :: IsOwnOrNew(raw, t, agents, c)
    requires KeepsMacs(agents, after) && KeepsMacs(after, endpoints)
    ensures MergesRight(raw, edges, t, agents, order, early + late, endpoints)
  {
    hide IsPhantom, IsNotMissed, KeepsMacs;
    KeepsMacsChain(agents, after, endpoints);
    forall c | c in late ensures c !in early {
      assert c in Without(order, early) by { IsAmong(raw, after, edges, Without(order, early), c); }
    }
    assert early + late - early == late;
    forall c | c in late ensures raw[c].chassisMac.Some? && raw[c].chassisMac.value !in t.infra {
      LateIsNew(raw, edges, t, agents, order, after, c);
    }
    forall c | c in early + late ensures IsPhantom(raw, endpoints, edges, order, c) {
      if c in early {
        PhantomStays(raw, edges, agents, endpoints, order, order, c);
      } else {
        PhantomStays(raw, edges, after, endpoints, Without(order, early), order, c);
      }
    }
  }

  lemma LateIsNew(raw: map<string, RawNode>, edges: seq<RawEdge>, t: MacTable, agents: seq<Endpoint>,
                  order: seq<string>, after: seq<Endpoint>, c: string)
    requires IsOwnOrNew(raw, t, agents, c)
    requires IsPhantom(raw, after, edges, Without(order, Phantoms(raw, agents, edges, order)), c)
    ensures raw[c].chassisMac.Some? && raw[c].chassisMac.value !in t.infra
  {
    hide Claims, Phantoms, IsPhantom;
    var early := Phantoms(raw, agents, edges, order);
    IsAmong(raw, after, edges, Without(order, early), c);
    OwnIsEarly(raw, edges, agents, order, after, Without(order, early), c);
  }

  lemma OwnIsEarly(raw: map<string, RawNode>, edges: seq<RawEdge>, agents: seq<Endpoint>, order: seq<string>,
                   after: seq<Endpoint>, devices: seq<string>, c: string)
    requires IsPhantom(raw, after, edges, devices, c) && forall d | d in devices :: d in order
    ensures (exists ep :: ep in agents && Claims(ep, raw[c])) ==> c in Phantoms(raw, agents, edges, order)
  {
    hide LldpSwitchAndPort, Claims;
    assert (exists ep :: ep in agents && Claims(ep, raw[c])) ==> IsPhantom(raw, agents, edges, order, c);
  }

  /** What the tables gave an endpoint is no infrastructure. */
  lemma EnrichedAreNew(nodes: seq<RawNode>, raw: map<string, RawNode>, t: MacTable, agents: seq<Endpoint>, c: string)
    requires IsTable(nodes, t) && IsOwnOrNew(raw, t, EnrichedAll(agents, t), c)
    ensures IsOwnOrNew(raw, t, agents, c)
  {
    if ep :| ep in EnrichedAll(agents, t) && Claims(ep, raw[c]) {
      var i :| 0 <= i < |agents| && EnrichedAll(agents, t)[i] == ep;
      if ep == agents[i] {
        assert agents[i] in agents;
      } else {
        TableMacsAreNew(nodes, t);
      }
    }
  }

  lemma TableMacsAreNew(nodes: seq<RawNode>, t: MacTable)
    requires IsTable(nodes, t)
    ensures forall ip | ip in t.byIp :: t.byIp[ip] !in t.infra
  {
    hide IsFact, IsInfra, NoRepeats;
  }

  /** None of the merged devices had been polled exactly when none that rung 1 merges had:
      a late one has a MAC that is no infrastructure, and a polled device's is. */
  lemma NoneMergedWasPolledExactlyWhen(nodes: seq<RawNode>, edges: seq<RawEdge>, agents: seq<Endpoint>,
                                       order: seq<string>, raw: map<string, RawNode>, t: MacTable,
                                       merged: set<string>, endpoints: seq<Endpoint>)
    requires (forall c | c in order :: c in raw) && (forall c | c in raw :: raw[c] in nodes) && IsTable(nodes, t)
    requires MergesRight(raw, edges, t, agents, order, merged, endpoints)
    ensures NoneWasPolled(raw, merged) <==> NoneWasPolled(raw, Phantoms(raw, agents, edges, order))
  {
    hide IsPhantom, IsNotMissed, IsTable, Phantoms;
    var early := Phantoms(raw, agents, edges, order);
    forall c | c in merged && Polled(raw, c) ensures c in early {
      PolledIsInfra(nodes, raw, t, c);
      assert c in early || c in merged - early;
    }
  }

  lemma PolledIsInfra(nodes: seq<RawNode>, raw: map<string, RawNode>, t: MacTable, c: string)
    requires Polled(raw, c) && raw[c] in nodes && IsTable(nodes, t)
    ensures raw[c].chassisMac.Some? ==> raw[c].chassisMac.value in t.infra
  {
    hide IsFact, NoRepeats;
    if raw[c].chassisMac.Some? {
      assert IsOwn(raw[c], raw[c].chassisMac.value);
    }
  }

  lemma IsAmong(raw: map<string, RawNode>, endpoints: seq<Endpoint>, edges: seq<RawEdge>, devices: seq<string>,
                c: string)
    requires IsPhantom(raw, endpoints, edges, devices, c)
    ensures c in devices
  {
  }

  /** The end hosts among the devices left are the neighbours. */
  lemma EndHostsAreNeighbours(raw: map<string, RawNode>, order: seq<string>, merged: set<string>,
                              devices: seq<string>, hosts: seq<Host>)
    requires (forall c | c in order :: c in raw) && forall c :: c in devices <==> c in order && c !in merged
    requires |hosts| == |EndHosts(raw, devices)|
    requires forall i | 0 <= i < |hosts| :: hosts[i] == HostOf(raw, EndHosts(raw, devices)[i])
    ensures forall c :: c in EndHosts(raw, devices) <==> IsNeighbour(raw, order, merged, c)
    ensures forall c | IsNeighbour(raw, order, merged, c) :: HostOf(raw, c) in hosts
    ensures forall h | h in hosts :: exists c :: IsNeighbour(raw, order, merged, c) && h == HostOf(raw, c)
  {
    hide HostOf, IsEndHost;
    var ends := EndHosts(raw, devices);
    assert forall c :: c in ends <==> IsNeighbour(raw, order, merged, c);
    forall c | IsNeighbour(raw, order, merged, c) ensures HostOf(raw, c) in hosts {
      var i :| 0 <= i < |ends| && ends[i] == c;
      assert hosts[i] in hosts;
    }
    forall h | h in hosts ensures exists c :: IsNeighbour(raw, order, merged, c) && h == HostOf(raw, c) {
      var i :| 0 <= i < |hosts| && hosts[i] == h;
      assert IsNeighbour(raw, order, merged, ends[i]);
    }
  }
}
