/** Placing the endpoints: rung 1 merges the devices that are agents' machines into their
    endpoints, the ladder places the rest from the forwarding tables or by subnet, and the
    endpoints of a retired device are placed again. */
module AssemblyPlacement {
  import opened AssemblySteps
  import opened MacTables
  import opened Sequences
  import opened Wrappers

  function Ids(endpoints: seq<Endpoint>): (ids: seq<string>)
    ensures |ids| == |endpoints| && forall i | 0 <= i < |ids| :: ids[i] == EndpointNodeId(endpoints[i].agent)
  {
    seq(|endpoints|, i requires 0 <= i < |endpoints| => EndpointNodeId(endpoints[i].agent))
  }

  /** The first endpoint with this node id. */
  function EndpointOf(endpoints: seq<Endpoint>, id: string): Endpoint
    requires id in Ids(endpoints)
  {
    if Ids(endpoints)[0] == id then endpoints[0]
    else
      assert Ids(endpoints)[1..] == Ids(endpoints[1..]);
      EndpointOf(endpoints[1..], id)
  }

  /** Each endpoint that is placed nowhere has a reason, and no other has. */
  ghost predicate ReasonsExplain(ids: seq<string>, at: map<string, Placement>, reasons: map<string, Reason>) {
    && (forall id | id in reasons :: id in ids && id in at && at[id].parent.None?)
    && forall id | id in ids && id in at && at[id].parent.None? :: id in reasons
  }

  ghost predicate Claims(ep: Endpoint, n: RawNode) {
    n.chassisMac.Some? && ep.mac == n.chassisMac
  }

  function LldpPlacement(c: string, edges: seq<RawEdge>): Placement {
    var (switch, port) := LldpSwitchAndPort(c, edges);
    Placement(switch, port, Some(Lldp))
  }

  /** A device that is an agent's machine, and can be merged into it: it is no network
      equipment, and the device that announced it is known. */
  ghost predicate IsPhantom(raw: map<string, RawNode>, endpoints: seq<Endpoint>, edges: seq<RawEdge>,
                            devices: seq<string>, c: string) {
    && c in devices && c in raw && !raw[c].equipment
    && (exists ep :: ep in endpoints && Claims(ep, raw[c]))
    && var switch := LldpSwitchAndPort(c, edges).0;
       switch.Some? && switch.value in devices
  }

  /** No later endpoint has its MAC. */
  ghost predicate IsLastOfItsMac(endpoints: seq<Endpoint>, ep: Endpoint) {
    exists i | 0 <= i < |endpoints| ::
      endpoints[i] == ep && forall j | i < j < |endpoints| :: endpoints[j].mac != ep.mac
  }

  /** The endpoint, the last with its MAC, sits where the device that was its machine was
      announced. */
  ghost predicate SitsAt(raw: map<string, RawNode>, endpoints: seq<Endpoint>, edges: seq<RawEdge>, id: string,
                         p: Placement, c: string) {
    c in raw && p == LldpPlacement(c, edges)
    && exists ep :: && ep in endpoints && Claims(ep, raw[c]) && IsLastOfItsMac(endpoints, ep)
                    && id == EndpointNodeId(ep.agent)
  }

  /** `endpoints_by_mac`: the last endpoint of each MAC. */
  method EndpointsByMac(endpoints: seq<Endpoint>) returns (byMac: map<Mac, Endpoint>)
    ensures forall m :: m in byMac <==> exists ep :: ep in endpoints && ep.mac == Some(m)
    ensures forall m | m in byMac ::
              byMac[m] in endpoints && byMac[m].mac == Some(m) && IsLastOfItsMac(endpoints, byMac[m])
  {
    byMac := map[];
    for i := 0 to |endpoints|
      invariant forall m | m in byMac ::
                  byMac[m] in endpoints && byMac[m].mac == Some(m) && IsLastOfItsMac(endpoints[..i], byMac[m])
      invariant forall k | 0 <= k < i && endpoints[k].mac.Some? :: endpoints[k].mac.value in byMac
    {
      LastOfMore(endpoints, i);
      if endpoints[i].mac.Some? {
        byMac := byMac[endpoints[i].mac.value := endpoints[i]];
      }
    }
    assert endpoints[..|endpoints|] == endpoints;
  }

  lemma LastOfMore(endpoints: seq<Endpoint>, i: nat)
    requires i < |endpoints|
    ensures IsLastOfItsMac(endpoints[..i + 1], endpoints[i])
    ensures forall ep | IsLastOfItsMac(endpoints[..i], ep) && ep.mac != endpoints[i].mac ::
              IsLastOfItsMac(endpoints[..i + 1], ep)
  {
    assert endpoints[..i + 1][i] == endpoints[i];
    forall ep | IsLastOfItsMac(endpoints[..i], ep) && ep.mac != endpoints[i].mac
      ensures IsLastOfItsMac(endpoints[..i + 1], ep)
    {
      var k :| 0 <= k < i && endpoints[..i][k] == ep && forall j | k < j < i :: endpoints[..i][j].mac != ep.mac;
      assert endpoints[..i + 1][k] == ep;
      assert forall j | k < j < i :: endpoints[..i + 1][j] == endpoints[..i][j];
    }
  }

  lemma PhantomIsClaimed(raw: map<string, RawNode>, endpoints: seq<Endpoint>, c: string, m: Mac, ep: Endpoint)
    requires c in raw && raw[c].chassisMac == Some(m) && ep in endpoints && ep.mac == Some(m)
    ensures Claims(ep, raw[c]) && EndpointNodeId(ep.agent) in Ids(endpoints)
  {
    var i :| 0 <= i < |endpoints| && endpoints[i] == ep;
    assert Ids(endpoints)[i] == EndpointNodeId(ep.agent);
  }

  /** Everything placed so far sits where a merged device was announced. */
  ghost predicate MergedInto(raw: map<string, RawNode>, endpoints: seq<Endpoint>, edges: seq<RawEdge>,
                             merged: set<string>, at: map<string, Placement>) {
    && (forall id | id in at :: id in Ids(endpoints))
    && forall id | id in at :: exists c :: c in merged && SitsAt(raw, endpoints, edges, id, at[id], c)
  }

  /** The endpoint a merged device became, the last with its MAC, is placed. */
  ghost predicate AgentIsPlaced(raw: map<string, RawNode>, endpoints: seq<Endpoint>, at: map<string, Placement>,
                                c: string) {
    c in raw && exists ep :: && ep in endpoints && Claims(ep, raw[c]) && IsLastOfItsMac(endpoints, ep)
                             && EndpointNodeId(ep.agent) in at
  }

  lemma MergeOne(raw: map<string, RawNode>, endpoints: seq<Endpoint>, edges: seq<RawEdge>, merged: set<string>,
                 at: map<string, Placement>, c: string, ep: Endpoint)
    requires MergedInto(raw, endpoints, edges, merged, at)
    requires c in raw && ep in endpoints && Claims(ep, raw[c]) && EndpointNodeId(ep.agent) in Ids(endpoints)
    requires IsLastOfItsMac(endpoints, ep)
    ensures MergedInto(raw, endpoints, edges, merged + {c}, at[EndpointNodeId(ep.agent) := LldpPlacement(c, edges)])
  {
    hide Ids, Claims, IsLastOfItsMac;
    var id := EndpointNodeId(ep.agent);
    var at' := at[id := LldpPlacement(c, edges)];
    forall x | x in at' ensures exists d :: d in merged + {c} && SitsAt(raw, endpoints, edges, x, at'[x], d) {
      if x == id {
        assert c in merged + {c} && SitsAt(raw, endpoints, edges, x, at'[x], c);
      } else {
        var d :| d in merged && SitsAt(raw, endpoints, edges, x, at[x], d);
        assert d in merged + {c};
      }
    }
  }

  lemma PhantomsAreOnLinks(raw: map<string, RawNode>, endpoints: seq<Endpoint>, edges: seq<RawEdge>,
                           devices: seq<string>, merged: set<string>, at: map<string, Placement>)
    requires MergedInto(raw, endpoints, edges, merged, at)
    requires forall c | c in merged :: IsPhantom(raw, endpoints, edges, devices, c)
    ensures forall id | id in at :: exists c :: c in merged && IsOnLinkTo(edges, at[id], c)
  {
    hide Ids, Claims, LldpSwitchAndPort, IsOnLinkTo;
    forall id | id in at ensures exists c :: c in merged && IsOnLinkTo(edges, at[id], c) {
      var c :| c in merged && SitsAt(raw, endpoints, edges, id, at[id], c);
      assert IsPhantom(raw, endpoints, edges, devices, c);
      AnnouncedIsOnLink(c, edges, at[id]);
    }
  }

  /** The loop of `_merge_lldp_phantoms`. */
  method FindPhantoms(raw: map<string, RawNode>, endpoints: seq<Endpoint>, edges: seq<RawEdge>, devices: seq<string>)
    returns (merged: set<string>, placed: Placed)
    requires forall c | c in devices :: c in raw
    ensures placed.Valid() && MergedInto(raw, endpoints, edges, merged, placed.at)
    ensures forall c :: c in merged <==> IsPhantom(raw, endpoints, edges, devices, c)
    ensures forall c | c in merged :: AgentIsPlaced(raw, endpoints, placed.at, c)
    ensures forall id | id in placed.at :: exists c :: c in merged && IsOnLinkTo(edges, placed.at[id], c)
  {
    hide Ids, SitsAt, Placed.Valid, MergedInto, IsOnLinkTo, IsLastOfItsMac;
    var byMac := EndpointsByMac(endpoints);
    merged, placed := {}, Placed([], map[]);
    assert placed.Valid() && MergedInto(raw, endpoints, edges, merged,
                                        placed.at) by { NothingMerged(raw, endpoints, edges); }
    for i := 0 to |devices|
      invariant placed.Valid() && MergedInto(raw, endpoints, edges, merged, placed.at)
      invariant forall c :: c in merged <==> c in devices[..i] && IsPhantom(raw, endpoints, edges, devices, c)
      invariant forall c | c in merged :: AgentIsPlaced(raw, endpoints, placed.at, c)
    {
      var c := devices[i];
      assert devices[..i + 1] == devices[..i] + [c];
      var mac := raw[c].chassisMac;
      var (switch, port) := LldpSwitchAndPort(c, edges);
      if mac.Some? && mac.value in byMac && !raw[c].equipment && switch.Some? && switch.value in devices {
        var ep := byMac[mac.value];
        PhantomIsClaimed(raw, endpoints, c, mac.value, ep);
        MergeOne(raw, endpoints, edges, merged, placed.at, c, ep);
        merged := merged + {c};
        placed.PutIsValid(EndpointNodeId(ep.agent), LldpPlacement(c, edges));
        placed := placed.Put(EndpointNodeId(ep.agent), LldpPlacement(c, edges));
      }
    }
    assert devices[..|devices|] == devices;
    PhantomsAreOnLinks(raw, endpoints, edges, devices, merged, placed.at);
  }

  lemma NothingMerged(raw: map<string, RawNode>, endpoints: seq<Endpoint>, edges: seq<RawEdge>)
    ensures Placed([], map[]).Valid() && MergedInto(raw, endpoints, edges, {}, map[])
  {
  }

  /** No merged device had been polled, and what is known comes from polled ones. */
  ghost predicate IsTrusted(raw: map<string, RawNode>, edges: seq<RawEdge>, t: MacTable, merged: set<string>) {
    PolledSources(raw, edges, t) && NoneWasPolled(raw, merged)
  }

  /** Polled devices stay, and every parent is a device that stayed. */
  ghost predicate IsWhole(raw: map<string, RawNode>, devices: seq<string>, at: map<string, Placement>) {
    KeepsPolled(raw, devices) && ParentsAreKept(devices, at)
  }

  lemma MergedIsWhole(raw: map<string, RawNode>, endpoints: seq<Endpoint>, edges: seq<RawEdge>, t: MacTable,
                      devices: seq<string>, merged: set<string>, at: map<string, Placement>)
    requires MergedInto(raw, endpoints, edges, merged, at) && IsTrusted(raw, edges, t, merged)
    requires KeepsPolled(raw, devices)
    ensures IsWhole(raw, Without(devices, merged), at)
  {
    forall id | id in at && at[id].parent.Some? ensures at[id].parent.value in Without(devices, merged) {
      var c :| c in merged && SitsAt(raw, endpoints, edges, id, at[id], c);
      SwitchWasPolled(raw, c, edges);
    }
  }

  // ---- the links ------------------------------------------------------------------------

  /** The links of the document between devices that are left, in order. */
  function LinksBetween(edges: seq<RawEdge>, devices: seq<string>): (links: seq<(string, string)>)
    ensures LinksAreKept(devices, links)
    ensures forall e | e in edges && e.source in devices && e.target in devices :: (e.source, e.target) in links
  {
    if edges == [] then []
    else
      var front, e := edges[..|edges| - 1], edges[|edges| - 1];
      assert edges == front + [e];
      LinksBetween(front, devices) + if e.source in devices && e.target in devices then [(e.source, e.target)] else []
  }

  method LinkThem(edges: seq<RawEdge>, devices: seq<string>) returns (links: seq<(string, string)>)
    ensures links == LinksBetween(edges, devices)
  {
    links := [];
    for i := 0 to |edges|
      invariant links == LinksBetween(edges[..i], devices)
    {
      assert edges[..i + 1][..i] == edges[..i];
      if edges[i].source in devices && edges[i].target in devices {
        links := links + [(edges[i].source, edges[i].target)];
      }
    }
    assert edges[..|edges|] == edges;
  }

  // ---- rungs 2 and 3 --------------------------------------------------------------------

  /** The first k endpoints are placed: by the ladder, unless they already were. */
  ghost predicate PlacedUpTo(raw: map<string, RawNode>, endpoints: seq<Endpoint>, t: MacTable, devices: seq<string>,
                             at0: map<string, Placement>, k: nat, at: map<string, Placement>,
                             reasons: map<string, Reason>)
    requires k <= |endpoints| && forall c | c in devices :: c in raw
  {
    && (forall id | id in at0 :: id in at && at[id] == at0[id])
    && (forall id | id in at :: id in at0 || id in Ids(endpoints)[..k])
    && (forall id | id in reasons :: id in Ids(endpoints)[..k] && id !in at0)
    && forall i | 0 <= i < k && Ids(endpoints)[i] !in at0 :: ByLadder(raw, endpoints[i], t, devices, at, reasons)
  }

  ghost predicate ByLadder(raw: map<string, RawNode>, ep: Endpoint, t: MacTable, devices: seq<string>,
                           at: map<string, Placement>, reasons: map<string, Reason>)
    requires forall c | c in devices :: c in raw
  {
    var id, p := EndpointNodeId(ep.agent), Ladder(raw, Enriched(ep, t), t, devices);
    && id in at && at[id] == p
    && if p.parent.None? then id in reasons && reasons[id] == ReasonFor(Enriched(ep, t)) else id !in reasons
  }

  lemma LadderSkip(raw: map<string, RawNode>, endpoints: seq<Endpoint>, t: MacTable, devices: seq<string>,
                   at0: map<string, Placement>, k: nat, at: map<string, Placement>, reasons: map<string, Reason>)
    requires (forall c | c in devices :: c in raw) && k < |endpoints|
    requires PlacedUpTo(raw, endpoints, t, devices, at0, k, at, reasons) && Ids(endpoints)[k] in at0
    ensures PlacedUpTo(raw, endpoints, t, devices, at0, k + 1, at, reasons)
  {
    hide ByLadder, EndpointNodeId;
    assert Ids(endpoints)[..k + 1] == Ids(endpoints)[..k] + [Ids(endpoints)[k]];
  }

  lemma LadderPut(raw: map<string, RawNode>, endpoints: seq<Endpoint>, t: MacTable, devices: seq<string>,
                  at0: map<string, Placement>, k: nat, at: map<string, Placement>, reasons: map<string, Reason>,
                  id: string, p: Placement, reasons': map<string, Reason>)
    requires (forall c | c in devices :: c in raw) && k < |endpoints| && NoRepeats(Ids(endpoints))
    requires PlacedUpTo(raw, endpoints, t, devices, at0, k, at, reasons)
    requires id == Ids(endpoints)[k] && id !in at && ByLadder(raw, endpoints[k], t, devices, at[id := p], reasons')
    requires forall x | x != id :: (x in reasons' <==> x in reasons) && (x in reasons ==> reasons'[x] == reasons[x])
    ensures PlacedUpTo(raw, endpoints, t, devices, at0, k + 1, at[id := p], reasons')
  {
    hide ByLadder, EndpointNodeId, NoRepeats, PlacedUpTo;
    var ids, at' := Ids(endpoints), at[id := p];
    assert ids[..k + 1] == ids[..k] + [id];
    SoFar(raw, endpoints, t, devices, at0, k, at, reasons);
    forall i | 0 <= i < k + 1 && ids[i] !in at0 ensures ByLadder(raw, endpoints[i], t, devices, at', reasons') {
      if i < k {
        Placed1(raw, endpoints, t, devices, at0, k, at, reasons, i);
        ByLadderStays(raw, endpoints[i], t, devices, at, reasons, id, p, reasons');
      }
    }
    Assemble(raw, endpoints, t, devices, at0, k + 1, at', reasons');
  }

  lemma SoFar(raw: map<string, RawNode>, endpoints: seq<Endpoint>, t: MacTable, devices: seq<string>,
              at0: map<string, Placement>, k: nat, at: map<string, Placement>, reasons: map<string, Reason>)
    requires k <= |endpoints| && (forall c | c in devices :: c in raw)
    requires PlacedUpTo(raw, endpoints, t, devices, at0, k, at, reasons)
    ensures (forall id | id in at0 :: id in at && at[id] == at0[id])
    ensures (forall id | id in at :: id in at0 || id in Ids(endpoints)[..k])
    ensures (forall id | id in reasons :: id in Ids(endpoints)[..k] && id !in at0)
  {
    hide ByLadder, Ids;
  }

  lemma Placed1(raw: map<string, RawNode>, endpoints: seq<Endpoint>, t: MacTable, devices: seq<string>,
                at0: map<string, Placement>, k: nat, at: map<string, Placement>, reasons: map<string, Reason>, i: nat)
    requires k < |endpoints| && (forall c | c in devices :: c in raw) && NoRepeats(Ids(endpoints))
    requires PlacedUpTo(raw, endpoints, t, devices, at0, k, at, reasons) && i < k && Ids(endpoints)[i] !in at0
    ensures ByLadder(raw, endpoints[i], t, devices, at, reasons)
    ensures EndpointNodeId(endpoints[i].agent) != Ids(endpoints)[k]
  {
    assert Ids(endpoints)[i] == EndpointNodeId(endpoints[i].agent);
  }

  lemma Assemble(raw: map<string, RawNode>, endpoints: seq<Endpoint>, t: MacTable, devices: seq<string>,
                 at0: map<string, Placement>, k: nat, at: map<string, Placement>, reasons: map<string, Reason>)
    requires k <= |endpoints| && forall c | c in devices :: c in raw
    requires (forall id | id in at0 :: id in at && at[id] == at0[id])
    requires (forall id | id in at :: id in at0 || id in Ids(endpoints)[..k])
    requires (forall id | id in reasons :: id in Ids(endpoints)[..k] && id !in at0)
    requires forall i | 0 <= i < k && Ids(endpoints)[i] !in at0 :: ByLadder(raw, endpoints[i], t, devices, at, reasons)
    ensures PlacedUpTo(raw, endpoints, t, devices, at0, k, at, reasons)
  {
    hide ByLadder, Ids;
  }

  lemma ByLadderStays(raw: map<string, RawNode>, ep: Endpoint, t: MacTable, devices: seq<string>,
                      at: map<string, Placement>, reasons: map<string, Reason>, id: string, p: Placement,
                      reasons': map<string, Reason>)
    requires (forall c | c in devices :: c in raw) && ByLadder(raw, ep, t, devices, at, reasons)
    requires id != EndpointNodeId(ep.agent)
    requires EndpointNodeId(ep.agent) in reasons' <==> EndpointNodeId(ep.agent) in reasons
    requires EndpointNodeId(ep.agent) in reasons ==>
               reasons'[EndpointNodeId(ep.agent)] == reasons[EndpointNodeId(ep.agent)]
    ensures ByLadder(raw, ep, t, devices, at[id := p], reasons')
  {
  }

  /** Rungs 2 and 3 for one endpoint, and why it is nowhere. */
  method Rungs(raw: map<string, RawNode>, ep: Endpoint, t: MacTable, devices: seq<string>)
    returns (p: Placement, why: Option<Reason>)
    requires forall c | c in devices :: c in raw
    ensures p == Ladder(raw, ep, t, devices) && why == if p.parent.None? then Some(ReasonFor(ep)) else None
  {
    hide Ladder;
    if ep.mac.Some? && ep.mac.value in t.byMac {
      var fact := t.byMac[ep.mac.value];
      RowDecides(raw, ep, t, devices);
      return Placement(Some(fact.chassis), Some(fact.port), Some(fact.confidence)), None;
    }
    var gateway: Option<string> := None;
    if ep.online {
      gateway := FindSubnetParent(raw, ep.ip, devices);
    }
    SubnetDecides(raw, ep, t, devices);
    if gateway.Some? {
      return Placement(gateway, None, Some(SubnetFallback)), None;
    }
    return UNPLACED, Some(if ep.mac.None? then (if ep.online then NoMac else Offline)
                          else if !ep.online then Offline else Absent);
  }

  /** The loop of `_place_from_tables`. */
  method PlaceEndpoints(raw: map<string, RawNode>, endpoints0: seq<Endpoint>, t: MacTable, devices: seq<string>,
                        placed0: Placed)
    returns (endpoints: seq<Endpoint>, placed: Placed, reasons: map<string, Reason>)
    requires (forall c | c in devices :: c in raw) && NoRepeats(Ids(endpoints0)) && placed0.Valid()
    requires forall ip | ip in t.byIp :: t.byIp[ip] in t.byMac
    ensures placed.Valid() && PlacedUpTo(raw, endpoints0, t, devices, placed0.at, |endpoints0|, placed.at, reasons)
    ensures |endpoints| == |endpoints0| && Ids(endpoints) == Ids(endpoints0)
    ensures forall i | 0 <= i < |endpoints| ::
              endpoints[i] == if Ids(endpoints0)[i] in placed0.at then endpoints0[i] else Enriched(endpoints0[i], t)
  {
    hide Placed.Valid, NoRepeats, Ids, PlacedUpTo, EndpointNodeId, Ladder;
    endpoints, placed, reasons := endpoints0, placed0, map[];
    NothingPlacedYet(raw, endpoints0, t, devices, placed0.at);
    for i := 0 to |endpoints0|
      invariant placed.Valid() && PlacedUpTo(raw, endpoints0, t, devices, placed0.at, i, placed.at, reasons)
      invariant |endpoints| == |endpoints0| && forall k | i <= k < |endpoints| :: endpoints[k] == endpoints0[k]
      invariant forall k | 0 <= k < i ::
                  endpoints[k] == if Ids(endpoints0)[k] in placed0.at then endpoints0[k] else Enriched(endpoints0[k], t)
    {
      var ep := endpoints0[i];
      var id := EndpointNodeId(ep.agent);
      PlacedBefore(raw, endpoints0, t, devices, placed0.at, i, placed.at, reasons);
      if id in placed.at {
        LadderSkip(raw, endpoints0, t, devices, placed0.at, i, placed.at, reasons);
        continue;
      }
      if ep.mac.None? && ep.ip.Some? && ep.ip.value in t.byIp {
        ep := ep.(mac := Some(t.byIp[ep.ip.value]));
        endpoints := endpoints[i := ep];
      }
      var p, why := Rungs(raw, ep, t, devices);
      var after := if why.Some? then reasons[id := why.value] else reasons;
      LadderPut(raw, endpoints0, t, devices, placed0.at, i, placed.at, reasons, id, p, after);
      placed.PutIsValid(id, p);
      placed, reasons := placed.Put(id, p), after;
    }
    SameIds(endpoints0, endpoints);
  }

  lemma RowDecides(raw: map<string, RawNode>, ep: Endpoint, t: MacTable, devices: seq<string>)
    requires (forall c | c in devices :: c in raw) && ep.mac.Some? && ep.mac.value in t.byMac
    ensures var f := t.byMac[ep.mac.value];
            Ladder(raw, ep, t, devices) == Placement(Some(f.chassis), Some(f.port), Some(f.confidence))
  {
  }

  lemma SubnetDecides(raw: map<string, RawNode>, ep: Endpoint, t: MacTable, devices: seq<string>)
    requires (forall c | c in devices :: c in raw) && (ep.mac.None? || ep.mac.value !in t.byMac)
    ensures var gateway := if ep.online then SubnetParent(raw, ep.ip, devices, None) else None;
            Ladder(raw, ep, t, devices)
            == if gateway.Some? then Placement(gateway, None, Some(SubnetFallback)) else UNPLACED
  {
  }

  lemma NothingPlacedYet(raw: map<string, RawNode>, endpoints: seq<Endpoint>, t: MacTable, devices: seq<string>,
                         at0: map<string, Placement>)
    requires forall c | c in devices :: c in raw
    ensures PlacedUpTo(raw, endpoints, t, devices, at0, 0, at0, map[])
  {
  }

  lemma PlacedBefore(raw: map<string, RawNode>, endpoints: seq<Endpoint>, t: MacTable, devices: seq<string>,
                     at0: map<string, Placement>, k: nat, at: map<string, Placement>, reasons: map<string, Reason>)
    requires (forall c | c in devices :: c in raw) && k < |endpoints| && NoRepeats(Ids(endpoints))
    requires PlacedUpTo(raw, endpoints, t, devices, at0, k, at, reasons)
    ensures Ids(endpoints)[k] == EndpointNodeId(endpoints[k].agent)
    ensures (Ids(endpoints)[k] in at <==> Ids(endpoints)[k] in at0) && Ids(endpoints)[k] !in reasons
  {
  }

  lemma SameIds(a: seq<Endpoint>, b: seq<Endpoint>)
    requires |a| == |b| && forall i | 0 <= i < |a| :: a[i].agent == b[i].agent
    ensures Ids(a) == Ids(b)
  {
  }

  lemma LadderIsWhole(raw: map<string, RawNode>, endpoints: seq<Endpoint>, edges: seq<RawEdge>, t: MacTable,
                      devices: seq<string>, merged: set<string>, at0: map<string, Placement>,
                      at: map<string, Placement>, reasons: map<string, Reason>)
    requires forall c | c in devices :: c in raw
    requires PlacedUpTo(raw, endpoints, t, devices, at0, |endpoints|, at, reasons)
    requires IsTrusted(raw, edges, t, merged) && IsWhole(raw, devices, at0)
    ensures IsWhole(raw, devices, at)
  {
    hide Ladder, Enriched;
    forall id | id in at && at[id].parent.Some? ensures at[id].parent.value in devices {
      if id !in at0 {
        var i :| 0 <= i < |endpoints| && Ids(endpoints)[i] == id;
        assert ByLadder(raw, endpoints[i], t, devices, at, reasons);
        LadderIsKept(raw, Enriched(endpoints[i], t), edges, t, devices);
      }
    }
  }

  lemma LadderIsKept(raw: map<string, RawNode>, ep: Endpoint, edges: seq<RawEdge>, t: MacTable, devices: seq<string>)
    requires (forall c | c in devices :: c in raw) && PolledSources(raw, edges, t) && KeepsPolled(raw, devices)
    ensures var p := Ladder(raw, ep, t, devices).parent; p.Some? ==> p.value in devices
  {
    FallbackIsKept(raw, ep, devices);
  }

  lemma LadderIsExplained(raw: map<string, RawNode>, endpoints: seq<Endpoint>, t: MacTable, devices: seq<string>,
                          at0: map<string, Placement>, at: map<string, Placement>, reasons: map<string, Reason>)
    requires (forall c | c in devices :: c in raw) && (forall id | id in at0 :: at0[id].parent.Some?)
    requires PlacedUpTo(raw, endpoints, t, devices, at0, |endpoints|, at, reasons)
    ensures ReasonsExplain(Ids(endpoints), at, reasons) && forall id | id in Ids(endpoints) :: id in at
  {
    hide Ladder, Enriched, ReasonFor;
    var ids := Ids(endpoints);
    assert ids[..|ids|] == ids;
    forall id | id in ids && id !in at0
      ensures id in at && (id in reasons <==> at[id].parent.None?)
    {
      var i :| 0 <= i < |ids| && ids[i] == id;
      assert ByLadder(raw, endpoints[i], t, devices, at, reasons);
    }
  }

  // ---- retiring devices -------------------------------------------------------------------

  /** Where an endpoint goes when the devices in `gone` are dropped. */
  function Retired(raw: map<string, RawNode>, endpoints: seq<Endpoint>, left: seq<string>, gone: set<string>,
                   id: string, p: Placement): Placement
    requires (forall c | c in left :: c in raw) && (p.parent.Some? && p.parent.value in gone ==> id in Ids(endpoints))
  {
    if p.parent.Some? && p.parent.value in gone then Fallback(raw, EndpointOf(endpoints, id), left) else p
  }

  /** Whatever hangs off a dropped device is an endpoint, so `_retire_devices` finds it. */
  ghost predicate OnlyEndpointsOn(endpoints: seq<Endpoint>, gone: set<string>, at: map<string, Placement>) {
    forall id | id in at && at[id].parent.Some? && at[id].parent.value in gone :: id in Ids(endpoints)
  }

  /** Dropping the devices in `gone` has moved what hung off them, and nothing else. */
  ghost predicate AreRetired(raw: map<string, RawNode>, endpoints: seq<Endpoint>, left: seq<string>, gone: set<string>,
                             at0: map<string, Placement>, at: map<string, Placement>)
    requires (forall c | c in left :: c in raw) && OnlyEndpointsOn(endpoints, gone, at0)
  {
    at.Keys == at0.Keys && forall id | id in at :: at[id] == Retired(raw, endpoints, left, gone, id, at0[id])
  }

  /** The first k placements are seen to. */
  ghost predicate RetiredUpTo(raw: map<string, RawNode>, endpoints: seq<Endpoint>, left: seq<string>,
                              gone: set<string>, before: Placed, k: nat, at: map<string, Placement>)
    requires (forall c | c in left :: c in raw) && k <= |before.order| && OnlyEndpointsOn(endpoints, gone, before.at)
  {
    forall id :: (id in at <==> id in before.at) && (id in at ==>
      at[id] == if id in before.order[..k]
                then Retired(raw, endpoints, left, gone, id, before.at[id]) else before.at[id])
  }

  lemma RetireStep(raw: map<string, RawNode>, endpoints: seq<Endpoint>, left: seq<string>, gone: set<string>,
                   before: Placed, k: nat, at: map<string, Placement>, id: string, p: Placement)
    requires (forall c | c in left :: c in raw) && OnlyEndpointsOn(endpoints, gone, before.at)
    requires k < |before.order| && before.order[k] == id && id in before.at && id !in before.order[..k]
    requires RetiredUpTo(raw, endpoints, left, gone, before, k, at)
    requires p == Retired(raw, endpoints, left, gone, id, before.at[id])
    ensures RetiredUpTo(raw, endpoints, left, gone, before, k + 1, at[id := p])
    ensures id in at && at[id] == before.at[id]
    ensures p == at[id] ==> at[id := p] == at
  {
    hide Retired, OnlyEndpointsOn;
    assert before.order[..k + 1] == before.order[..k] + [id];
  }

  lemma ReasonStep(ids: seq<string>, at: map<string, Placement>, reasons: map<string, Reason>, id: string,
                   p: Placement, r: Reason)
    requires ReasonsExplain(ids, at, reasons) && id in ids && id in at && at[id].parent.Some?
    ensures ReasonsExplain(ids, at[id := p], if p.parent.None? then reasons[id := r] else reasons)
  {
  }

  /** What hung off a dropped device is placed, or has the reason it is not. */
  ghost predicate IsReasoned(endpoints: seq<Endpoint>, gone: set<string>, before: Placed, k: nat,
                             at: map<string, Placement>, reasons: map<string, Reason>)
    requires before.Valid() && k < |before.order| && OnlyEndpointsOn(endpoints, gone, before.at)
  {
    var id := before.order[k];
    id in before.at && id in at
    && (before.at[id].parent.Some? && before.at[id].parent.value in gone && at[id].parent.None? ==>
          id in reasons && reasons[id] == ReasonFor(EndpointOf(endpoints, id)))
  }

  lemma ReasonIs(ep: Endpoint)
    ensures ReasonFor(ep) == if ep.mac.Some? && ep.online then Absent else if ep.online then NoMac else Offline
  {
  }

  lemma ReasonedStay(endpoints: seq<Endpoint>, gone: set<string>, before: Placed, i: nat, at: map<string, Placement>,
                     reasons: map<string, Reason>, at': map<string, Placement>, reasons': map<string, Reason>)
    requires before.Valid() && i < |before.order| && OnlyEndpointsOn(endpoints, gone, before.at)
    requires forall k: nat | k < i :: IsReasoned(endpoints, gone, before, k, at, reasons)
    requires forall id | id != before.order[i] && id in at :: id in at' && at'[id] == at[id]
    requires forall id | id != before.order[i] && id in reasons :: id in reasons' && reasons'[id] == reasons[id]
    requires IsReasoned(endpoints, gone, before, i, at', reasons')
    ensures forall k: nat | k <= i :: IsReasoned(endpoints, gone, before, k, at', reasons')
  {
    hide ReasonFor, EndpointOf, OnlyEndpointsOn;
    forall k: nat | k < i ensures IsReasoned(endpoints, gone, before, k, at', reasons') {
      assert IsReasoned(endpoints, gone, before, k, at, reasons) && before.order[k] != before.order[i];
    }
  }

  method ReplaceRetired(raw: map<string, RawNode>, endpoints: seq<Endpoint>, left: seq<string>, gone: set<string>,
                        before: Placed, reasons0: map<string, Reason>)
    returns (placed: Placed, reasons: map<string, Reason>)
    requires (forall c | c in left :: c in raw) && before.Valid() && OnlyEndpointsOn(endpoints, gone, before.at)
    requires ReasonsExplain(Ids(endpoints), before.at, reasons0)
    ensures placed.order == before.order && placed.at.Keys == before.at.Keys
    ensures AreRetired(raw, endpoints, left, gone, before.at, placed.at)
    ensures ReasonsExplain(Ids(endpoints), placed.at, reasons)
    ensures forall k | 0 <= k < |before.order| :: IsReasoned(endpoints, gone, before, k, placed.at, reasons)
  {
    hide Ids, Fallback, EndpointOf, ReasonsExplain, RetiredUpTo, AreRetired, ReasonFor, NoRepeats;
    placed, reasons := before, reasons0;
    assert RetiredUpTo(raw, endpoints, left, gone, before, 0,
                       placed.at) by { NothingRetired(raw, endpoints, left, gone, before); }
    for i := 0 to |before.order|
      invariant placed.order == before.order && ReasonsExplain(Ids(endpoints), placed.at, reasons)
      invariant RetiredUpTo(raw, endpoints, left, gone, before, i, placed.at)
      invariant forall k | 0 <= k < i :: IsReasoned(endpoints, gone, before, k, placed.at, reasons)
    {
      var id := before.order[i];
      ghost var at, why := placed.at, reasons;
      NotAmongEarlier(before, i);
      var p := before.at[id];
      RetireStep(raw, endpoints, left, gone, before, i, placed.at, id, Retired(raw, endpoints, left, gone, id, p));
      if p.parent.Some? && p.parent.value in gone {
        var ep := EndpointOf(endpoints, id);
        var gateway: Option<string> := None;
        if ep.online {
          gateway := FindSubnetParent(raw, ep.ip, left);
        }
        FallbackIs(raw, ep, left);
        var reason := if ep.mac.Some? && ep.online then Absent else if ep.online then NoMac else Offline;
        ReasonIs(ep);
        ReasonStep(Ids(endpoints), placed.at, reasons, id, Fallback(raw, ep, left), reason);
        placed := placed.(at := placed.at[id := Placement(gateway, None,
                                                          if gateway.Some? then Some(SubnetFallback) else None)]);
        if gateway.None? {
          reasons := reasons[id := reason];
        }
      }
      ReasonedStay(endpoints, gone, before, i, at, why, placed.at, reasons);
    }
    AllRetired(raw, endpoints, left, gone, before, placed.at);
  }

  lemma NothingRetired(raw: map<string, RawNode>, endpoints: seq<Endpoint>, left: seq<string>, gone: set<string>,
                       before: Placed)
    requires (forall c | c in left :: c in raw) && OnlyEndpointsOn(endpoints, gone, before.at)
    ensures RetiredUpTo(raw, endpoints, left, gone, before, 0, before.at)
  {
  }

  lemma AllRetired(raw: map<string, RawNode>, endpoints: seq<Endpoint>, left: seq<string>, gone: set<string>,
                   before: Placed, at: map<string, Placement>)
    requires (forall c | c in left :: c in raw) && before.Valid() && OnlyEndpointsOn(endpoints, gone, before.at)
    requires RetiredUpTo(raw, endpoints, left, gone, before, |before.order|, at)
    ensures at.Keys == before.at.Keys && AreRetired(raw, endpoints, left, gone, before.at, at)
  {
    hide Retired, OnlyEndpointsOn;
    assert before.order[..|before.order|] == before.order;
  }

  lemma NotAmongEarlier(placed: Placed, i: nat)
    requires placed.Valid() && i < |placed.order|
    ensures placed.order[i] in placed.at && placed.order[i] !in placed.order[..i]
  {
  }

  lemma FallbackIs(raw: map<string, RawNode>, ep: Endpoint, devices: seq<string>)
    requires forall c | c in devices :: c in raw
    ensures var gateway := if ep.online then SubnetParent(raw, ep.ip, devices, None) else None;
            Fallback(raw, ep, devices) == Placement(gateway, None, if gateway.Some? then Some(SubnetFallback) else None)
  {
  }

  lemma RetiringKeepsWhole(raw: map<string, RawNode>, endpoints: seq<Endpoint>, devices: seq<string>,
                           gone: set<string>, at0: map<string, Placement>, at: map<string, Placement>)
    requires (forall c | c in devices :: c in raw) && IsWhole(raw, devices, at0) && NoneWasPolled(raw, gone)
    requires OnlyEndpointsOn(endpoints, gone, at0)
    requires AreRetired(raw, endpoints, Without(devices, gone), gone, at0, at)
    ensures IsWhole(raw, Without(devices, gone), at)
  {
    hide Fallback, EndpointOf, Ids, OnlyEndpointsOn;
    var left := Without(devices, gone);
    forall id | id in at && at[id].parent.Some? ensures at[id].parent.value in left {
      if at0[id].parent.Some? && at0[id].parent.value in gone {
        assert id in Ids(endpoints) by { FindsIt(endpoints, gone, at0, id); }
        FallbackIsKept(raw, EndpointOf(endpoints, id), left);
      }
    }
  }

  lemma FindsIt(endpoints: seq<Endpoint>, gone: set<string>, at: map<string, Placement>, id: string)
    requires OnlyEndpointsOn(endpoints, gone, at) && id in at && at[id].parent.Some? && at[id].parent.value in gone
    ensures id in Ids(endpoints)
  {
  }
}
