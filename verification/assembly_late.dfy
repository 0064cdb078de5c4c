/** The second merge of devices into endpoints (`_merge_late_phantoms`), after the ladder
    has given some of them MACs: a device whose chassis MAC is the endpoint's, or is the one
    ARP pairs with its address, goes, and the endpoint sits where the device was announced. */
module AssemblyLate {
  import opened AssemblyPlacement
  import opened AssemblySteps
  import opened MacTables
  import opened Sequences
  import opened Wrappers

  /** The last device whose chassis id is the MAC. */
  function PhantomOf(raw: map<string, RawNode>, devices: seq<string>, m: Mac): (c: Option<string>)
    requires forall c | c in devices :: c in raw
    ensures c.Some? ==> c.value in devices && raw[c.value].chassisMac == Some(m)
    ensures c.None? ==> forall d | d in devices :: raw[d].chassisMac != Some(m)
  {
    if devices == [] then None
    else
      var front, last := devices[..|devices| - 1], devices[|devices| - 1];
      assert devices == front + [last];
      if raw[last].chassisMac == Some(m) then Some(last) else PhantomOf(raw, front, m)
  }

  /** The device taken is the last with that chassis MAC. */
  lemma {:induction false} LastPhantomIsTaken(raw: map<string, RawNode>, devices: seq<string>, m: Mac, i: nat)
    requires (forall c | c in devices :: c in raw) && i < |devices| && raw[devices[i]].chassisMac == Some(m)
    requires forall j | i < j < |devices| :: raw[devices[j]].chassisMac != Some(m)
    ensures PhantomOf(raw, devices, m) == Some(devices[i])
  {
    var front := devices[..|devices| - 1];
    if i < |front| {
      assert forall j | i <= j < |front| :: front[j] == devices[j];
      LastPhantomIsTaken(raw, front, m, i);
    }
  }

  ghost predicate IsPhantomMap(raw: map<string, RawNode>, devices: seq<string>, byMac: map<Mac, string>)
    requires forall c | c in devices :: c in raw
  {
    forall m :: PhantomOf(raw, devices, m) == if m in byMac then Some(byMac[m]) else None
  }

  /** `phantom_by_mac`. */
  method PhantomByMac(raw: map<string, RawNode>, devices: seq<string>) returns (byMac: map<Mac, string>)
    requires forall c | c in devices :: c in raw
    ensures IsPhantomMap(raw, devices, byMac)
  {
    byMac := map[];
    for i := 0 to |devices|
      invariant IsPhantomMap(raw, devices[..i], byMac)
    {
      assert devices[..i + 1][..i] == devices[..i];
      var m := raw[devices[i]].chassisMac;
      if m.Some? {
        byMac := byMac[m.value := devices[i]];
      }
    }
    assert devices[..|devices|] == devices;
  }

  /** The MAC an endpoint is looked up by: its own, or one ARP pairs with its address,
      when a device that is no network equipment announced it and it is no infrastructure. */
  function LookupMac(raw: map<string, RawNode>, ep: Endpoint, t: MacTable, devices: seq<string>): Option<Mac>
    requires forall c | c in devices :: c in raw
  {
    if ep.mac.Some? || ep.ip.None? || ep.ip.value !in t.arpByIp then ep.mac
    else
      var m := t.arpByIp[ep.ip.value];
      var c := PhantomOf(raw, devices, m);
      if c.Some? && m !in t.infra && !raw[c.value].equipment then Some(m) else None
  }

  /** The device an endpoint turns out to be. */
  function LateDevice(raw: map<string, RawNode>, ep: Endpoint, t: MacTable, devices: seq<string>): (c: Option<string>)
    requires forall c | c in devices :: c in raw
    ensures c.Some? ==> c.value in devices && raw[c.value].chassisMac.Some?
                        && (ep.mac.Some? ==> raw[c.value].chassisMac == ep.mac)
  {
    var m := LookupMac(raw, ep, t, devices);
    if m.None? then None else PhantomOf(raw, devices, m.value)
  }

  function SwitchOf(c: string, edges: seq<RawEdge>): Option<string> {
    LldpSwitchAndPort(c, edges).0
  }

  /** The device is no network equipment, and the one that announced it is known. */
  predicate CanMerge(raw: map<string, RawNode>, edges: seq<RawEdge>, devices: seq<string>, c: string) {
    c in raw && !raw[c].equipment && SwitchOf(c, edges).Some? && SwitchOf(c, edges).value in devices
  }

  /** The endpoint's device was merged, unless that could not be: it must be mergeable
      and its announcer not itself merged. */
  ghost predicate IsNotMissed(raw: map<string, RawNode>, ep: Endpoint, edges: seq<RawEdge>, t: MacTable,
                              devices: seq<string>, late: set<string>)
    requires forall c | c in devices :: c in raw
  {
    var c := LateDevice(raw, ep, t, devices);
    c.Some? && CanMerge(raw, edges, devices, c.value) && SwitchOf(c.value, edges).value !in late ==> c.value in late
  }

  /** The step left the endpoint alone. */
  ghost predicate IsSame(endpoints0: seq<Endpoint>, at0: map<string, Placement>, endpoints: seq<Endpoint>,
                         at: map<string, Placement>, j: nat)
    requires j < |endpoints0| == |endpoints|
  {
    var id := EndpointNodeId(endpoints0[j].agent);
    endpoints[j] == endpoints0[j] && id in at0 && id in at && at[id] == at0[id]
  }

  /** Device c became the endpoint, which has its MAC now and sits where it was announced. */
  ghost predicate IsMerged(raw: map<string, RawNode>, edges: seq<RawEdge>, t: MacTable, devices: seq<string>,
                           endpoints0: seq<Endpoint>, at0: map<string, Placement>, endpoints: seq<Endpoint>,
                           at: map<string, Placement>, j: nat, c: string)
    requires j < |endpoints0| == |endpoints| && forall d | d in devices :: d in raw
  {
    var id := EndpointNodeId(endpoints0[j].agent);
    && LateDevice(raw, endpoints0[j], t, devices) == Some(c) && endpoints[j] == endpoints0[j].(mac := raw[c].chassisMac)
    && id in at0 && id in at && (at[id].parent, at[id].port) == LldpSwitchAndPort(c, edges)
    && (at[id] == at0[id] || at[id] == LldpPlacement(c, edges))
  }

  /** The first k endpoints are seen to. */
  ghost predicate LateUpTo(raw: map<string, RawNode>, edges: seq<RawEdge>, t: MacTable, devices: seq<string>,
                           endpoints0: seq<Endpoint>, at0: map<string, Placement>, k: nat, late: set<string>,
                           endpoints: seq<Endpoint>, at: map<string, Placement>)
    requires forall d | d in devices :: d in raw
  {
    && k <= |endpoints0| == |endpoints| && at.Keys == at0.Keys
    && (forall j: nat | k <= j < |endpoints0| :: IsSame(endpoints0, at0, endpoints, at, j))
    && (forall j: nat | j < k :: IsSame(endpoints0, at0, endpoints, at, j)
                                 || exists c :: c in late
                                      && IsMerged(raw, edges, t, devices, endpoints0, at0, endpoints, at, j, c))
    && (forall c | c in late ::
          && CanMerge(raw, edges, devices, c)
          && exists j: nat :: j < k && IsMerged(raw, edges, t, devices, endpoints0, at0, endpoints, at, j, c))
    && forall j: nat | j < k :: IsNotMissed(raw, endpoints0[j], edges, t, devices, late)
  }

  lemma LateSkip(raw: map<string, RawNode>, edges: seq<RawEdge>, t: MacTable, devices: seq<string>,
                 endpoints0: seq<Endpoint>, at0: map<string, Placement>, k: nat, late: set<string>,
                 endpoints: seq<Endpoint>, at: map<string, Placement>)
    requires forall d | d in devices :: d in raw
    requires LateUpTo(raw, edges, t, devices, endpoints0, at0, k, late, endpoints, at) && k < |endpoints0|
    requires IsNotMissed(raw, endpoints0[k], edges, t, devices, late)
    ensures LateUpTo(raw, edges, t, devices, endpoints0, at0, k + 1, late, endpoints, at)
  {
    hide IsSame, IsMerged, IsNotMissed, CanMerge;
    forall c | c in late
      ensures exists j: nat :: j < k + 1 && IsMerged(raw, edges, t, devices, endpoints0, at0, endpoints, at, j, c)
    {
      var j: nat :| j < k && IsMerged(raw, edges, t, devices, endpoints0, at0, endpoints, at, j, c);
      assert j < k + 1;
    }
  }

  lemma OthersStay(raw: map<string, RawNode>, edges: seq<RawEdge>, t: MacTable, devices: seq<string>,
                   endpoints0: seq<Endpoint>, at0: map<string, Placement>, endpoints: seq<Endpoint>,
                   at: map<string, Placement>, k: nat, ep: Endpoint, p: Placement, j: nat)
    requires (forall d | d in devices :: d in raw) && NoRepeats(Ids(endpoints0)) && |endpoints| == |endpoints0|
    requires j < |endpoints0| && k < |endpoints0| && j != k
    ensures var endpoints', at' := endpoints[k := ep], at[EndpointNodeId(endpoints0[k].agent) := p];
            && (IsSame(endpoints0, at0, endpoints, at, j) ==> IsSame(endpoints0, at0, endpoints', at', j))
            && forall c | IsMerged(raw, edges, t, devices, endpoints0, at0, endpoints, at, j, c) ::
                 IsMerged(raw, edges, t, devices, endpoints0, at0, endpoints', at', j, c)
  {
    hide LateDevice, LldpPlacement, LldpSwitchAndPort, EndpointNodeId;
    assert Ids(endpoints0)[j] != Ids(endpoints0)[k];
  }

  lemma NotMissedStays(raw: map<string, RawNode>, ep: Endpoint, edges: seq<RawEdge>, t: MacTable,
                       devices: seq<string>, late: set<string>, c: string)
    requires (forall d | d in devices :: d in raw) && IsNotMissed(raw, ep, edges, t, devices, late)
    ensures IsNotMissed(raw, ep, edges, t, devices, late + {c})
  {
  }

  lemma LateMerge(raw: map<string, RawNode>, edges: seq<RawEdge>, t: MacTable, devices: seq<string>,
                  endpoints0: seq<Endpoint>, at0: map<string, Placement>, k: nat, late: set<string>,
                  endpoints: seq<Endpoint>, at: map<string, Placement>, c: string, ep: Endpoint, p: Placement)
    requires (forall d | d in devices :: d in raw) && NoRepeats(Ids(endpoints0))
    requires LateUpTo(raw, edges, t, devices, endpoints0, at0, k, late, endpoints, at) && k < |endpoints0|
    requires LateDevice(raw, endpoints0[k], t, devices) == Some(c) && CanMerge(raw, edges, devices, c)
    requires ep == endpoints[k].(mac := raw[c].chassisMac) && EndpointNodeId(endpoints0[k].agent) in at0
    requires p == at[EndpointNodeId(endpoints0[k].agent)] || p == LldpPlacement(c, edges)
    requires (p.parent, p.port) == LldpSwitchAndPort(c, edges)
    ensures LateUpTo(raw, edges, t, devices, endpoints0, at0, k + 1, late + {c},
                     endpoints[k := ep], at[EndpointNodeId(endpoints0[k].agent) := p])
  {
    hide LateDevice, LldpPlacement, LldpSwitchAndPort, EndpointNodeId, IsNotMissed, CanMerge, NoRepeats;
    var id := EndpointNodeId(endpoints0[k].agent);
    var endpoints', at', late' := endpoints[k := ep], at[id := p], late + {c};
    assert IsMerged(raw, edges, t, devices, endpoints0, at0, endpoints', at', k, c) by {
      assert IsSame(endpoints0, at0, endpoints, at, k);
    }
    assert at'.Keys == at0.Keys;
    forall j: nat | k + 1 <= j < |endpoints0| ensures IsSame(endpoints0, at0, endpoints', at', j) {
      OthersStay(raw, edges, t, devices, endpoints0, at0, endpoints, at, k, ep, p, j);
    }
    forall j: nat | j < k + 1
      ensures IsSame(endpoints0, at0, endpoints', at', j)
              || exists d :: d in late' && IsMerged(raw, edges, t, devices, endpoints0, at0, endpoints', at', j, d)
    {
      if j == k {
        assert c in late';
      } else {
        OthersStay(raw, edges, t, devices, endpoints0, at0, endpoints, at, k, ep, p, j);
        if !IsSame(endpoints0, at0, endpoints, at, j) {
          var d :| d in late && IsMerged(raw, edges, t, devices, endpoints0, at0, endpoints, at, j, d);
          assert d in late';
        }
      }
    }
    forall d | d in late'
      ensures CanMerge(raw, edges, devices, d)
      ensures exists j: nat :: j < k + 1 && IsMerged(raw, edges, t, devices, endpoints0, at0, endpoints', at', j, d)
    {
      if d == c {
        assert k < k + 1;
      } else {
        var j: nat :| j < k && IsMerged(raw, edges, t, devices, endpoints0, at0, endpoints, at, j, d);
        OthersStay(raw, edges, t, devices, endpoints0, at0, endpoints, at, k, ep, p, j);
        assert j < k + 1;
      }
    }
    forall j: nat | j < k + 1 ensures IsNotMissed(raw, endpoints0[j], edges, t, devices, late') {
      if j == k {
        MergedIsNotMissed(raw, endpoints0[k], edges, t, devices, late', c);
      } else {
        NotMissedStays(raw, endpoints0[j], edges, t, devices, late, c);
      }
    }
  }

  lemma MergedIsNotMissed(raw: map<string, RawNode>, ep: Endpoint, edges: seq<RawEdge>, t: MacTable,
                          devices: seq<string>, late: set<string>, c: string)
    requires (forall d | d in devices :: d in raw) && LateDevice(raw, ep, t, devices) == Some(c) && c in late
    ensures IsNotMissed(raw, ep, edges, t, devices, late)
  {
  }

  /** An endpoint with the device's MAC is on a port that a link to it names. */
  ghost predicate IsOnPortOf(raw: map<string, RawNode>, endpoints: seq<Endpoint>, edges: seq<RawEdge>,
                             at: map<string, Placement>, c: string) {
    c in raw && exists ep :: ep in endpoints && Claims(ep, raw[c]) && EndpointNodeId(ep.agent) in at
                             && IsOnLinkTo(edges, at[EndpointNodeId(ep.agent)], c)
  }

  lemma LateAreOnLinks(raw: map<string, RawNode>, edges: seq<RawEdge>, t: MacTable, devices: seq<string>,
                       endpoints0: seq<Endpoint>, at0: map<string, Placement>, late: set<string>,
                       endpoints: seq<Endpoint>, at: map<string, Placement>)
    requires forall d | d in devices :: d in raw
    requires LateUpTo(raw, edges, t, devices, endpoints0, at0, |endpoints0|, late, endpoints, at)
    ensures forall c | c in late :: IsOnPortOf(raw, endpoints, edges, at, c)
  {
    hide LookupMac, LldpSwitchAndPort, IsOnLinkTo, IsNotMissed, EndpointNodeId;
    forall c | c in late ensures IsOnPortOf(raw, endpoints, edges, at, c) {
      var j: nat :| j < |endpoints0| && IsMerged(raw, edges, t, devices, endpoints0, at0, endpoints, at, j, c);
      AnnouncedIsOnLink(c, edges, at[EndpointNodeId(endpoints0[j].agent)]);
      assert endpoints[j] in endpoints && Claims(endpoints[j], raw[c]);
    }
  }

  /** The loop of `_merge_late_phantoms`. */
  method FindLate(raw: map<string, RawNode>, endpoints0: seq<Endpoint>, edges: seq<RawEdge>, t: MacTable,
                  devices: seq<string>, before: Placed, reasons0: map<string, Reason>)
    returns (late: set<string>, endpoints: seq<Endpoint>, placed: Placed, reasons: map<string, Reason>)
    requires (forall c | c in devices :: c in raw) && before.Valid() && NoRepeats(Ids(endpoints0))
    requires forall id | id in Ids(endpoints0) :: id in before.at
    requires ReasonsExplain(Ids(endpoints0), before.at, reasons0)
    ensures placed.Valid() && Ids(endpoints) == Ids(endpoints0) && ReasonsExplain(Ids(endpoints), placed.at, reasons)
    ensures LateUpTo(raw, edges, t, devices, endpoints0, before.at, |endpoints0|, late, endpoints, placed.at)
    ensures forall c | c in late :: IsOnPortOf(raw, endpoints, edges, placed.at, c)
  {
    hide IsOnPortOf, Ids, LateUpTo, IsNotMissed, ReasonsExplain, Placed.Valid, NoRepeats, LookupMac, EndpointNodeId;
    var byMac := PhantomByMac(raw, devices);
    late, endpoints, placed, reasons := {}, endpoints0, before, reasons0;
    NothingLate(raw, edges, t, devices, endpoints0, before.at);
    for i := 0 to |endpoints0|
      invariant placed.Valid() && Ids(endpoints) == Ids(endpoints0)
      invariant ReasonsExplain(Ids(endpoints), placed.at, reasons)
      invariant LateUpTo(raw, edges, t, devices, endpoints0, before.at, i, late, endpoints, placed.at)
    {
      StillTheSame(raw, edges, t, devices, endpoints0, before.at, i, late, endpoints, placed.at);
      var ep := endpoints[i];
      var mac := ep.mac;
      if mac.None? && ep.ip.Some? && ep.ip.value in t.arpByIp {
        var m := t.arpByIp[ep.ip.value];
        if m in byMac && m !in t.infra && !raw[byMac[m]].equipment {
          mac := Some(m);
        }
      }
      LooksUp(raw, ep, t, devices, byMac, mac);
      if mac.None? || mac.value !in byMac || byMac[mac.value] in late || raw[byMac[mac.value]].equipment {
        NotMissed(raw, ep, edges, t, devices, late);
        LateSkip(raw, edges, t, devices, endpoints0, before.at, i, late, endpoints, placed.at);
        continue;
      }
      var chassis := byMac[mac.value];
      var (switch, port) := LldpSwitchAndPort(chassis, edges);
      if switch.None? || switch.value !in devices || switch.value in late {
        NotMissed(raw, ep, edges, t, devices, late);
        LateSkip(raw, edges, t, devices, endpoints0, before.at, i, late, endpoints, placed.at);
        continue;
      }
      var id, lldp := EndpointNodeId(ep.agent), Placement(switch, port, Some(Lldp));
      IdOf(endpoints, i);
      var moved := placed.at[id].parent != switch || placed.at[id].port != port;
      var p := if moved then lldp else placed.at[id];
      LateMerge(raw, edges, t, devices, endpoints0, before.at, i, late, endpoints, placed.at, chassis, ep.(mac := mac),
                p);
      late := late + {chassis};
      KeepsIds(endpoints, i, ep.(mac := mac));
      endpoints := endpoints[i := ep.(mac := mac)];
      if moved {
        ReasonGone(Ids(endpoints), placed.at, reasons, id, lldp);
        placed.PutIsValid(id, lldp);
        placed := placed.Put(id, lldp);
        reasons := reasons - {id};
      } else {
        assert placed.at[id := p] == placed.at;
      }
    }
    LateAreOnLinks(raw, edges, t, devices, endpoints0, before.at, late, endpoints, placed.at);
  }

  lemma LooksUp(raw: map<string, RawNode>, ep: Endpoint, t: MacTable, devices: seq<string>, byMac: map<Mac, string>,
                mac: Option<Mac>)
    requires (forall c | c in devices :: c in raw) && IsPhantomMap(raw, devices, byMac)
    requires forall m | m in byMac :: byMac[m] in raw
    requires var m := if ep.ip.Some? && ep.ip.value in t.arpByIp then Some(t.arpByIp[ep.ip.value]) else None;
             mac == if && ep.mac.None? && m.Some? && m.value in byMac
                    && m.value !in t.infra && !raw[byMac[m.value]].equipment
                    then m else ep.mac
    ensures LookupMac(raw, ep, t, devices) == mac
    ensures LateDevice(raw, ep, t, devices) == if mac.Some? && mac.value in byMac then Some(byMac[mac.value]) else None
    ensures mac.Some? && mac.value in byMac ==> raw[byMac[mac.value]].chassisMac == mac
  {
    hide PhantomOf;
  }

  lemma NotMissed(raw: map<string, RawNode>, ep: Endpoint, edges: seq<RawEdge>, t: MacTable, devices: seq<string>,
                  late: set<string>)
    requires forall c | c in devices :: c in raw
    requires var c := LateDevice(raw, ep, t, devices);
             || c.None? || c.value in late
             || !CanMerge(raw, edges, devices, c.value) || SwitchOf(c.value, edges).value in late
    ensures IsNotMissed(raw, ep, edges, t, devices, late)
  {
  }

  lemma NothingLate(raw: map<string, RawNode>, edges: seq<RawEdge>, t: MacTable, devices: seq<string>,
                    endpoints: seq<Endpoint>, at: map<string, Placement>)
    requires (forall c | c in devices :: c in raw) && forall id | id in Ids(endpoints) :: id in at
    ensures LateUpTo(raw, edges, t, devices, endpoints, at, 0, {}, endpoints, at)
  {
    forall j: nat | j < |endpoints| ensures IsSame(endpoints, at, endpoints, at, j) {
      assert Ids(endpoints)[j] in Ids(endpoints);
    }
  }

  lemma StillTheSame(raw: map<string, RawNode>, edges: seq<RawEdge>, t: MacTable, devices: seq<string>,
                     endpoints0: seq<Endpoint>, at0: map<string, Placement>, k: nat, late: set<string>,
                     endpoints: seq<Endpoint>, at: map<string, Placement>)
    requires forall d | d in devices :: d in raw
    requires LateUpTo(raw, edges, t, devices, endpoints0, at0, k, late, endpoints, at) && k < |endpoints0|
    ensures |endpoints| == |endpoints0| && endpoints[k] == endpoints0[k]
    ensures EndpointNodeId(endpoints0[k].agent) in at0 && EndpointNodeId(endpoints0[k].agent) in at
  {
    hide IsMerged, IsNotMissed, CanMerge;
    assert IsSame(endpoints0, at0, endpoints, at, k);
  }

  lemma IdOf(endpoints: seq<Endpoint>, i: nat)
    requires i < |endpoints|
    ensures EndpointNodeId(endpoints[i].agent) in Ids(endpoints)
  {
    assert Ids(endpoints)[i] == EndpointNodeId(endpoints[i].agent);
  }

  lemma KeepsIds(endpoints: seq<Endpoint>, i: nat, ep: Endpoint)
    requires i < |endpoints| && ep.agent == endpoints[i].agent
    ensures Ids(endpoints[i := ep]) == Ids(endpoints)
  {
    SameIds(endpoints[i := ep], endpoints);
  }

  lemma ReasonGone(ids: seq<string>, at: map<string, Placement>, reasons: map<string, Reason>, id: string, p: Placement)
    requires ReasonsExplain(ids, at, reasons) && p.parent.Some?
    ensures ReasonsExplain(ids, at[id := p], reasons - {id})
  {
  }

  /** What was merged late are phantoms of the endpoints as they are now, which lost no MAC. */
  lemma LateArePhantoms(raw: map<string, RawNode>, edges: seq<RawEdge>, t: MacTable, devices: seq<string>,
                        endpoints0: seq<Endpoint>, at0: map<string, Placement>, late: set<string>,
                        endpoints: seq<Endpoint>, at: map<string, Placement>)
    requires forall d | d in devices :: d in raw
    requires LateUpTo(raw, edges, t, devices, endpoints0, at0, |endpoints0|, late, endpoints, at)
    ensures forall c | c in late :: IsPhantom(raw, endpoints, edges, devices, c)
    ensures KeepsMacs(endpoints0, endpoints)
  {
    hide LateDevice, LldpSwitchAndPort, IsNotMissed;
    forall c | c in late ensures IsPhantom(raw, endpoints, edges, devices, c) {
      var j: nat :| j < |endpoints0| && IsMerged(raw, edges, t, devices, endpoints0, at0, endpoints, at, j, c);
      assert endpoints[j] in endpoints && Claims(endpoints[j], raw[c]);
    }
    forall j: nat | j < |endpoints0| ensures KeepsMac(endpoints0[j], endpoints[j]) {
      if !IsSame(endpoints0, at0, endpoints, at, j) {
        var c :| c in late && IsMerged(raw, edges, t, devices, endpoints0, at0, endpoints, at, j, c);
      }
    }
  }

  /** The device's MAC is no infrastructure, unless an endpoint had it all along. */
  ghost predicate IsOwnOrNew(raw: map<string, RawNode>, t: MacTable, endpoints: seq<Endpoint>, c: string) {
    && c in raw && raw[c].chassisMac.Some?
    && (raw[c].chassisMac.value in t.infra ==> exists ep :: ep in endpoints && Claims(ep, raw[c]))
  }

  lemma LateAreOwnOrNew(raw: map<string, RawNode>, edges: seq<RawEdge>, t: MacTable, devices: seq<string>,
                        endpoints0: seq<Endpoint>, at0: map<string, Placement>, late: set<string>,
                        endpoints: seq<Endpoint>, at: map<string, Placement>)
    requires forall d | d in devices :: d in raw
    requires LateUpTo(raw, edges, t, devices, endpoints0, at0, |endpoints0|, late, endpoints, at)
    ensures forall c | c in late :: IsOwnOrNew(raw, t, endpoints0, c)
  {
    hide LldpSwitchAndPort, IsNotMissed, CanMerge, LateDevice;
    forall c | c in late ensures IsOwnOrNew(raw, t, endpoints0, c) {
      var j: nat :| j < |endpoints0| && IsMerged(raw, edges, t, devices, endpoints0, at0, endpoints, at, j, c);
      LookedUpIsNew(raw, endpoints0[j], t, devices);
      assert endpoints0[j] in endpoints0;
    }
  }

  lemma LookedUpIsNew(raw: map<string, RawNode>, ep: Endpoint, t: MacTable, devices: seq<string>)
    requires forall d | d in devices :: d in raw
    ensures var c := LateDevice(raw, ep, t, devices);
            c.Some? ==> Claims(ep, raw[c.value]) || raw[c.value].chassisMac.value !in t.infra
  {
  }

  /** Before the devices merged late are dropped, every parent is still a device. */
  lemma LateIsWhole(raw: map<string, RawNode>, edges: seq<RawEdge>, t: MacTable, devices: seq<string>,
                    endpoints0: seq<Endpoint>, at0: map<string, Placement>, merged: set<string>, late: set<string>,
                    endpoints: seq<Endpoint>, at: map<string, Placement>)
    requires forall d | d in devices :: d in raw
    requires LateUpTo(raw, edges, t, devices, endpoints0, at0, |endpoints0|, late, endpoints, at)
    requires forall id | id in at0 :: id in Ids(endpoints0)
    requires IsTrusted(raw, edges, t, merged + late) && IsWhole(raw, devices, at0)
    ensures IsWhole(raw, devices, at) && NoneWasPolled(raw, late)
  {
    hide LateDevice, LldpSwitchAndPort, IsNotMissed, Polled, KeepsPolled, PolledSources;
    forall c | c in late ensures !Polled(raw, c) {
      assert c in merged + late;
    }
    forall id | id in at && at[id].parent.Some? ensures at[id].parent.value in devices {
      assert id in at0;
      var j :| 0 <= j < |endpoints0| && Ids(endpoints0)[j] == id;
      if !IsSame(endpoints0, at0, endpoints, at, j) {
        var c :| c in late && IsMerged(raw, edges, t, devices, endpoints0, at0, endpoints, at, j, c);
        assert CanMerge(raw, edges, devices, c);
      }
    }
  }
}
