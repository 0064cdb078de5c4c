/** What the steps of the graph's assembly decide, on values: `assemble/graph.py`. The rungs
    an endpoint is placed by, the devices and links left when some are dropped, and what it
    is for every parent to be a device of the graph. */
module AssemblySteps {
  import opened MacTables
  import opened Sequences
  import opened Wrappers

  /** A link of the network document, by the chassis ids of its ends. */
  datatype RawEdge = RawEdge(source: string, target: string, localPort: Option<Port>, remotePort: Option<Port>)

  datatype Endpoint = Endpoint(agent: string, mac: Option<Mac>, ip: Option<Ip>, online: bool)

  /** `(parent, port, confidence)`; the parent by its chassis id. */
  datatype Placement = Placement(parent: Option<string>, port: Option<Port>, confidence: Option<Confidence>)

  const UNPLACED := Placement(None, None, None)

  datatype Reason = NoMac | Absent | Offline

  function EndpointNodeId(agent: string): string {
    "endpoint:" + agent
  }

  function HostNodeId(key: string): string {
    "host:" + key
  }

  lemma KindsDiffer(c: string, agent: string, key: string)
    ensures DeviceNodeId(c) != EndpointNodeId(agent) && DeviceNodeId(c) != HostNodeId(key)
    ensures EndpointNodeId(agent) != HostNodeId(key)
  {
    assert DeviceNodeId(c)[0] == 'd' && EndpointNodeId(agent)[0] == 'e' && HostNodeId(key)[0] == 'h';
  }

  /** An endpoint keeps all but a missing MAC. */
  ghost predicate KeepsMac(before: Endpoint, after: Endpoint) {
    after == before || (before.mac.None? && after == before.(mac := after.mac))
  }

  ghost predicate KeepsMacs(before: seq<Endpoint>, after: seq<Endpoint>) {
    |before| == |after| && forall i | 0 <= i < |before| :: KeepsMac(before[i], after[i])
  }

  // ---- a dictionary that keeps its insertion order ----------------------------------------

  datatype Placed = Placed(order: seq<string>, at: map<string, Placement>) {
    ghost predicate Valid() {
      NoRepeats(order) && forall id :: id in order <==> id in at
    }

    function Put(id: string, p: Placement): Placed {
      Placed(if id in at then order else order + [id], at[id := p])
    }

    lemma PutIsValid(id: string, p: Placement)
      requires Valid()
      ensures Put(id, p).Valid()
    {
    }
  }

  // ---- the rungs ----------------------------------------------------------------------

  /** `_lldp_switch_and_port`: the other end of the first link that touches the chassis. */
  function LldpSwitchAndPort(c: string, edges: seq<RawEdge>): (Option<string>, Option<Port>) {
    if edges == [] then (None, None)
    else if edges[0].target == c then (Some(edges[0].source), edges[0].localPort)
    else if edges[0].source == c then (Some(edges[0].target), edges[0].remotePort)
    else LldpSwitchAndPort(c, edges[1..])
  }

  /** The link has the device, on this port, at one end and c at the other. */
  ghost predicate Joins(e: RawEdge, device: string, port: Option<Port>, c: string) {
    (e.source == device && e.localPort == port && e.target == c)
    || (e.target == device && e.remotePort == port && e.source == c)
  }

  ghost predicate Touches(e: RawEdge, c: string) {
    e.source == c || e.target == c
  }

  /** A device has announced c exactly when some link touches c; it is the one at the other end
      of the first such link, on the port that link names there. */
  lemma {:induction false} AnnouncedByTheFirstLink(c: string, edges: seq<RawEdge>)
    ensures var (switch, port) := LldpSwitchAndPort(c, edges);
            if switch.Some? then
              exists i :: && 0 <= i < |edges| && Joins(edges[i], switch.value, port, c)
                          && forall j | 0 <= j < i :: !Touches(edges[j], c)
            else port.None? && forall e | e in edges :: !Touches(e, c)
  {
    if edges != [] && !Touches(edges[0], c) {
      AnnouncedByTheFirstLink(c, edges[1..]);
      var (switch, port) := LldpSwitchAndPort(c, edges);
      if switch.Some? {
        var i :| && 0 <= i < |edges[1..]| && Joins(edges[1..][i], switch.value, port, c)
                 && forall j | 0 <= j < i :: !Touches(edges[1..][j], c);
        assert Joins(edges[i + 1], switch.value, port, c);
        assert forall j | 0 < j < i + 1 :: edges[j] == edges[1..][j - 1];
      } else {
        assert edges == [edges[0]] + edges[1..];
      }
    }
  }

  /** The node is on the port a link of the document has at that device, c at the other end. */
  ghost predicate IsOnLinkTo(edges: seq<RawEdge>, p: Placement, c: string) {
    p.parent.Some? && exists e :: e in edges && Joins(e, p.parent.value, p.port, c)
  }

  lemma AnnouncedIsOnLink(c: string, edges: seq<RawEdge>, p: Placement)
    requires (p.parent, p.port) == LldpSwitchAndPort(c, edges) && p.parent.Some?
    ensures IsOnLinkTo(edges, p, c)
  {
    AnnouncedByTheFirstLink(c, edges);
  }

  predicate SameSubnet(a: Option<Ip>, b: Option<Ip>) {
    a.Some? && b.Some? && a.value.net.Some? && a.value.net == b.value.net
  }

  /** `_subnet_parent` over the devices still to look at. */
  function SubnetParent(raw: map<string, RawNode>, ip: Option<Ip>, devices: seq<string>,
                        found: Option<string>): Option<string>
    requires forall c | c in devices :: c in raw
  {
    if devices == [] then found
    else if !SameSubnet(raw[devices[0]].ip, ip) then SubnetParent(raw, ip, devices[1..], found)
    else if raw[devices[0]].polled then Some(devices[0])
    else SubnetParent(raw, ip, devices[1..], if found.Some? then found else Some(devices[0]))
  }

  /** A device of the /24 is found exactly when there is one, and it is a polled one
      when one of them was polled. */
  lemma {:induction false} SubnetParentIs(raw: map<string, RawNode>, ip: Option<Ip>, devices: seq<string>,
                                          found: Option<string>)
    requires forall c | c in devices :: c in raw
    ensures var r := SubnetParent(raw, ip, devices, found);
            && (r.Some? <==> found.Some? || exists c :: c in devices && SameSubnet(raw[c].ip, ip))
            && (r.Some? && r != found ==> r.value in devices && SameSubnet(raw[r.value].ip, ip))
            && ((exists c :: c in devices && SameSubnet(raw[c].ip, ip) && raw[c].polled)
                ==> r.value in devices && SameSubnet(raw[r.value].ip, ip) && raw[r.value].polled)
  {
    if devices != [] {
      var d := devices[0];
      assert devices == [d] + devices[1..];
      SubnetParentIs(raw, ip, devices[1..], found);
      SubnetParentIs(raw, ip, devices[1..], if found.Some? then found else Some(d));
    }
  }

  /** Device i is of the /24, and polled if that is asked; no earlier one is. */
  ghost predicate IsFirstNear(raw: map<string, RawNode>, ip: Option<Ip>, devices: seq<string>, polled: bool, i: int)
    requires forall c | c in devices :: c in raw
  {
    && 0 <= i < |devices| && SameSubnet(raw[devices[i]].ip, ip) && (polled ==> raw[devices[i]].polled)
    && forall j | 0 <= j < i :: !(SameSubnet(raw[devices[j]].ip, ip) && (polled ==> raw[devices[j]].polled))
  }

  lemma {:induction false} FirstPolledIsTaken(raw: map<string, RawNode>, ip: Option<Ip>, devices: seq<string>,
                                              found: Option<string>, i: nat)
    requires (forall c | c in devices :: c in raw) && IsFirstNear(raw, ip, devices, true, i)
    ensures SubnetParent(raw, ip, devices, found) == Some(devices[i])
  {
    if i > 0 {
      assert forall j | 0 <= j < i - 1 :: devices[1..][j] == devices[j + 1];
      FirstPolledIsTaken(raw, ip, devices[1..], found, i - 1);
      FirstPolledIsTaken(raw, ip, devices[1..], if found.Some? then found else Some(devices[0]), i - 1);
    }
  }

  lemma {:induction false} FoundStays(raw: map<string, RawNode>, ip: Option<Ip>, devices: seq<string>,
                                      found: Option<string>)
    requires (forall c | c in devices :: c in raw) && found.Some?
    requires forall c | c in devices :: !(SameSubnet(raw[c].ip, ip) && raw[c].polled)
    ensures SubnetParent(raw, ip, devices, found) == found
  {
    if devices != [] {
      FoundStays(raw, ip, devices[1..], found);
    }
  }

  lemma {:induction false} FirstNearIsTaken(raw: map<string, RawNode>, ip: Option<Ip>, devices: seq<string>, i: nat)
    requires (forall c | c in devices :: c in raw) && IsFirstNear(raw, ip, devices, false, i)
    requires forall c | c in devices :: !(SameSubnet(raw[c].ip, ip) && raw[c].polled)
    ensures SubnetParent(raw, ip, devices, None) == Some(devices[i])
  {
    if i > 0 {
      assert forall j | 0 <= j < i - 1 :: devices[1..][j] == devices[j + 1];
      FirstNearIsTaken(raw, ip, devices[1..], i - 1);
    } else {
      FoundStays(raw, ip, devices[1..], Some(devices[0]));
    }
  }

  /** The device taken is the first polled one of the /24, in device order; without any polled
      one the first of all. */
  lemma SubnetParentIsFirst(raw: map<string, RawNode>, ip: Option<Ip>, devices: seq<string>, i: nat)
    requires forall c | c in devices :: c in raw
    ensures IsFirstNear(raw, ip, devices, true, i) ==> SubnetParent(raw, ip, devices, None) == Some(devices[i])
    ensures IsFirstNear(raw, ip, devices, false, i)
            && (forall c | c in devices :: !(SameSubnet(raw[c].ip, ip) && raw[c].polled)) ==>
              SubnetParent(raw, ip, devices, None) == Some(devices[i])
  {
    if IsFirstNear(raw, ip, devices, true, i) {
      FirstPolledIsTaken(raw, ip, devices, None, i);
    } else if IsFirstNear(raw, ip, devices, false, i)
              && forall c | c in devices :: !(SameSubnet(raw[c].ip, ip) && raw[c].polled) {
      FirstNearIsTaken(raw, ip, devices, i);
    }
  }

  method FindSubnetParent(raw: map<string, RawNode>, ip: Option<Ip>, devices: seq<string>) returns (r: Option<string>)
    requires forall c | c in devices :: c in raw
    ensures r == SubnetParent(raw, ip, devices, None)
  {
    var found: Option<string> := None;
    for i := 0 to |devices|
      invariant SubnetParent(raw, ip, devices, None) == SubnetParent(raw, ip, devices[i..], found)
    {
      if SameSubnet(raw[devices[i]].ip, ip) {
        if raw[devices[i]].polled {
          return Some(devices[i]);
        }
        found := if found.Some? then found else Some(devices[i]);
      }
    }
    return found;
  }

  /** Rung 3: an online endpoint goes under a device of its /24. */
  function Fallback(raw: map<string, RawNode>, ep: Endpoint, devices: seq<string>): Placement
    requires forall c | c in devices :: c in raw
  {
    var gateway := if ep.online then SubnetParent(raw, ep.ip, devices, None) else None;
    Placement(gateway, None, if gateway.Some? then Some(SubnetFallback) else None)
  }

  function ReasonFor(ep: Endpoint): Reason {
    if !ep.online then Offline else if ep.mac.None? then NoMac else Absent
  }

  /** The reason is that it is offline; else that it has no MAC; else that no table has it. */
  lemma ReasonSaysWhy(ep: Endpoint)
    ensures ReasonFor(ep) == Offline <==> !ep.online
    ensures ReasonFor(ep) == NoMac <==> ep.online && ep.mac == None
    ensures ReasonFor(ep) == Absent <==> ep.online && exists m :: ep.mac == Some(m)
  {
    if ep.mac != None {
      assert ep.mac == Some(ep.mac.value);
    }
  }

  /** An endpoint without a MAC takes the one the tables pair with its address. */
  function Enriched(ep: Endpoint, t: MacTable): Endpoint {
    if ep.mac.None? && ep.ip.Some? && ep.ip.value in t.byIp then ep.(mac := Some(t.byIp[ep.ip.value])) else ep
  }

  /** Rungs 2 and 3. */
  function Ladder(raw: map<string, RawNode>, ep: Endpoint, t: MacTable, devices: seq<string>): Placement
    requires forall c | c in devices :: c in raw
  {
    if ep.mac.Some? && ep.mac.value in t.byMac
    then var f := t.byMac[ep.mac.value]; Placement(Some(f.chassis), Some(f.port), Some(f.confidence))
    else Fallback(raw, ep, devices)
  }

  function EnrichedAll(endpoints: seq<Endpoint>, t: MacTable): (after: seq<Endpoint>)
    ensures |after| == |endpoints| && forall i | 0 <= i < |after| :: after[i] == Enriched(endpoints[i], t)
  {
    seq(|endpoints|, i requires 0 <= i < |endpoints| => Enriched(endpoints[i], t))
  }

  predicate WasDropped(c: string, before: seq<string>, devices: seq<string>) {
    c in before && c !in devices
  }

  /** Rungs 2 and 3 once the devices `before` have come down to `devices`: a row whose
      switch has been dropped no longer counts. */
  function ByTableOrSubnet(raw: map<string, RawNode>, ep: Endpoint, t: MacTable, before: seq<string>,
                           devices: seq<string>): Placement
    requires forall c | c in devices :: c in raw
  {
    if ep.mac.Some? && ep.mac.value in t.byMac && !WasDropped(t.byMac[ep.mac.value].chassis, before, devices)
    then var f := t.byMac[ep.mac.value]; Placement(Some(f.chassis), Some(f.port), Some(f.confidence))
    else Fallback(raw, ep, devices)
  }

  predicate IsEndHost(n: RawNode) {
    !n.polled && !n.unreachable && !n.accessPoint && !n.equipment
  }

  // ---- what makes the graph whole -----------------------------------------------------------

  predicate Polled(raw: map<string, RawNode>, c: string) {
    c in raw && raw[c].polled
  }

  /** Every link was reported by a polled device, and the table's rows name polled ones. */
  ghost predicate PolledSources(raw: map<string, RawNode>, edges: seq<RawEdge>, t: MacTable) {
    && (forall e | e in edges :: Polled(raw, e.source) || Polled(raw, e.target))
    && forall m | m in t.byMac :: Polled(raw, t.byMac[m].chassis)
  }

  /** No device merged into an endpoint had been polled. */
  ghost predicate NoneWasPolled(raw: map<string, RawNode>, merged: set<string>) {
    forall c | c in merged :: !Polled(raw, c)
  }

  ghost predicate KeepsPolled(raw: map<string, RawNode>, devices: seq<string>) {
    forall c :: Polled(raw, c) ==> c in devices
  }

  /** Every parent is a device of the graph. */
  ghost predicate ParentsAreKept(devices: seq<string>, at: map<string, Placement>) {
    forall id | id in at && at[id].parent.Some? :: at[id].parent.value in devices
  }

  ghost predicate LinksAreKept(devices: seq<string>, links: seq<(string, string)>) {
    forall l | l in links :: l.0 in devices && l.1 in devices
  }

  /** The far end of a link to an unpolled device was polled. */
  lemma {:induction false} SwitchWasPolled(raw: map<string, RawNode>, c: string, edges: seq<RawEdge>)
    requires forall e | e in edges :: Polled(raw, e.source) || Polled(raw, e.target)
    requires !Polled(raw, c)
    ensures LldpSwitchAndPort(c, edges).0.Some? ==> Polled(raw, LldpSwitchAndPort(c, edges).0.value)
  {
    if edges != [] {
      assert edges[0] in edges;
      SwitchWasPolled(raw, c, edges[1..]);
    }
  }

  lemma FallbackIsKept(raw: map<string, RawNode>, ep: Endpoint, devices: seq<string>)
    requires forall c | c in devices :: c in raw
    ensures var p := Fallback(raw, ep, devices).parent; p.Some? ==> p.value in devices
  {
    SubnetParentIs(raw, ep.ip, devices, None);
  }

  function Members(s: seq<string>): (all: set<string>)
    ensures forall c :: c in all <==> c in s
  {
    set c | c in s
  }

  /** The devices left when some are dropped, in order. */
  function Without(devices: seq<string>, gone: set<string>): (left: seq<string>)
    ensures forall c :: c in left <==> c in devices && c !in gone
    ensures NoRepeats(devices) ==> NoRepeats(left)
  {
    if devices == [] then []
    else
      var front, last := devices[..|devices| - 1], devices[|devices| - 1];
      assert devices == front + [last];
      Without(front, gone) + if last in gone then [] else [last]
  }

  function LinksWithout(links: seq<(string, string)>, gone: set<string>): (left: seq<(string, string)>)
    ensures forall l :: l in left <==> l in links && l.0 !in gone && l.1 !in gone
  {
    if links == [] then []
    else
      var front, last := links[..|links| - 1], links[|links| - 1];
      assert links == front + [last];
      LinksWithout(front, gone) + if last.0 in gone || last.1 in gone then [] else [last]
  }

  lemma WithoutLast(front: seq<string>, last: string, gone: set<string>)
    ensures Without(front + [last], gone) == Without(front, gone) + if last in gone then [] else [last]
  {
    assert (front + [last])[..|front|] == front;
  }

  lemma WithoutNone(gone: set<string>)
    ensures Without([], gone) == []
  {
  }

  lemma {:induction false} WithoutFront(d: string, rest: seq<string>, gone: set<string>)
    ensures Without([d] + rest, gone) == (if d in gone then [] else [d]) + Without(rest, gone)
  {
    hide Without;
    if rest == [] {
      assert [d] + rest == [] + [d];
      WithoutNone(gone);
      WithoutLast([], d, gone);
    } else {
      var front, last := rest[..|rest| - 1], rest[|rest| - 1];
      assert rest == front + [last] && [d] + rest == ([d] + front) + [last];
      WithoutFront(d, front, gone);
      WithoutLast(front, last, gone);
      WithoutLast([d] + front, last, gone);
    }
  }

  /** A polled device of the /24 is taken whatever was found before. */
  lemma {:induction false} PolledIsTaken(raw: map<string, RawNode>, ip: Option<Ip>, devices: seq<string>,
                                         a: Option<string>, b: Option<string>)
    requires forall c | c in devices :: c in raw
    requires a.Some? && SubnetParent(raw, ip, devices, a) != a
    ensures SubnetParent(raw, ip, devices, b) == SubnetParent(raw, ip, devices, a)
  {
    if devices != [] && !(SameSubnet(raw[devices[0]].ip, ip) && raw[devices[0]].polled) {
      var b' := if b.Some? then b else Some(devices[0]);
      PolledIsTaken(raw, ip, devices[1..], a, if SameSubnet(raw[devices[0]].ip, ip) then b' else b);
    }
  }

  lemma OneLook(raw: map<string, RawNode>, ip: Option<Ip>, d: string, rest: seq<string>, found: Option<string>)
    requires d in raw && forall c | c in rest :: c in raw
    ensures SubnetParent(raw, ip, [d] + rest, found)
            == if !SameSubnet(raw[d].ip, ip) then SubnetParent(raw, ip, rest, found)
               else if raw[d].polled then Some(d)
               else SubnetParent(raw, ip, rest, if found.Some? then found else Some(d))
  {
    assert ([d] + rest)[1..] == rest;
  }

  /** Dropping other devices does not change the one an address goes under. */
  lemma {:induction false} SubnetParentStays(raw: map<string, RawNode>, ip: Option<Ip>, devices: seq<string>,
                                             gone: set<string>, found: Option<string>)
    requires (forall c | c in devices :: c in raw) && (found.Some? ==> found.value !in gone)
    requires var r := SubnetParent(raw, ip, devices, found); r.Some? ==> r.value !in gone
    ensures SubnetParent(raw, ip, Without(devices, gone), found) == SubnetParent(raw, ip, devices, found)
  {
    if devices != [] {
      var d, rest := devices[0], devices[1..];
      assert devices == [d] + rest;
      WithoutFront(d, rest, gone);
      OneLook(raw, ip, d, rest, found);
      OneLook(raw, ip, d, Without(rest, gone), found);
      assert d in gone ==> [] + Without(rest, gone) == Without(rest, gone);
      if !SameSubnet(raw[d].ip, ip) {
        SubnetParentStays(raw, ip, rest, gone, found);
      } else if !raw[d].polled {
        if found.None? && d in gone {
          PolledIsTaken(raw, ip, rest, Some(d), None);
          SubnetParentStays(raw, ip, rest, gone, None);
        } else {
          SubnetParentStays(raw, ip, rest, gone, if found.Some? then found else Some(d));
        }
      }
    }
  }

  /** Nor where rung 3 puts an endpoint. */
  lemma FallbackStays(raw: map<string, RawNode>, ep: Endpoint, devices: seq<string>, gone: set<string>)
    requires (forall c | c in devices :: c in raw)
    requires var p := Fallback(raw, ep, devices); p.parent.Some? ==> p.parent.value !in gone
    ensures Fallback(raw, ep, Without(devices, gone)) == Fallback(raw, ep, devices)
  {
    if ep.online {
      SubnetParentStays(raw, ep.ip, devices, gone, None);
    }
  }
}
