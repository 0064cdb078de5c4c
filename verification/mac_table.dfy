/** Each MAC's access port, from the devices' forwarding and ARP tables: `mactable.py`. */
module MacTables {
  import opened Ordering
  import opened Sequences
  import opened Wrappers

  type Mac = string
  type Port = string
  type Vlan = Option<int>

  /** An address, with the /24 it parses into (none when it does not parse). */
  datatype Ip = Ip(text: string, net: Option<string>)

  /** A forwarding-table row; a MAC that is no MAC is None, as canonical_mac leaves it. */
  datatype FdbEntry = FdbEntry(mac: Option<Mac>, port: Option<Port>, vlan: Vlan)

  datatype Client = Client(mac: Option<Mac>, ip: Option<Ip>, radio: Option<Port>)

  /** A node of the network document. `chassisMac` and `mac` are its chassis id and
      MAC read as canonical MACs; `equipment` says it advertises bridge or router. */
  datatype RawNode = RawNode(chassis: string, chassisMac: Option<Mac>, mac: Option<Mac>, ip: Option<Ip>,
                             polled: bool, unreachable: bool, accessPoint: bool, equipment: bool,
                             uplinks: set<Port>, ownMacs: set<Mac>, fdb: seq<FdbEntry>,
                             arp: seq<(Mac, Ip)>, wifiClients: Option<seq<Client>>)

  datatype Confidence = Lldp | Fdb | Resolved | Tiebreak | SubnetFallback | Wifi

  datatype Fact = Fact(ip: Option<Ip>, chassis: string, port: Port, vlan: Vlan, confidence: Confidence)

  /** `byMac` in `macs` order, with the indexes by address. */
  datatype MacTable = MacTable(macs: seq<Mac>, byMac: map<Mac, Fact>, byIp: map<Ip, Mac>,
                               infra: set<Mac>, arpByIp: map<Ip, Mac>)

  function DeviceNodeId(chassis: string): string {
    "device:" + chassis
  }

  /** One place a MAC was learned, with how many MACs that port has learned. */
  datatype Candidate = Candidate(chassis: string, port: Port, vlan: Vlan, crowd: nat)

  // ---- one switch --------------------------------------------------------------------

  /** The distinct (port, VLAN) pairs a MAC was learned on, as first met. */
  function Pairs(fdb: seq<FdbEntry>, m: Mac): seq<(Port, Vlan)> {
    if fdb == [] then []
    else
      var before, e := Pairs(fdb[..|fdb| - 1], m), fdb[|fdb| - 1];
      if e.mac == Some(m) && e.port.Some? && (e.port.value, e.vlan) !in before
      then before + [(e.port.value, e.vlan)] else before
  }

  /** The MACs learned on a port. */
  function Crowd(fdb: seq<FdbEntry>, p: Port): set<Mac> {
    if fdb == [] then {}
    else
      var before, e := Crowd(fdb[..|fdb| - 1], p), fdb[|fdb| - 1];
      if e.port == Some(p) && e.mac.Some? then before + {e.mac.value} else before
  }

  ghost predicate Learned(fdb: seq<FdbEntry>, m: Mac, p: Port, v: Vlan) {
    FdbEntry(Some(m), Some(p), v) in fdb
  }

  lemma {:induction false} PairsAreLearned(fdb: seq<FdbEntry>, m: Mac)
    ensures forall p, v :: (p, v) in Pairs(fdb, m) <==> Learned(fdb, m, p, v)
    ensures forall i, j | 0 <= i < j < |Pairs(fdb, m)| :: Pairs(fdb, m)[i] != Pairs(fdb, m)[j]
  {
    if fdb != [] {
      PairsAreLearned(fdb[..|fdb| - 1], m);
      assert fdb == fdb[..|fdb| - 1] + [fdb[|fdb| - 1]];
    }
  }

  lemma {:induction false} CrowdIsLearned(fdb: seq<FdbEntry>, p: Port)
    ensures forall m :: m in Crowd(fdb, p) <==> exists v :: Learned(fdb, m, p, v)
  {
    if fdb != [] {
      var front, e := fdb[..|fdb| - 1], fdb[|fdb| - 1];
      CrowdIsLearned(front, p);
      assert fdb == front + [e];
      forall m, v | Learned(fdb, m, p, v) ensures m in Crowd(fdb, p) {
        if FdbEntry(Some(m), Some(p), v) in front {
          assert Learned(front, m, p, v);
        }
      }
      forall m | m in Crowd(fdb, p) ensures exists v :: Learned(fdb, m, p, v) {
        if m in Crowd(front, p) {
          var v :| Learned(front, m, p, v);
          assert Learned(fdb, m, p, v);
        } else {
          assert Learned(fdb, m, p, e.vlan);
        }
      }
    }
  }

  function Entry<T>(found: map<Mac, seq<T>>, k: Mac): seq<T> {
    if k in found then found[k] else []
  }

  function AddPair(pairs: map<Mac, seq<(Port, Vlan)>>, m: Mac, pair: (Port, Vlan)): map<Mac, seq<(Port, Vlan)>> {
    pairs[m := Entry(pairs, m) + if pair in Entry(pairs, m) then [] else [pair]]
  }

  function AddToCrowd(crowd: map<Port, set<Mac>>, p: Port, m: Mac): map<Port, set<Mac>> {
    crowd[p := (if p in crowd then crowd[p] else {}) + {m}]
  }

  lemma PairAdded(pairs: map<Mac, seq<(Port, Vlan)>>, m: Mac, pair: (Port, Vlan))
    ensures AddPair(pairs, m, pair).Keys == pairs.Keys + {m}
    ensures forall x :: Entry(AddPair(pairs, m, pair), x)
                        == if x == m && pair !in Entry(pairs, x) then Entry(pairs, x) + [pair] else Entry(pairs, x)
  {
  }

  lemma PairsGrow(fdb: seq<FdbEntry>, e: FdbEntry, x: Mac)
    ensures Pairs(fdb + [e], x) == if e.mac == Some(x) && e.port.Some? && (e.port.value, e.vlan) !in Pairs(fdb, x)
                                   then Pairs(fdb, x) + [(e.port.value, e.vlan)] else Pairs(fdb, x)
  {
    assert (fdb + [e])[..|fdb|] == fdb;
  }

  lemma CrowdGrows(fdb: seq<FdbEntry>, e: FdbEntry, x: Port)
    ensures Crowd(fdb + [e], x)
            == if e.port == Some(x) && e.mac.Some? then Crowd(fdb, x) + {e.mac.value} else Crowd(fdb, x)
  {
    assert (fdb + [e])[..|fdb|] == fdb;
  }

  ghost predicate PairsAre(fdb: seq<FdbEntry>, macs: seq<Mac>, pairs: map<Mac, seq<(Port, Vlan)>>) {
    && NoRepeats(macs) && (forall m :: m in macs <==> m in pairs)
    && forall m :: Entry(pairs, m) == Pairs(fdb, m)
  }

  ghost predicate CrowdsAre(fdb: seq<FdbEntry>, crowd: map<Port, set<Mac>>) {
    forall p :: (if p in crowd then crowd[p] else {}) == Crowd(fdb, p)
  }

  lemma PairsAreGrows(fdb: seq<FdbEntry>, e: FdbEntry, macs: seq<Mac>, pairs: map<Mac, seq<(Port, Vlan)>>)
    requires PairsAre(fdb, macs, pairs)
    ensures e.mac.Some? && e.port.Some? ==>
              var m, p := e.mac.value, e.port.value;
              PairsAre(fdb + [e], if m in pairs then macs else macs + [m], AddPair(pairs, m, (p, e.vlan)))
    ensures e.mac.None? || e.port.None? ==> PairsAre(fdb + [e], macs, pairs)
  {
    hide Pairs, Entry, AddPair;
    if e.mac.Some? && e.port.Some? {
      PairAdded(pairs, e.mac.value, (e.port.value, e.vlan));
    }
    forall x
      ensures Pairs(fdb + [e], x)
              == if e.mac == Some(x) && e.port.Some? && (e.port.value, e.vlan) !in Pairs(fdb, x)
                 then Pairs(fdb, x) + [(e.port.value, e.vlan)] else Pairs(fdb, x)
    {
      PairsGrow(fdb, e, x);
    }
  }

  lemma CrowdsAreGrows(fdb: seq<FdbEntry>, e: FdbEntry, crowd: map<Port, set<Mac>>)
    requires CrowdsAre(fdb, crowd)
    ensures e.mac.Some? && e.port.Some? ==> CrowdsAre(fdb + [e], AddToCrowd(crowd, e.port.value, e.mac.value))
    ensures e.mac.None? || e.port.None? ==> CrowdsAre(fdb + [e], crowd)
  {
    hide Crowd;
    forall x
      ensures Crowd(fdb + [e], x)
              == if e.port == Some(x) && e.mac.Some? then Crowd(fdb, x) + {e.mac.value} else Crowd(fdb, x)
    {
      CrowdGrows(fdb, e, x);
    }
  }

  /** The inner loop of `index_switches`. */
  method IndexFdb(fdb: seq<FdbEntry>)
    returns (macs: seq<Mac>, pairs: map<Mac, seq<(Port, Vlan)>>, crowd: map<Port, set<Mac>>)
    ensures PairsAre(fdb, macs, pairs) && CrowdsAre(fdb, crowd)
  {
    macs, pairs, crowd := [], map[], map[];
    assert PairsAre(fdb[..0], macs, pairs) && CrowdsAre(fdb[..0], crowd);
    for i := 0 to |fdb|
      invariant PairsAre(fdb[..i], macs, pairs) && CrowdsAre(fdb[..i], crowd)
    {
      assert fdb[..i + 1] == fdb[..i] + [fdb[i]];
      var e := fdb[i];
      PairsAreGrows(fdb[..i], e, macs, pairs);
      CrowdsAreGrows(fdb[..i], e, crowd);
      if e.mac.Some? && e.port.Some? {
        macs := if e.mac.value in pairs then macs else macs + [e.mac.value];
        pairs := AddPair(pairs, e.mac.value, (e.port.value, e.vlan));
        crowd := AddToCrowd(crowd, e.port.value, e.mac.value);
      }
    }
    assert fdb[..|fdb|] == fdb;
  }

  // ---- the candidates ----------------------------------------------------------------

  /** The pairs off the uplinks, as candidates of this switch. */
  function Local(n: RawNode, pairs: seq<(Port, Vlan)>): seq<Candidate> {
    if pairs == [] then []
    else
      var before, (p, v) := Local(n, pairs[..|pairs| - 1]), pairs[|pairs| - 1];
      if p in n.uplinks then before
      else before + [Candidate(n.chassis, p, v, |Crowd(n.fdb, p)|)]
  }

  function CandidatesOf(nodes: seq<RawNode>, m: Mac): seq<Candidate> {
    if nodes == [] then []
    else
      var n := nodes[|nodes| - 1];
      CandidatesOf(nodes[..|nodes| - 1], m) + Local(n, Pairs(n.fdb, m))
  }

  /** A switch learned the MAC on a port that is none of its uplinks. */
  ghost predicate IsSighting(nodes: seq<RawNode>, m: Mac, c: Candidate) {
    exists n :: n in nodes && IsSightingBy(n, m, c)
  }

  ghost predicate IsSightingBy(n: RawNode, m: Mac, c: Candidate) {
    && Learned(n.fdb, m, c.port, c.vlan) && c.port !in n.uplinks
    && c.chassis == n.chassis && c.crowd == |Crowd(n.fdb, c.port)|
  }

  lemma {:induction false} LocalIs(n: RawNode, pairs: seq<(Port, Vlan)>)
    ensures forall c :: c in Local(n, pairs) <==>
              && (c.port, c.vlan) in pairs && c.port !in n.uplinks
              && c.chassis == n.chassis && c.crowd == |Crowd(n.fdb, c.port)|
  {
    hide Crowd;
    if pairs == [] {
      assert Local(n, pairs) == [];
    } else {
      LocalIs(n, pairs[..|pairs| - 1]);
      assert pairs == pairs[..|pairs| - 1] + [pairs[|pairs| - 1]];
      forall c | c in Local(n, pairs) && c !in Local(n, pairs[..|pairs| - 1])
        ensures (c.port, c.vlan) in pairs && c.port !in n.uplinks {
        assert (c.port, c.vlan) == pairs[|pairs| - 1];
      }
    }
  }

  lemma OneMoreSwitch(front: seq<RawNode>, n: RawNode, m: Mac, c: Candidate)
    ensures IsSighting(front + [n], m, c) <==> IsSighting(front, m, c) || IsSightingBy(n, m, c)
  {
    hide IsSightingBy;
    if IsSighting(front, m, c) {
      var x :| x in front && IsSightingBy(x, m, c);
      assert x in front + [n];
    } else if x :| x in front + [n] && IsSightingBy(x, m, c) {
      assert x == n;
    }
    assert n in front + [n];
  }

  /** The candidates of a MAC are exactly its sightings off the uplinks. */
  lemma {:induction false} CandidatesAreSightings(nodes: seq<RawNode>, m: Mac)
    ensures forall c :: c in CandidatesOf(nodes, m) <==> IsSighting(nodes, m, c)
  {
    hide Crowd, Learned;
    if nodes != [] {
      var front, n := nodes[..|nodes| - 1], nodes[|nodes| - 1];
      CandidatesAreSightings(front, m);
      LocalIs(n, Pairs(n.fdb, m));
      PairsAreLearned(n.fdb, m);
      assert nodes == front + [n];
      forall c ensures c in CandidatesOf(nodes, m) <==> IsSighting(nodes, m, c) {
        OneMoreSwitch(front, n, m, c);
        assert c in Local(n, Pairs(n.fdb, m)) <==> IsSightingBy(n, m, c);
      }
    }
  }

  /** The candidates after a switch's first k MACs. */
  ghost predicate Added(found: map<Mac, seq<Candidate>>, before: map<Mac, seq<Candidate>>, n: RawNode,
                        infra: set<Mac>, macs: seq<Mac>) {
    forall m :: Entry(found, m) == Entry(before, m)
                                + if m in macs && m !in infra then Local(n, Pairs(n.fdb, m)) else []
  }

  /** The keys met so far, in order, are those with candidates. */
  ghost predicate InOrder(order: seq<Mac>, found: map<Mac, seq<Candidate>>) {
    && NoRepeats(order) && (forall m :: m in order <==> m in found)
    && forall m | m in found :: found[m] != []
  }

  function AddCandidate(found: map<Mac, seq<Candidate>>, m: Mac, c: Candidate): map<Mac, seq<Candidate>> {
    found[m := Entry(found, m) + [c]]
  }

  lemma OneMoreCandidate(order: seq<Mac>, found: map<Mac, seq<Candidate>>, m: Mac, c: Candidate)
    requires InOrder(order, found)
    ensures InOrder(if m in found then order else order + [m], AddCandidate(found, m, c))
    ensures Entry(AddCandidate(found, m, c), m) == Entry(found, m) + [c]
    ensures forall x | x != m :: Entry(AddCandidate(found, m, c), x) == Entry(found, x)
  {
  }

  function CandidateAt(n: RawNode, pair: (Port, Vlan), crowd: map<Port, set<Mac>>): Candidate {
    Candidate(n.chassis, pair.0, pair.1, if pair.0 in crowd then |crowd[pair.0]| else 0)
  }

  lemma OneMoreLocal(n: RawNode, pairs: seq<(Port, Vlan)>, j: nat, crowd: map<Port, set<Mac>>)
    requires j < |pairs| && CrowdsAre(n.fdb, crowd)
    ensures Local(n, pairs[..j + 1])
            == Local(n, pairs[..j]) + if pairs[j].0 in n.uplinks then [] else [CandidateAt(n, pairs[j], crowd)]
  {
    assert pairs[..j + 1][..j] == pairs[..j];
  }

  lemma NothingLocal(n: RawNode, pairs: seq<(Port, Vlan)>)
    requires pairs == []
    ensures Local(n, pairs) == []
  {
  }

  method AddPairs(n: RawNode, m: Mac, pairs: seq<(Port, Vlan)>, crowd: map<Port, set<Mac>>, order0: seq<Mac>,
                  before: map<Mac, seq<Candidate>>)
    returns (order: seq<Mac>, found: map<Mac, seq<Candidate>>)
    requires InOrder(order0, before)
    requires CrowdsAre(n.fdb, crowd)
    ensures InOrder(order, found) && Entry(found, m) == Entry(before, m) + Local(n, pairs)
    ensures forall x | x != m :: Entry(found, x) == Entry(before, x)
  {
    hide InOrder, CrowdsAre, Local, Entry, AddCandidate, CandidateAt;
    order, found := order0, before;
    assert Local(n, pairs[..0]) == [] by { NothingLocal(n, pairs[..0]); }
    for j := 0 to |pairs|
      invariant InOrder(order, found) && Entry(found, m) == Entry(before, m) + Local(n, pairs[..j])
      invariant forall x | x != m :: Entry(found, x) == Entry(before, x)
    {
      OneMoreLocal(n, pairs, j, crowd);
      if pairs[j].0 !in n.uplinks {
        var c := CandidateAt(n, pairs[j], crowd);
        OneMoreCandidate(order, found, m, c);
        order := if m in found then order else order + [m];
        found := AddCandidate(found, m, c);
      }
    }
    assert pairs[..|pairs|] == pairs;
  }

  lemma EntryIs<T>(found: map<Mac, seq<T>>, m: Mac)
    ensures Entry(found, m) == if m in found then found[m] else []
  {
  }

  method AddSwitch(n: RawNode, infra: set<Mac>, order0: seq<Mac>, before: map<Mac, seq<Candidate>>)
    returns (order: seq<Mac>, found: map<Mac, seq<Candidate>>)
    requires InOrder(order0, before)
    ensures InOrder(order, found)
    ensures forall m :: Entry(found, m) == Entry(before, m) + if m in infra then [] else Local(n, Pairs(n.fdb, m))
  {
    hide InOrder, Crowd, Local, Entry, Pairs;
    var macs, pairs, crowd := IndexFdb(n.fdb);
    order, found := order0, before;
    for k := 0 to |macs|
      invariant InOrder(order, found) && Added(found, before, n, infra, macs[..k])
    {
      assert macs[..k + 1] == macs[..k] + [macs[k]];
      if macs[k] !in infra {
        assert Entry(pairs, macs[k]) == pairs[macs[k]] by { EntryIs(pairs, macs[k]); }
        order, found := AddPairs(n, macs[k], pairs[macs[k]], crowd, order, found);
      }
    }
    assert macs[..|macs|] == macs;
    forall m ensures Entry(found, m) == Entry(before, m) + if m in infra then [] else Local(n, Pairs(n.fdb, m)) {
      if m !in macs {
        EntryIs(pairs, m);
        NothingLocal(n, Pairs(n.fdb, m));
      }
    }
  }

  ghost predicate Gathered(nodes: seq<RawNode>, infra: set<Mac>, found: map<Mac, seq<Candidate>>) {
    forall m :: Entry(found, m) == if m in infra then [] else CandidatesOf(nodes, m)
  }

  method Gather(nodes: seq<RawNode>, infra: set<Mac>) returns (order: seq<Mac>, found: map<Mac, seq<Candidate>>)
    ensures InOrder(order, found) && Gathered(nodes, infra, found)
  {
    hide InOrder, Entry, Local, Pairs;
    order, found := [], map[];
    assert InOrder(order, found) && Gathered(nodes[..0], infra, found) by { NothingGathered(nodes[..0], infra); }
    for i := 0 to |nodes|
      invariant InOrder(order, found) && Gathered(nodes[..i], infra, found)
    {
      assert nodes[..i + 1][..i] == nodes[..i];
      order, found := AddSwitch(nodes[i], infra, order, found);
    }
    assert nodes[..|nodes|] == nodes;
  }

  lemma NothingGathered(nodes: seq<RawNode>, infra: set<Mac>)
    requires nodes == []
    ensures InOrder([], map[]) && Gathered(nodes, infra, map[])
  {
  }

  // ---- the choice --------------------------------------------------------------------

  /** The key of the tie-break: the fewer MACs on the port, then the ids. */
  predicate Less(a: Candidate, b: Candidate) {
    if a.crowd != b.crowd then a.crowd < b.crowd
    else if a.chassis != b.chassis then Below(DeviceNodeId(a.chassis), DeviceNodeId(b.chassis))
    else Below(a.port, b.port)
  }

  lemma DeviceIdsDiffer(a: string, b: string)
    ensures DeviceNodeId(a) == DeviceNodeId(b) <==> a == b
  {
    assert DeviceNodeId(a)[7..] == a && DeviceNodeId(b)[7..] == b;
  }

  lemma LessIsAnOrder(a: Candidate, b: Candidate, c: Candidate)
    ensures !Less(a, a) && !(Less(a, c) && Less(c, a)) && (Less(a, b) && !Less(c, b) ==> Less(a, c))
  {
    var u, v, w := DeviceNodeId(a.chassis), DeviceNodeId(b.chassis), DeviceNodeId(c.chassis);
    DeviceIdsDiffer(a.chassis, b.chassis);
    DeviceIdsDiffer(b.chassis, c.chassis);
    DeviceIdsDiffer(a.chassis, c.chassis);
    Trichotomy(u, v);
    Trichotomy(w, v);
    Trichotomy(w, u);
    Trichotomy(a.port, b.port);
    Trichotomy(c.port, b.port);
    Trichotomy(c.port, a.port);
    Trichotomy(a.port, a.port);
    if Below(u, v) && Below(v, w) {
      Transitive(u, v, w);
    }
    if Below(a.port, b.port) && Below(b.port, c.port) {
      Transitive(a.port, b.port, c.port);
    }
  }

  /** The first of the least. */
  ghost predicate IsFirstLeast(list: seq<Candidate>, k: nat) {
    && k < |list| && (forall j | 0 <= j < |list| :: !Less(list[j], list[k]))
    && forall j | 0 <= j < k :: Less(list[k], list[j])
  }

  method FirstLeast(list: seq<Candidate>) returns (k: nat)
    requires list != []
    ensures IsFirstLeast(list, k)
  {
    hide Less;
    k := 0;
    LessIsAnOrder(list[0], list[0], list[0]);
    for i := 1 to |list|
      invariant k < i && IsFirstLeast(list[..i], k)
    {
      forall j | 0 <= j < i
        ensures Less(list[i], list[k]) ==> Less(list[i], list[j]) && !Less(list[j], list[i])
      {
        LessIsAnOrder(list[i], list[k], list[j]);
        assert list[..i][j] == list[j] && list[..i][k] == list[k];
      }
      LessIsAnOrder(list[i], list[i], list[i]);
      if Less(list[i], list[k]) {
        k := i;
      }
    }
    assert list[..|list|] == list;
  }

  // ---- the table ---------------------------------------------------------------------

  /** A device's own MACs, and the base MAC of each polled one. */
  ghost predicate IsInfra(nodes: seq<RawNode>, m: Mac) {
    exists n :: n in nodes && IsOwn(n, m)
  }

  predicate IsOwn(n: RawNode, m: Mac) {
    m in n.ownMacs || (n.polled && (n.chassisMac == Some(m) || n.mac == Some(m)))
  }

  method InfraMacs(nodes: seq<RawNode>) returns (macs: set<Mac>)
    ensures forall m :: m in macs <==> IsInfra(nodes, m)
  {
    macs := {};
    for i := 0 to |nodes|
      invariant forall m :: m in macs <==> IsInfra(nodes[..i], m)
    {
      var n := nodes[i];
      ghost var before := macs;
      macs := macs + n.ownMacs;
      if n.polled {
        macs := macs + (if n.chassisMac.Some? then {n.chassisMac.value} else {})
                     + if n.mac.Some? then {n.mac.value} else {};
      }
      assert nodes[..i + 1] == nodes[..i] + [n];
      assert forall m :: m in macs <==> m in before || IsOwn(n, m);
      forall m ensures m in macs <==> IsInfra(nodes[..i + 1], m) {
        OneMoreOwner(nodes[..i], n, m);
      }
    }
    assert nodes[..|nodes|] == nodes;
  }

  lemma OneMoreOwner(front: seq<RawNode>, n: RawNode, m: Mac)
    ensures IsInfra(front + [n], m) <==> IsInfra(front, m) || IsOwn(n, m)
  {
    hide IsOwn;
    if IsInfra(front, m) {
      var x :| x in front && IsOwn(x, m);
      assert x in front + [n];
    }
    assert n in front + [n];
  }

  function AllArp(nodes: seq<RawNode>): seq<(Mac, Ip)> {
    if nodes == [] then [] else AllArp(nodes[..|nodes| - 1]) + nodes[|nodes| - 1].arp
  }

  /** Each MAC's address: the last row wins. */
  function ArpOf(rows: seq<(Mac, Ip)>): map<Mac, Ip> {
    if rows == [] then map[] else ArpOf(rows[..|rows| - 1])[rows[|rows| - 1].0 := rows[|rows| - 1].1]
  }

  lemma ArpGrows(rows: seq<(Mac, Ip)>, row: (Mac, Ip))
    ensures ArpOf(rows + [row]) == ArpOf(rows)[row.0 := row.1]
  {
    assert (rows + [row])[..|rows|] == rows;
  }

  method AddArp(rows: seq<(Mac, Ip)>, ghost before: seq<(Mac, Ip)>, order0: seq<Mac>, arp0: map<Mac, Ip>)
    returns (order: seq<Mac>, arp: map<Mac, Ip>)
    requires arp0 == ArpOf(before) && forall m :: m in order0 <==> m in arp0
    ensures arp == ArpOf(before + rows) && forall m :: m in order <==> m in arp
  {
    hide ArpOf;
    order, arp := order0, arp0;
    assert before + rows[..0] == before;
    for j := 0 to |rows|
      invariant arp == ArpOf(before + rows[..j]) && forall m :: m in order <==> m in arp
    {
      ArpGrows(before + rows[..j], rows[j]);
      assert before + rows[..j + 1] == before + rows[..j] + [rows[j]];
      order := if rows[j].0 in arp then order else order + [rows[j].0];
      arp := arp[rows[j].0 := rows[j].1];
    }
    assert before + rows[..|rows|] == before + rows;
  }

  method CollectArp(nodes: seq<RawNode>) returns (arp: map<Mac, Ip>, byIp: map<Ip, Mac>)
    ensures arp == ArpOf(AllArp(nodes))
    ensures forall ip :: ip in byIp <==> exists m :: m in arp && arp[m] == ip
    ensures forall ip | ip in byIp :: byIp[ip] in arp && arp[byIp[ip]] == ip
  {
    arp := map[];
    var order: seq<Mac> := [];
    for i := 0 to |nodes|
      invariant arp == ArpOf(AllArp(nodes[..i])) && forall m :: m in order <==> m in arp
    {
      assert nodes[..i + 1][..i] == nodes[..i];
      order, arp := AddArp(nodes[i].arp, AllArp(nodes[..i]), order, arp);
    }
    assert nodes[..|nodes|] == nodes;
    byIp := IndexByIp(order, arp);
  }

  /** The MAC of each address; where two share one, the last in order. */
  method IndexByIp(order: seq<Mac>, ips: map<Mac, Ip>) returns (byIp: map<Ip, Mac>)
    requires forall m | m in order :: m in ips
    ensures forall ip :: ip in byIp <==> exists m :: m in order && ips[m] == ip
    ensures forall ip | ip in byIp :: byIp[ip] in order && ips[byIp[ip]] == ip
  {
    byIp := map[];
    for i := 0 to |order|
      invariant forall ip | ip in byIp :: byIp[ip] in order && ips[byIp[ip]] == ip
      invariant forall k | 0 <= k < i :: ips[order[k]] in byIp
    {
      byIp := byIp[ips[order[i]] := order[i]];
    }
  }

  /** The fact kept for a MAC: the first least of its candidates. */
  ghost predicate IsFact(list: seq<Candidate>, ip: Option<Ip>, f: Fact) {
    && f.ip == ip && f.confidence == (if |list| == 1 then Resolved else Tiebreak)
    && exists k: nat :: IsFirstLeast(list, k)
                        && f == Fact(ip, list[k].chassis, list[k].port, list[k].vlan, f.confidence)
  }

  ghost predicate IsTable(nodes: seq<RawNode>, t: MacTable) {
    && (forall m :: m in t.infra <==> IsInfra(nodes, m))
    && NoRepeats(t.macs) && (forall m :: m in t.macs <==> m in t.byMac)
    && (forall m :: m in t.byMac <==> !IsInfra(nodes, m) && CandidatesOf(nodes, m) != [])
    && (forall m | m in t.byMac :: IsFact(CandidatesOf(nodes, m), Address(ArpOf(AllArp(nodes)), m), t.byMac[m]))
    && (forall ip | ip in t.byIp :: t.byIp[ip] in t.byMac && t.byMac[t.byIp[ip]].ip == Some(ip))
    && (forall ip | ip in t.arpByIp :: Address(ArpOf(AllArp(nodes)), t.arpByIp[ip]) == Some(ip))
    && (forall m | m in t.byMac && t.byMac[m].ip.Some? :: t.byMac[m].ip.value in t.byIp)
  }

  function Address(arp: map<Mac, Ip>, m: Mac): Option<Ip> {
    if m in arp then Some(arp[m]) else None
  }

  method ChooseFacts(nodes: seq<RawNode>, macs: seq<Mac>, found: map<Mac, seq<Candidate>>, arp: map<Mac, Ip>)
    returns (byMac: map<Mac, Fact>, withIp: seq<Mac>, ips: map<Mac, Ip>)
    requires InOrder(macs, found) && forall m | m in found :: found[m] == CandidatesOf(nodes, m)
    ensures forall m :: m in byMac <==> m in macs
    ensures forall m | m in byMac :: IsFact(CandidatesOf(nodes, m), Address(arp, m), byMac[m])
    ensures forall m :: m in withIp <==> m in byMac && byMac[m].ip.Some?
    ensures forall m | m in withIp :: m in ips && byMac[m].ip == Some(ips[m])
  {
    hide IsFirstLeast, CandidatesOf, NoRepeats;
    byMac, withIp, ips := map[], [], map[];
    for i := 0 to |macs|
      invariant forall m :: m in byMac <==> m in macs[..i]
      invariant forall m | m in byMac :: IsFact(CandidatesOf(nodes, m), Address(arp, m), byMac[m])
      invariant forall m :: m in withIp <==> m in byMac && byMac[m].ip.Some?
      invariant forall m | m in withIp :: m in ips && byMac[m].ip == Some(ips[m])
    {
      assert macs[..i + 1] == macs[..i] + [macs[i]] && macs[i] !in macs[..i] by {
        NotBefore(macs, i);
      }
      var m := macs[i];
      var list := found[m];
      var k := FirstLeast(list);
      LeastIsAnIndex(list, k);
      var confidence := if |list| == 1 then Resolved else Tiebreak;
      byMac := byMac[m := Fact(Address(arp, m), list[k].chassis, list[k].port, list[k].vlan, confidence)];
      if m in arp {
        withIp, ips := withIp + [m], ips[m := arp[m]];
      }
    }
    assert macs[..|macs|] == macs;
  }

  lemma NotBefore(macs: seq<Mac>, i: nat)
    requires NoRepeats(macs) && i < |macs|
    ensures macs[i] !in macs[..i]
  {
  }

  lemma LeastIsAnIndex(list: seq<Candidate>, k: nat)
    requires IsFirstLeast(list, k)
    ensures k < |list|
  {
  }

  /** `build_mac_table`. */
  method BuildMacTable(nodes: seq<RawNode>) returns (t: MacTable)
    ensures IsTable(nodes, t)
  {
    hide IsFact, IsInfra, CandidatesOf, ArpOf, AllArp, NoRepeats, Entry;
    var infra := InfraMacs(nodes);
    var arp, arpByIp := CollectArp(nodes);
    var macs, found := Gather(nodes, infra);
    forall m ensures m in found <==> !IsInfra(nodes, m) && CandidatesOf(nodes, m) != []
             ensures m in found ==> found[m] == CandidatesOf(nodes, m) {
      EntryIs(found, m);
    }
    var byMac, withIp, ips := ChooseFacts(nodes, macs, found, arp);
    var byIp := IndexByIp(withIp, ips);
    t := MacTable(macs, byMac, byIp, infra, arpByIp);
  }

  // ---- what the table says -----------------------------------------------------------

  /** A MAC has a row exactly when it is no infrastructure and some switch learned it
      off its uplinks. The row is such a sighting, no other is on a less crowded port,
      and when it is called resolved there is no other. */
  lemma RowIsTheBestSighting(nodes: seq<RawNode>, t: MacTable, m: Mac)
    requires IsTable(nodes, t)
    ensures m in t.byMac <==> !IsInfra(nodes, m) && exists c :: IsSighting(nodes, m, c)
    ensures m in t.byMac ==>
              exists c :: && IsSighting(nodes, m, c)
                          && Fact(t.byMac[m].ip, c.chassis, c.port, c.vlan, t.byMac[m].confidence) == t.byMac[m]
                          && (forall d | IsSighting(nodes, m, d) :: !Less(d, c) && c.crowd <= d.crowd)
                          && (t.byMac[m].confidence == Resolved ==> forall d | IsSighting(nodes, m, d) :: d == c)
  {
    hide IsSighting, CandidatesOf, IsFact, Less;
    CandidatesAreSightings(nodes, m);
    var list := CandidatesOf(nodes, m);
    if list != [] {
      assert list[0] in list;
    }
    if m in t.byMac {
      var c := ChosenIsLeast(list, Address(ArpOf(AllArp(nodes)), m), t.byMac[m]);
      forall d | IsSighting(nodes, m, d) ensures !Less(d, c) && c.crowd <= d.crowd {
        assert d in list;
      }
    }
  }

  /** A MAC counts as infrastructure exactly when a device has it as one of its own, or it is
      what a polled device goes by. */
  lemma InfraExactlyWhen(nodes: seq<RawNode>, t: MacTable, m: Mac)
    requires IsTable(nodes, t)
    ensures m in t.infra
            <==> exists n :: n in nodes && (m in n.ownMacs || (n.polled && Some(m) in {n.chassisMac, n.mac}))
  {
    hide IsFact, NoRepeats;
    if n :| n in nodes && (m in n.ownMacs || (n.polled && Some(m) in {n.chassisMac, n.mac})) {
      assert IsOwn(n, m);
    }
  }

  /** Of sightings on equally crowded ports the row is the one by the device whose node id is
      lowest, and there the one on the lowest port. */
  lemma TiesGoToTheLowest(nodes: seq<RawNode>, t: MacTable, m: Mac, d: Candidate)
    requires IsTable(nodes, t) && m in t.byMac && IsSighting(nodes, m, d)
    ensures exists c :: && IsSighting(nodes, m, c) && c.chassis == t.byMac[m].chassis && c.port == t.byMac[m].port
                        && c.crowd <= d.crowd
                        && (c.crowd == d.crowd ==> !Below(DeviceNodeId(d.chassis), DeviceNodeId(c.chassis)))
                        && (c.crowd == d.crowd && c.chassis == d.chassis ==> !Below(d.port, c.port))
  {
    hide IsTable, IsSighting;
    RowIsTheBestSighting(nodes, t, m);
    var c :| && IsSighting(nodes, m, c)
             && Fact(t.byMac[m].ip, c.chassis, c.port, c.vlan, t.byMac[m].confidence) == t.byMac[m]
             && forall e | IsSighting(nodes, m, e) :: !Less(e, c) && c.crowd <= e.crowd;
    assert !Less(d, c);
    Trichotomy(DeviceNodeId(c.chassis), DeviceNodeId(c.chassis));
  }

  lemma ChosenIsLeast(list: seq<Candidate>, ip: Option<Ip>, f: Fact) returns (c: Candidate)
    requires IsFact(list, ip, f)
    ensures c in list && Fact(f.ip, c.chassis, c.port, c.vlan, f.confidence) == f
    ensures forall d | d in list :: !Less(d, c) && c.crowd <= d.crowd
    ensures f.confidence == Resolved ==> forall d | d in list :: d == c
  {
    var k: nat :| IsFirstLeast(list, k) && Fact(ip, list[k].chassis, list[k].port, list[k].vlan, f.confidence) == f;
    c := list[k];
    forall d | d in list ensures !Less(d, c) && c.crowd <= d.crowd {
      var j :| 0 <= j < |list| && list[j] == d;
      assert !Less(list[j], list[k]);
    }
  }

  /** When only polled devices carry tables, every row names a polled switch. */
  lemma RowsNamePolledSwitches(nodes: seq<RawNode>, t: MacTable, m: Mac)
    requires IsTable(nodes, t) && m in t.byMac
    requires forall n | n in nodes && !n.polled :: n.fdb == []
    ensures exists n :: n in nodes && n.polled && t.byMac[m].chassis == n.chassis
  {
    hide IsTable;
    RowIsTheBestSighting(nodes, t, m);
    var c :| IsSighting(nodes, m, c) && t.byMac[m].chassis == c.chassis;
    var n :| n in nodes && IsSightingBy(n, m, c);
  }
}
