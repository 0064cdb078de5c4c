/** From the crawl's links and CDP entries to the document's edges: one edge per cable. */
module CrawlDocument {
  import opened Sequences
  import opened Wrappers
  import opened Ordering
  import opened CrawlState

  /** A CDP entry with its neighbour resolved to a device (polled, tried or made up). */
  datatype CdpEntry = CdpEntry(source: Cid, target: Cid, localPort: Option<string>, remotePort: Option<string>)

  function Resolve(s: Shared, e: (Cid, Neighbor)): CdpEntry {
    var (source, nb) := e;
    var known := CdpTarget(s, nb);
    var target := if known.Some? then known.value else "cdp:" + nb.name.GetOr(nb.mgmtIp.GetOr("None"));
    CdpEntry(source, target, nb.localPort, nb.remotePort)
  }

  function Resolved(s: Shared): (entries: seq<CdpEntry>)
    ensures |entries| == |s.cdpLinks|
    ensures forall i | 0 <= i < |entries| :: entries[i] == Resolve(s, s.cdpLinks[i])
  {
    seq(|s.cdpLinks|, i requires 0 <= i < |s.cdpLinks| => Resolve(s, s.cdpLinks[i]))
  }

  function Ends(l: Link): set<Cid> {
    {l.source, l.target}
  }

  function AsLink(e: CdpEntry): Link {
    Link(e.source, e.target, e.localPort, e.remotePort, Cdp)
  }

  /** A pair LLDP links gets no second link, and a device none to itself. */
  predicate Kept(lldp: seq<Link>, e: CdpEntry) {
    e.target != e.source && forall l | l in lldp :: Ends(l) != {e.source, e.target}
  }

  function KeptLinks(lldp: seq<Link>, entries: seq<CdpEntry>): seq<Link> {
    if entries == [] then []
    else
      var front, last := entries[..|entries| - 1], entries[|entries| - 1];
      KeptLinks(lldp, front) + if Kept(lldp, last) then [AsLink(last)] else []
  }

  predicate CdpOnly(links: seq<Link>, pair: set<Cid>) {
    forall l | l in links && Ends(l) == pair :: l.protocol == Cdp
  }

  lemma {:induction false} KeptLinksAreCdp(lldp: seq<Link>, entries: seq<CdpEntry>)
    ensures forall l | l in KeptLinks(lldp, entries) ::
              && l.protocol == Cdp && l.source != l.target
              && forall m | m in lldp :: Ends(m) != Ends(l)
    ensures forall e | e in entries && Kept(lldp, e) :: AsLink(e) in KeptLinks(lldp, entries)
  {
    if entries != [] {
      var front, last := entries[..|entries| - 1], entries[|entries| - 1];
      KeptLinksAreCdp(lldp, front);
      assert entries == front + [last];
    }
  }

  /** `_resolve_cdp_links`: what the loop keeps by its running `linked` set and
      `_cdp_only` is exactly the resolved entries LLDP does not link. */
  method ResolveCdpLinks(s: Shared) returns (links: seq<Link>)
    requires forall l | l in s.links :: l.protocol == Lldp
    ensures links == s.links + KeptLinks(s.links, Resolved(s))
  {
    hide Resolve, Kept, CdpOnly, EndsOf, KeptLinks;
    links := s.links;
    ghost var entries := Resolved(s);
    NoEntryYet(s.links);
    var linked := EndsOf(s.links);
    for i := 0 to |s.cdpLinks|
      invariant links == s.links + KeptLinks(s.links, entries[..i]) && linked == EndsOf(links)
    {
      var e := Resolve(s, s.cdpLinks[i]);
      var pair := {e.source, e.target};
      assert entries[..i + 1] == entries[..i] + [e];
      KeptLinksAreCdp(s.links, entries[..i]);
      KeptExactlyWhen(s.links, KeptLinks(s.links, entries[..i]), e);
      OneMoreEntry(s.links, entries[..i], e);
      if e.target == e.source || (pair in linked && !CdpOnly(links, pair)) {
        continue;
      }
      OneMoreLink(links, e);
      linked := linked + {pair};
      links := links + [AsLink(e)];
    }
    assert entries[..|entries|] == entries;
  }

  function EndsOf(links: seq<Link>): set<set<Cid>> {
    set l | l in links :: Ends(l)
  }

  lemma NoEntryYet(lldp: seq<Link>)
    ensures KeptLinks(lldp, []) == []
  {
  }

  lemma OneMoreLink(links: seq<Link>, e: CdpEntry)
    ensures EndsOf(links + [AsLink(e)]) == EndsOf(links) + {{e.source, e.target}}
  {
    assert forall l :: l in links + [AsLink(e)] <==> l in links || l == AsLink(e);
    assert Ends(AsLink(e)) == {e.source, e.target};
  }

  lemma OneMoreEntry(lldp: seq<Link>, entries: seq<CdpEntry>, e: CdpEntry)
    ensures KeptLinks(lldp, entries + [e]) == KeptLinks(lldp, entries) + if Kept(lldp, e) then [AsLink(e)] else []
  {
    assert (entries + [e])[..|entries|] == entries;
  }

  lemma KeptExactlyWhen(lldp: seq<Link>, cdp: seq<Link>, e: CdpEntry)
    requires forall l | l in lldp :: l.protocol == Lldp
    requires forall l | l in cdp :: l.protocol == Cdp
    ensures var pair := {e.source, e.target};
            Kept(lldp, e)
            <==> e.target != e.source && (pair !in EndsOf(lldp + cdp) || CdpOnly(lldp + cdp, pair))
  {
    assert forall l | l in lldp :: l in lldp + cdp;
  }

  /** After resolving, no pair has both an LLDP and a CDP link. */
  lemma NoPairHasBoth(lldp: seq<Link>, entries: seq<CdpEntry>)
    requires forall l | l in lldp :: l.protocol == Lldp
    ensures var links := lldp + KeptLinks(lldp, entries);
            forall l, m | l in links && m in links && Ends(l) == Ends(m) :: l.protocol == m.protocol
  {
    KeptLinksAreCdp(lldp, entries);
  }

  /** The device a CDP row describes: the one known by its address, else by its name, else one
      made up from its name, or its address when it has none. */
  ghost predicate IsNeighborDevice(s: Shared, nb: Neighbor, c: Cid) {
    if nb.mgmtIp.Some? && nb.mgmtIp.value in s.cidByIp then c == s.cidByIp[nb.mgmtIp.value]
    else if nb.name.Some? && nb.name.value in s.cidByName then c == s.cidByName[nb.name.value]
    else if nb.name.Some? then c == "cdp:" + nb.name.value
    else if nb.mgmtIp.Some? then c == "cdp:" + nb.mgmtIp.value
    else c == "cdp:None"
  }

  /** The link runs from the device whose row it is, on that device's port. */
  ghost predicate IsCdpLinkOf(s: Shared, l: Link, source: Cid, nb: Neighbor) {
    && l.source == source && IsNeighborDevice(s, nb, l.target) && l.protocol == Cdp
    && l.localPort == nb.localPort && l.remotePort == nb.remotePort
  }

  ghost predicate LldpJoins(s: Shared, x: Cid, y: Cid) {
    exists m :: m in s.links && ((m.source == x && m.target == y) || (m.source == y && m.target == x))
  }

  /** The CDP links are those of the CDP rows whose ends are two devices no LLDP table joins. */
  lemma CdpLinksSayTheirRows(s: Shared)
    ensures forall l | l in KeptLinks(s.links, Resolved(s)) ::
              && l.source != l.target && !LldpJoins(s, l.source, l.target)
              && exists source, nb :: (source, nb) in s.cdpLinks && IsCdpLinkOf(s, l, source, nb)
    ensures forall source, nb, c | (source, nb) in s.cdpLinks && IsNeighborDevice(s, nb, c) ::
              c == source || LldpJoins(s, source, c)
              || exists l :: l in KeptLinks(s.links, Resolved(s)) && IsCdpLinkOf(s, l, source, nb)
  {
    hide Kept, KeptLinks, CdpTarget;
    KeptLinksAreEntries(s.links, Resolved(s));
    forall l | l in KeptLinks(s.links, Resolved(s))
      ensures exists source, nb :: (source, nb) in s.cdpLinks && IsCdpLinkOf(s, l, source, nb)
      ensures l.source != l.target && !LldpJoins(s, l.source, l.target)
    {
      var e :| e in Resolved(s) && Kept(s.links, e) && l == AsLink(e);
      var i :| 0 <= i < |s.cdpLinks| && Resolved(s)[i] == e;
      ResolvesTo(s, s.cdpLinks[i]);
      assert s.cdpLinks[i] in s.cdpLinks;
      KeptIs(s, e);
    }
    forall source, nb, c | (source, nb) in s.cdpLinks && IsNeighborDevice(s, nb, c)
      ensures c == source || LldpJoins(s, source, c)
              || exists l :: l in KeptLinks(s.links, Resolved(s)) && IsCdpLinkOf(s, l, source, nb)
    {
      var i :| 0 <= i < |s.cdpLinks| && s.cdpLinks[i] == (source, nb);
      var e := Resolved(s)[i];
      ResolvesTo(s, (source, nb));
      KeptIs(s, e);
      assert e in Resolved(s);
      assert Kept(s.links, e) ==> IsCdpLinkOf(s, AsLink(e), source, nb);
    }
  }

  lemma {:induction false} KeptLinksAreEntries(lldp: seq<Link>, entries: seq<CdpEntry>)
    ensures forall l :: l in KeptLinks(lldp, entries) <==> exists e :: e in entries && Kept(lldp, e) && l == AsLink(e)
  {
    hide Kept, AsLink;
    if entries != [] {
      var front, last := entries[..|entries| - 1], entries[|entries| - 1];
      KeptLinksAreEntries(lldp, front);
      assert entries == front + [last];
    }
  }

  lemma ResolvesTo(s: Shared, entry: (Cid, Neighbor))
    ensures var e := Resolve(s, entry);
            && e.source == entry.0 && IsNeighborDevice(s, entry.1, e.target)
            && e.localPort == entry.1.localPort && e.remotePort == entry.1.remotePort
  {
  }

  lemma KeptIs(s: Shared, e: CdpEntry)
    ensures Kept(s.links, e) <==> e.source != e.target && !LldpJoins(s, e.source, e.target)
  {
    if m :| m in s.links && Ends(m) == {e.source, e.target} {
      assert m.source in Ends(m) && m.target in Ends(m) && e.source in Ends(m) && e.target in Ends(m);
      assert LldpJoins(s, e.source, e.target);
    }
    if m :| m in s.links
            && ((m.source == e.source && m.target == e.target) || (m.source == e.target && m.target == e.source)) {
      assert Ends(m) == {e.source, e.target};
    }
  }

  // ---- one edge per cable ------------------------------------------------------------

  /** A link with its smaller chassis id first. */
  datatype Report = Report(a: Cid, b: Cid, aPort: Option<string>, bPort: Option<string>, protocol: Protocol)

  datatype Edge = Edge(a: Cid, b: Cid, aPort: Option<string>, bPort: Option<string>, protocol: Option<Protocol>)

  function Normal(l: Link): Report {
    if AtMost(l.source, l.target) then Report(l.source, l.target, l.localPort, l.remotePort, l.protocol)
    else Report(l.target, l.source, l.remotePort, l.localPort, l.protocol)
  }

  function Normals(links: seq<Link>): (reports: seq<Report>)
    ensures |reports| == |links| && forall i | 0 <= i < |links| :: reports[i] == Normal(links[i])
  {
    seq(|links|, i requires 0 <= i < |links| => Normal(links[i]))
  }

  /** Python's truth of a port name: not None and not empty. */
  predicate Named(p: Option<string>) {
    p.Some? && p.value != ""
  }

  function Either(p: Option<string>, q: Option<string>): Option<string> {
    if Named(p) then p else q
  }

  type Pair = (Cid, Cid)

  function PairOf(r: Report): Pair {
    (r.a, r.b)
  }

  /** The pairs reported, in the order first reported. */
  function Pairs(reports: seq<Report>): (pairs: seq<Pair>)
    ensures forall p :: p in pairs <==> exists r | r in reports :: PairOf(r) == p
    ensures NoRepeats(pairs)
  {
    if reports == [] then []
    else
      var front, last := reports[..|reports| - 1], reports[|reports| - 1];
      assert reports == front + [last];
      var pairs := Pairs(front);
      if PairOf(last) in pairs then pairs else pairs + [PairOf(last)]
  }

  /** A pair's port at one end: the first name reported, else as first reported. */
  function PortOf(reports: seq<Report>, p: Pair, atA: bool): Option<string> {
    if reports == [] then None
    else
      var front, last := reports[..|reports| - 1], reports[|reports| - 1];
      var port := if atA then last.aPort else last.bPort;
      if PairOf(last) != p then PortOf(front, p, atA)
      else if p in Pairs(front) then Either(PortOf(front, p, atA), port) else port
  }

  function ProtocolsOf(reports: seq<Report>, p: Pair): set<Protocol> {
    set r | r in reports && PairOf(r) == p :: r.protocol
  }

  function EdgeOf(reports: seq<Report>, p: Pair): Edge {
    Edge(p.0, p.1, PortOf(reports, p, true), PortOf(reports, p, false),
         if Lldp in ProtocolsOf(reports, p) then None else Some(Cdp))
  }

  function Edges(reports: seq<Report>): seq<Edge> {
    var pairs := Pairs(reports);
    seq(|pairs|, i requires 0 <= i < |pairs| => EdgeOf(reports, pairs[i]))
  }

  /** The dictionaries of `_dedupe_edges`; `order` is their insertion order. */
  datatype Merge = Merge(order: seq<Pair>, ports: map<Pair, (Option<string>, Option<string>)>,
                         protocols: map<Pair, set<Protocol>>)

  /** What the dictionaries hold after some reports. */
  ghost predicate Merges(reports: seq<Report>, m: Merge) {
    && m.order == Pairs(reports)
    && (forall p :: p in m.ports <==> p in m.order) && m.protocols.Keys == m.ports.Keys
    && (forall p | p in m.ports :: m.ports[p] == (PortOf(reports, p, true), PortOf(reports, p, false)))
    && (forall p | p in m.protocols :: m.protocols[p] == ProtocolsOf(reports, p))
  }

  lemma NormalIs(link: Link)
    ensures PairOf(Normal(link)) ==
            if AtMost(link.source, link.target) then (link.source, link.target) else (link.target, link.source)
    ensures Normal(link).aPort == if AtMost(link.source, link.target) then link.localPort else link.remotePort
    ensures Normal(link).bPort == if AtMost(link.source, link.target) then link.remotePort else link.localPort
    ensures Normal(link).protocol == link.protocol
  {
  }

  lemma AgainReported(reports: seq<Report>, m: Merge, r: Report)
    requires Merges(reports, m) && PairOf(r) in m.ports
    ensures var p := PairOf(r);
            var ports := (Either(m.ports[p].0, r.aPort), Either(m.ports[p].1, r.bPort));
            var protocols := m.protocols[p] + {r.protocol};
            Merges(reports + [r], Merge(m.order, m.ports[p := ports], m.protocols[p := protocols]))
  {
    hide Pairs, PortOf, ProtocolsOf, Either;
    OneMoreReport(reports, r);
  }

  lemma FirstReported(reports: seq<Report>, m: Merge, r: Report)
    requires Merges(reports, m) && PairOf(r) !in m.ports
    ensures var p := PairOf(r);
            var ports, protocols := m.ports[p := (r.aPort, r.bPort)], m.protocols[p := {} + {r.protocol}];
            Merges(reports + [r], Merge(m.order + [p], ports, protocols))
  {
    hide Pairs, PortOf, ProtocolsOf, Either;
    OneMoreReport(reports, r);
  }

  /** One link of the loop. */
  method Add(m: Merge, link: Link, ghost reports: seq<Report>) returns (m': Merge)
    requires Merges(reports, m)
    ensures Merges(reports + [Normal(link)], m')
  {
    hide Either, Normal, PairOf, AtMost;
    assert m.protocols.Keys == m.ports.Keys;
    NormalIs(link);
    var forwards := AtMost(link.source, link.target);
    var p := if forwards then (link.source, link.target) else (link.target, link.source);
    var local := if forwards then link.localPort else link.remotePort;
    var remote := if forwards then link.remotePort else link.localPort;
    var known := if p in m.protocols then m.protocols[p] else {};
    if p in m.ports {
      var ports := (Either(m.ports[p].0, local), Either(m.ports[p].1, remote));
      m' := Merge(m.order, m.ports[p := ports], m.protocols[p := known + {link.protocol}]);
      AgainReported(reports, m, Normal(link));
    } else {
      m' := Merge(m.order + [p], m.ports[p := (local, remote)], m.protocols[p := known + {link.protocol}]);
      FirstReported(reports, m, Normal(link));
    }
  }

  /** `_dedupe_edges`: the loop over the links, then the protocols. */
  method DedupeEdges(links: seq<Link>) returns (edges: seq<Edge>)
    ensures edges == Edges(Normals(links))
  {
    hide Normal, PairOf, Ends, ProtocolsOf;
    var m := Merge([], map[], map[]);
    ghost var reports := Normals(links);
    for i := 0 to |links|
      invariant Merges(reports[..i], m)
    {
      assert reports[..i + 1] == reports[..i] + [Normal(links[i])];
      m := Add(m, links[i], reports[..i]);
    }
    assert reports[..|links|] == reports;
    edges := seq(|m.order|, i requires 0 <= i < |m.order| && m.order[i] in m.ports && m.order[i] in m.protocols =>
      Edge(m.order[i].0, m.order[i].1, m.ports[m.order[i]].0, m.ports[m.order[i]].1,
           if Lldp in m.protocols[m.order[i]] then None else Some(Cdp)));
  }

  lemma OneMoreReport(reports: seq<Report>, r: Report)
    ensures Pairs(reports + [r]) == Pairs(reports) + if PairOf(r) in Pairs(reports) then [] else [PairOf(r)]
    ensures forall p, atA :: PortOf(reports + [r], p, atA) ==
                             (var port := if atA then r.aPort else r.bPort;
                              if PairOf(r) != p then PortOf(reports, p, atA)
                              else if p in Pairs(reports) then Either(PortOf(reports, p, atA), port) else port)
    ensures forall p :: ProtocolsOf(reports + [r], p)
                        == ProtocolsOf(reports, p) + if PairOf(r) == p then {r.protocol} else {}
    ensures PairOf(r) !in Pairs(reports) ==> ProtocolsOf(reports, PairOf(r)) == {}
  {
    assert (reports + [r])[..|reports|] == reports;
  }

  lemma {:induction false} PortNamedIffReported(reports: seq<Report>, p: Pair, atA: bool)
    ensures Named(PortOf(reports, p, atA)) <==>
              exists r | r in reports && PairOf(r) == p :: Named(if atA then r.aPort else r.bPort)
    ensures Named(PortOf(reports, p, atA)) ==>
              exists r | r in reports && PairOf(r) == p :: PortOf(reports, p, atA) == if atA then r.aPort else r.bPort
  {
    if reports != [] {
      var front, last := reports[..|reports| - 1], reports[|reports| - 1];
      PortNamedIffReported(front, p, atA);
      assert reports == front + [last];
      assert last in reports && forall r | r in front :: r in reports;
    }
  }

  predicate Joins(l: Link, x: Cid, y: Cid) {
    Ends(l) == {x, y}
  }

  /** The port a link names at one of its ends. */
  function PortAt(l: Link, x: Cid): Option<string> {
    if l.source == x then l.localPort else l.remotePort
  }

  lemma JoinsIsPair(l: Link, p: Pair)
    requires l.source != l.target && AtMost(p.0, p.1) && p.0 != p.1
    ensures Joins(l, p.0, p.1) <==> PairOf(Normal(l)) == p
    ensures Joins(l, p.0, p.1) ==> Normal(l).aPort == PortAt(l, p.0) && Normal(l).bPort == PortAt(l, p.1)
  {
    Trichotomy(l.source, l.target);
    Trichotomy(p.0, p.1);
  }

  lemma PairsAreOrdered(links: seq<Link>, p: Pair)
    requires p in Pairs(Normals(links)) && forall l | l in links :: l.source != l.target
    ensures AtMost(p.0, p.1) && p.0 != p.1
  {
    var r :| r in Normals(links) && PairOf(r) == p;
    var i :| 0 <= i < |links| && Normals(links)[i] == r;
    assert links[i] in links;
    Trichotomy(links[i].source, links[i].target);
  }

  /** The links between a pair's two ends. */
  ghost predicate Between(links: seq<Link>, l: Link, p: Pair) {
    l in links && Joins(l, p.0, p.1)
  }

  lemma ReportIsALink(links: seq<Link>, p: Pair, r: Report) returns (l: Link)
    requires forall l | l in links :: l.source != l.target
    requires r in Normals(links) && PairOf(r) == p
    ensures Between(links, l, p) && r == Normal(l) && r.aPort == PortAt(l, p.0) && r.bPort == PortAt(l, p.1)
  {
    assert p in Pairs(Normals(links));
    PairsAreOrdered(links, p);
    var i :| 0 <= i < |links| && Normals(links)[i] == r;
    l := links[i];
    assert l in links;
    JoinsIsPair(l, p);
  }

  lemma LinkIsAReport(links: seq<Link>, p: Pair, l: Link)
    requires forall l | l in links :: l.source != l.target
    requires p in Pairs(Normals(links)) && Between(links, l, p)
    ensures var r := Normal(l);
            r in Normals(links) && PairOf(r) == p && r.aPort == PortAt(l, p.0) && r.bPort == PortAt(l, p.1)
  {
    PairsAreOrdered(links, p);
    var i :| 0 <= i < |links| && links[i] == l;
    assert Normals(links)[i] == Normal(l);
    JoinsIsPair(l, p);
  }

  /** The edges are the pairs linked, each once. */
  lemma OneEdgePerCable(links: seq<Link>)
    requires forall l | l in links :: l.source != l.target
    ensures var pairs, edges := Pairs(Normals(links)), Edges(Normals(links));
            && |edges| == |pairs| && NoRepeats(pairs)
            && (forall i | 0 <= i < |edges| :: (edges[i].a, edges[i].b) == pairs[i])
            && (forall p | p in pairs :: p.0 != p.1 && (p.1, p.0) !in pairs && exists l :: Between(links, l, p))
            && (forall l | l in links :: exists p | p in pairs :: Between(links, l, p))
  {
    var pairs := Pairs(Normals(links));
    forall p | p in pairs ensures p.0 != p.1 && (p.1, p.0) !in pairs && exists l :: Between(links, l, p) {
      PairsAreOrdered(links, p);
      if (p.1, p.0) in pairs {
        PairsAreOrdered(links, (p.1, p.0));
        Trichotomy(p.0, p.1);
      }
      var r :| r in Normals(links) && PairOf(r) == p;
      var l := ReportIsALink(links, p, r);
    }
    forall l | l in links ensures exists p | p in pairs :: Between(links, l, p) {
      var i :| 0 <= i < |links| && links[i] == l;
      assert Normals(links)[i] == Normal(l);
      var p := PairOf(Normal(l));
      assert p in pairs && Between(links, l, p);
    }
  }

  lemma PortSaysWhatWasReported(links: seq<Link>, p: Pair, atA: bool)
    requires p in Pairs(Normals(links)) && forall l | l in links :: l.source != l.target
    ensures var port, x := PortOf(Normals(links), p, atA), if atA then p.0 else p.1;
            && (Named(port) <==> exists l :: Between(links, l, p) && Named(PortAt(l, x)))
            && (Named(port) ==> exists l :: Between(links, l, p) && port == PortAt(l, x))
  {
    hide PortOf, Normals, Pairs, Between, Normal, Joins, PortAt;
    var reports := Normals(links);
    var port, x := PortOf(reports, p, atA), if atA then p.0 else p.1;
    PortNamedIffReported(reports, p, atA);
    if Named(port) {
      var r :| r in reports && PairOf(r) == p && port == if atA then r.aPort else r.bPort;
      var l := ReportIsALink(links, p, r);
      assert Between(links, l, p) && port == PortAt(l, x);
    }
    if l :| Between(links, l, p) && Named(PortAt(l, x)) {
      LinkIsAReport(links, p, l);
    }
  }

  lemma ProtocolSaysWhatWasReported(links: seq<Link>, p: Pair)
    requires p in Pairs(Normals(links)) && forall l | l in links :: l.source != l.target
    ensures Lldp in ProtocolsOf(Normals(links), p) <==> exists l :: Between(links, l, p) && l.protocol == Lldp
  {
    if Lldp in ProtocolsOf(Normals(links), p) {
      var r :| r in Normals(links) && PairOf(r) == p && r.protocol == Lldp;
      var l := ReportIsALink(links, p, r);
    }
    if l :| Between(links, l, p) && l.protocol == Lldp {
      LinkIsAReport(links, p, l);
    }
  }

  /** Each end's port is named exactly when some report of the pair named it, by a
      name some report gave, and the edge is marked "cdp" exactly when no LLDP table
      reported the pair. */
  lemma EdgeSaysWhatWasReported(links: seq<Link>, p: Pair)
    requires p in Pairs(Normals(links)) && forall l | l in links :: l.source != l.target
    ensures var e := EdgeOf(Normals(links), p);
            && (e.aPort in {None, Some("")} <==>
                  forall l | Between(links, l, p) :: PortAt(l, p.0) in {None, Some("")})
            && (e.bPort in {None, Some("")} <==>
                  forall l | Between(links, l, p) :: PortAt(l, p.1) in {None, Some("")})
            && (e.aPort !in {None, Some("")} ==> exists l :: Between(links, l, p) && e.aPort == PortAt(l, p.0))
            && (e.bPort !in {None, Some("")} ==> exists l :: Between(links, l, p) && e.bPort == PortAt(l, p.1))
            && (e.protocol == Some(Cdp) <==> forall l | Between(links, l, p) :: l.protocol == Cdp)
  {
    hide PortOf, Normals, Pairs, Between, PortAt, Named, ProtocolsOf;
    PortSaysWhatWasReported(links, p, true);
    PortSaysWhatWasReported(links, p, false);
    ProtocolSaysWhatWasReported(links, p);
    forall port: Option<string> ensures Named(port) <==> port !in {None, Some("")} {
      NamedIs(port);
    }
  }

  lemma NamedIs(port: Option<string>)
    ensures Named(port) <==> port !in {None, Some("")}
  {
  }

  function Reversed(l: Link): Link {
    Link(l.target, l.source, l.remotePort, l.localPort, l.protocol)
  }

  /** Turning any report round, with its ports, changes nothing in the document. */
  lemma ReversingAReportChangesNothing(links: seq<Link>, i: nat)
    requires i < |links| && links[i].source != links[i].target
    ensures Edges(Normals(links[i := Reversed(links[i])])) == Edges(Normals(links))
  {
    Trichotomy(links[i].source, links[i].target);
    assert Normals(links[i := Reversed(links[i])]) == Normals(links);
  }
}
