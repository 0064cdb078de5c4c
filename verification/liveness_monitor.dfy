/** The liveness monitor: a pass over a whole graph, phase after phase. What it does to
    each record is LivenessRecords.Pass. */
module LivenessMonitor {
  import opened Wrappers
  import opened LivenessRecords
  import opened LivenessProperties

  datatype Address = NoAddress | BadAddress | Ip(text: string)

  datatype Node = Node(isDevice: bool, pollable: bool, ip: Address, stale: bool, agentId: Option<string>,
                       mac: Option<string>, accessPoint: bool, vlan: Option<nat>)

  /** An endpoint-link edge: the host, the device, the port it is on (or Wi-Fi). */
  datatype EndpointLink = EndpointLink(source: string, target: string, wifi: bool, localPort: Option<string>)

  datatype Graph = Graph(nodes: map<string, Node>, links: seq<EndpointLink>)

  /** What the network would answer in one pass. */
  datatype Net = Net(hasSnmp: bool, hasAgents: bool,
                     probe: string -> ProbeAnswer,
                     agents: Option<map<string, AgentRow>>,
                     portUp: string -> Option<map<string, bool>>,
                     clients: string -> Option<set<string>>,
                     table: string -> Option<map<(Option<nat>, string), string>>)

  /** The first usable link of a node among the edges. */
  function FirstLink(links: seq<EndpointLink>, nid: string): Option<Link> {
    if links == [] then None
    else if links[0].source == nid && links[0].wifi then Some(Link(links[0].target, WifiLink))
    else if links[0].source == nid && links[0].localPort.Some? then
      Some(Link(links[0].target, Wired(links[0].localPort.value)))
    else FirstLink(links[1..], nid)
  }

  /** The inputs of one pass. */
  datatype Context = Context(graph: Graph, net: Net, now: Time) {

    function Here(nid: string): Option<Link> {
      FirstLink(graph.links, nid)
    }

    predicate SameIp(a: string, b: string) {
      && a in graph.nodes && b in graph.nodes
      && graph.nodes[a].ip.Ip? && graph.nodes[b].ip == graph.nodes[a].ip
    }

    /** Not probed by address: another node has it too, and this one is stale or
        two of them are live. */
    predicate Shared(nid: string) {
      && (exists m | m in graph.nodes :: m != nid && SameIp(nid, m))
      && (|| graph.nodes[nid].stale
          || exists a, b | a in graph.nodes && b in graph.nodes ::
               a != b && SameIp(nid, a) && SameIp(nid, b) && !graph.nodes[a].stale && !graph.nodes[b].stale)
    }

    predicate ReadableAccessPoint(nid: string) {
      && nid in graph.nodes && graph.nodes[nid].accessPoint && graph.nodes[nid].pollable
      && graph.nodes[nid].ip.Ip? && net.hasSnmp
    }

    function PlanOf(nid: string): Plan
      requires nid in graph.nodes
    {
      var n, here := graph.nodes[nid], Here(nid);
      if net.hasAgents && !n.isDevice && n.agentId.Some? then ByAgent
      else if here.Some? && here.value.port == WifiLink && ReadableAccessPoint(here.value.device) && n.mac.Some?
      then ByWifi
      else if Shared(nid) then NotProbed(Some(SharedIp))
      else match n.ip
        case NoAddress => NotProbed(None)
        case BadAddress => NotProbed(Some(InvalidIp))
        case Ip(_) => Probe(if n.isDevice && n.pollable && net.hasSnmp then Snmp else Icmp)
    }

    /** The devices that answer SNMP in this pass. */
    predicate SnmpUp(nid: string) {
      nid in graph.nodes && PlanOf(nid) == Probe(Snmp) && net.probe(nid) == Replied
    }

    function ReadOf(nid: string): LinkRead
      requires nid in graph.nodes
    {
      var here := Here(nid);
      if here.None? || !SnmpUp(here.value.device) then Unread
      else match here.value.port
        case WifiLink =>
          var macs := net.clients(here.value.device);
          if !ReadableAccessPoint(here.value.device) || macs.None? then Unread
          else if graph.nodes[nid].mac.Some? && graph.nodes[nid].mac.value in macs.value then Up else Down
        case Wired(p) =>
          var ports := net.portUp(here.value.device);
          if ports.None? || p !in ports.value then Unread
          else if ports.value[p] then Up else Down
    }

    function AgentOf(nid: string): AgentAnswer
      requires nid in graph.nodes
    {
      if net.agents.None? then ManagerFailed
      else if graph.nodes[nid].agentId.None? || graph.nodes[nid].agentId.value !in net.agents.value then NotListed
      else Listed(net.agents.value[graph.nodes[nid].agentId.value])
    }

    predicate AskTable(nid: string)
      requires nid in graph.nodes
    {
      var here := Here(nid);
      && !graph.nodes[nid].isDevice && graph.nodes[nid].mac.Some?
      && here.Some? && here.value.port.Wired? && SnmpUp(here.value.device)
    }

    function TableOf(nid: string): TableAnswer
      requires nid in graph.nodes
    {
      if !AskTable(nid) then NotAsked
      else
        var here, n := Here(nid).value, graph.nodes[nid];
        var found, entry := net.table(here.device), (n.vlan, n.mac.value);
        if found.None? then TableFailed
        else Found(entry in found.value && found.value[entry] == here.port.name)
    }

    /** What is known before the links are read. */
    function EarlyView(nid: string): View
      requires nid in graph.nodes
    {
      View(now, PlanOf(nid), net.probe(nid), AgentOf(nid), Here(nid), Unread, false, NotAsked)
    }

    function ViewOf(nid: string): (v: View)
      requires nid in graph.nodes
      ensures Plausible(v)
    {
      View(now, PlanOf(nid), net.probe(nid), AgentOf(nid), Here(nid), ReadOf(nid), AskTable(nid), TableOf(nid))
    }
  }

  /** A pass's phases over the records, in order. */
  datatype Phase = ProbeNodes | ApplyAgents | ApplyWifi | ConfirmByMacTable | RecoverLinks

  function After(phase: Phase, c: Cell, v: View, rules: Rules): Cell {
    match phase
    case ProbeNodes => Probed(c, v, rules)
    case ApplyAgents => AgentChecked(c, v, rules)
    case ApplyWifi => WifiChecked(c, v, rules)
    case ConfirmByMacTable => TableChecked(c, v, rules)
    case RecoverLinks => c.(rec := Recovered(c.rec, v))
  }

  type Cells = map<string, Cell>

  type Views = map<string, View>

  /** Every record after one phase. */
  function AfterAll(phase: Phase, cells: Cells, views: Views, rules: Rules): (after: Cells)
    requires cells.Keys <= views.Keys
    ensures after.Keys == cells.Keys
  {
    map nid | nid in cells :: After(phase, cells[nid], views[nid], rules)
  }

  function PriorOf(nodes: map<string, Rec>, nid: string): Option<Rec> {
    if nid in nodes then Some(nodes[nid]) else None
  }

  function PlannedAll(nodes: map<string, Rec>, views: Views): (cells: Cells)
    ensures cells.Keys == views.Keys
  {
    map nid | nid in views :: Cell(Planned(Carry(PriorOf(nodes, nid)), views[nid].plan), false)
  }

  function MarkedAll(cells: Cells, nodes: map<string, Rec>, views: Views): (after: Cells)
    requires cells.Keys <= views.Keys
    ensures after.Keys == cells.Keys
  {
    map nid | nid in cells :: cells[nid].(rec := MarkedDown(cells[nid], views[nid], PriorOf(nodes, nid).Some?))
  }

  /** Before the links are read only the plan and the probe's answer are known. */
  ghost predicate SameProbe(early: Views, views: Views) {
    && early.Keys == views.Keys
    && forall nid | nid in views ::
         early[nid].plan == views[nid].plan && early[nid].answer == views[nid].answer
         && early[nid].now == views[nid].now
  }

  lemma SameProbeBeforeLinks(context: Context, early: Views, views: Views)
    requires early.Keys == views.Keys == context.graph.nodes.Keys
    requires forall nid | nid in views :: early[nid] == context.EarlyView(nid) && views[nid] == context.ViewOf(nid)
    ensures SameProbe(early, views)
  {
  }

  function BeforeLinks(nodes: map<string, Rec>, early: Views, rules: Rules): (cells: Cells)
    ensures cells.Keys == early.Keys
  {
    AfterAll(ProbeNodes, PlannedAll(nodes, early), early, rules)
  }

  function AfterLinks(cells: Cells, nodes: map<string, Rec>, views: Views, rules: Rules): (after: Cells)
    requires cells.Keys <= views.Keys
    ensures after.Keys == cells.Keys
  {
    var c1 := AfterAll(ApplyAgents, cells, views, rules);
    var c2 := AfterAll(ApplyWifi, c1, views, rules);
    var c3 := AfterAll(ConfirmByMacTable, c2, views, rules);
    MarkedAll(AfterAll(RecoverLinks, c3, views, rules), nodes, views)
  }

  lemma BeforeLinksOfOne(nodes: map<string, Rec>, early: Views, rules: Rules, nid: string)
    requires nid in early
    ensures BeforeLinks(nodes, early, rules)[nid] ==
            Probed(Cell(Planned(Carry(PriorOf(nodes, nid)), early[nid].plan), false), early[nid], rules)
  {
  }

  lemma AfterLinksOfOne(cells: Cells, nodes: map<string, Rec>, views: Views, rules: Rules, nid: string)
    requires nid in cells && cells.Keys <= views.Keys
    ensures AfterLinks(cells, nodes, views, rules)[nid].rec ==
            Linked(TableChecked(WifiChecked(AgentChecked(cells[nid], views[nid], rules), views[nid], rules),
                                views[nid], rules),
                   PriorOf(nodes, nid), views[nid])
  {
  }

  lemma ProbeNeedsNoLinks(c: Cell, early: View, v: View, rules: Rules)
    requires early.plan == v.plan && early.answer == v.answer && early.now == v.now
    ensures Probed(c, early, rules) == Probed(c, v, rules)
  {
  }

  /** The phases over the whole graph are LivenessRecords.Pass over each node. */
  lemma PhasesArePasses(nodes: map<string, Rec>, early: Views, views: Views, rules: Rules)
    requires SameProbe(early, views)
    ensures var cells := AfterLinks(BeforeLinks(nodes, early, rules), nodes, views, rules);
            && cells.Keys == views.Keys
            && forall nid | nid in cells :: cells[nid].rec == Pass(PriorOf(nodes, nid), views[nid], rules)
  {
    hide Pass, AfterLinks, BeforeLinks;
    var before := BeforeLinks(nodes, early, rules);
    forall nid | nid in views
      ensures AfterLinks(before, nodes, views, rules)[nid].rec == Pass(PriorOf(nodes, nid), views[nid], rules)
    {
      PassOfOne(nodes, early, views, rules, nid);
    }
  }

  lemma PassOfOne(nodes: map<string, Rec>, early: Views, views: Views, rules: Rules, nid: string)
    requires SameProbe(early, views) && nid in views
    ensures var before := BeforeLinks(nodes, early, rules);
            AfterLinks(before, nodes, views, rules)[nid].rec == Pass(PriorOf(nodes, nid), views[nid], rules)
  {
    var before := BeforeLinks(nodes, early, rules);
    BeforeLinksOfOne(nodes, early, rules, nid);
    ProbeNeedsNoLinks(Cell(Planned(Carry(PriorOf(nodes, nid)), views[nid].plan), false), early[nid], views[nid], rules);
    AfterLinksOfOne(before, nodes, views, rules, nid);
    assert before[nid] == Probed(Cell(Planned(Carry(PriorOf(nodes, nid)), views[nid].plan), false), views[nid], rules);
  }

  /** Every record is what a pass may leave behind. */
  ghost predicate AllSound(nodes: map<string, Rec>, rules: Rules) {
    forall nid | nid in nodes :: Sound(nodes[nid], rules)
  }

  /** What a pass does for each node whatever the network answered: no more than one miss,
      and one that answered is active and unmarked. */
  ghost predicate TreatsFairly(nodes: map<string, Rec>, nodes': map<string, Rec>, context: Context, rules: Rules)
    requires nodes'.Keys <= context.graph.nodes.Keys
  {
    forall nid | nid in nodes' ::
      var before := Carry(PriorOf(nodes, nid));
      && nodes'[nid].misses <= before.misses + 1
      && (LiveReply(before, context.ViewOf(nid), rules) ==>
            nodes'[nid].state == Active && nodes'[nid].mark.None? && nodes'[nid].lastSeen == Some(context.now))
  }

  /** A pass over any graph and answers keeps every record sound, and treats every node
      fairly. */
  lemma WholePassIsSound(nodes: map<string, Rec>, nodes': map<string, Rec>, context: Context, rules: Rules)
    requires nodes'.Keys == context.graph.nodes.Keys
    requires forall nid | nid in nodes' ::
               nodes'[nid] == Pass(PriorOf(nodes, nid), context.ViewOf(nid), rules)
    ensures rules.threshold >= 1 && AllSound(nodes, rules) ==> AllSound(nodes', rules)
    ensures TreatsFairly(nodes, nodes', context, rules)
  {
    hide Pass, Context.ViewOf, Sound, LiveReply;
    forall nid | nid in nodes'
      ensures rules.threshold >= 1 && AllSound(nodes, rules) ==> Sound(nodes'[nid], rules)
      ensures var before := Carry(PriorOf(nodes, nid));
              && nodes'[nid].misses <= before.misses + 1
              && (LiveReply(before, context.ViewOf(nid), rules) ==>
                    nodes'[nid].state == Active && nodes'[nid].mark.None? && nodes'[nid].lastSeen == Some(context.now))
    {
      var prior := PriorOf(nodes, nid);
      if rules.threshold >= 1 && AllSound(nodes, rules) {
        PassKeepsSound(prior, context.ViewOf(nid), rules);
      }
      AtMostOneMiss(prior, context.ViewOf(nid), rules);
      ViewsAreNow(context, nid);
      if LiveReply(Carry(prior), context.ViewOf(nid), rules) {
        LiveReplyWins(prior, context.ViewOf(nid), rules);
      }
    }
  }

  lemma ViewsAreNow(context: Context, nid: string)
    requires nid in context.graph.nodes
    ensures context.ViewOf(nid).now == context.now
  {
  }

  // ---- what the network says ----------------------------------------------------------------

  /** The node has a valid address; every other one that has it is stale, and this one is not. */
  ghost predicate KeepsItsAddress(context: Context, nid: string)
    requires nid in context.graph.nodes
  {
    var n := context.graph.nodes[nid];
    && n.ip.Ip?
    && forall m | m in context.graph.nodes && m != nid && context.graph.nodes[m].ip == n.ip ::
         !n.stale && context.graph.nodes[m].stale
  }

  /** An access point of the graph whose client list can be asked for. */
  ghost predicate CanListClients(context: Context, d: string) {
    d in context.graph.nodes && context.net.hasSnmp
    && var n := context.graph.nodes[d]; n.accessPoint && n.pollable && n.ip.Ip?
  }

  /** The node is a client of such an access point, which can be asked for its MAC. */
  ghost predicate IsOnAccessPoint(context: Context, nid: string)
    requires nid in context.graph.nodes
  {
    && context.Here(nid).Some? && context.Here(nid).value.port == WifiLink && context.graph.nodes[nid].mac.Some?
    && CanListClients(context, context.Here(nid).value.device)
  }

  /** A device that can be polled, at an address of its own, has answered SNMP in this pass. */
  ghost predicate AnswersSnmp(context: Context, d: string) {
    && d in context.graph.nodes && context.net.hasSnmp && context.net.probe(d) == Replied
    && context.graph.nodes[d].isDevice && context.graph.nodes[d].pollable
    && KeepsItsAddress(context, d) && !IsOnAccessPoint(context, d)
  }

  lemma SnmpUpExactlyWhen(context: Context, d: string)
    ensures context.SnmpUp(d) <==> AnswersSnmp(context, d)
  {
    hide FirstLink, KeepsItsAddress, IsOnAccessPoint;
    if d in context.graph.nodes {
      ProbedExactlyWhen(context, d);
    }
  }

  lemma ListsClientsExactlyWhen(context: Context, d: string)
    ensures context.ReadableAccessPoint(d) <==> CanListClients(context, d)
  {
  }

  /** The device at the other end has answered SNMP in this pass and says that the node's
      link is up, or down: its port's state, or whether it lists the client's MAC. */
  ghost predicate SaysLink(context: Context, nid: string, up: bool)
    requires nid in context.graph.nodes
  {
    match context.Here(nid)
    case None => false
    case Some(Link(d, Wired(p))) =>
      AnswersSnmp(context, d) && context.net.portUp(d).Some? && (p, up) in context.net.portUp(d).value.Items
    case Some(Link(d, WifiLink)) =>
      && AnswersSnmp(context, d) && CanListClients(context, d) && context.net.clients(d).Some?
      && (up <==> context.graph.nodes[nid].mac.Some?
                  && context.graph.nodes[nid].mac.value in context.net.clients(d).value)
  }

  lemma ReadsAsSaid(context: Context, nid: string)
    requires nid in context.graph.nodes
    ensures context.ReadOf(nid) == Up <==> SaysLink(context, nid, true)
    ensures context.ReadOf(nid) == Down <==> SaysLink(context, nid, false)
    ensures context.Here(nid).None? ==> context.ReadOf(nid) == Unread
  {
    hide Context.SnmpUp, Context.ReadableAccessPoint, FirstLink, AnswersSnmp, CanListClients;
    if context.Here(nid).Some? {
      SnmpUpExactlyWhen(context, context.Here(nid).value.device);
      ListsClientsExactlyWhen(context, context.Here(nid).value.device);
    }
  }

  /** The forwarding table is asked about an endpoint with a MAC that is on a port of a device
      that answers SNMP; it has it there exactly when it pairs its VLAN and MAC with that port. */
  lemma TableReadsAsSaid(context: Context, nid: string)
    requires nid in context.graph.nodes
    ensures var n, here, answer := context.graph.nodes[nid], context.Here(nid), context.TableOf(nid);
            && (answer != NotAsked <==> && !n.isDevice && n.mac.Some? && here.Some? && here.value.port.Wired?
                                        && AnswersSnmp(context, here.value.device))
            && (answer != NotAsked ==>
                  var table := context.net.table(here.value.device);
                  if table.None? then answer == TableFailed
                  else answer == Found(((n.vlan, n.mac.value), here.value.port.name) in table.value.Items))
  {
    hide FirstLink, Context.SnmpUp, AnswersSnmp;
    if context.Here(nid).Some? {
      SnmpUpExactlyWhen(context, context.Here(nid).value.device);
    }
  }

  /** A node's row in the Manager's list is the one under its own agent id, if it has one; there
      is no answer at all exactly when the Manager gave none. */
  lemma AgentReadsAsSaid(context: Context, nid: string, row: AgentRow)
    requires nid in context.graph.nodes
    ensures context.AgentOf(nid) == ManagerFailed <==> context.net.agents == None
    ensures context.AgentOf(nid) == Listed(row) <==>
            exists id, rows :: && context.graph.nodes[nid].agentId == Some(id) && context.net.agents == Some(rows)
                               && (id, row) in rows.Items
  {
    var id, rows := context.graph.nodes[nid].agentId, context.net.agents;
    if id.Some? && rows.Some? && id.value in rows.value {
      assert rows == Some(rows.value) && id == Some(id.value);
      assert (id.value, rows.value[id.value]) in rows.value.Items;
    }
  }

  /** A node is marked exactly when it gave no live reply and its link is said to be down, or
      is not said to be up and was marked already; the mark is at that link. */
  ghost predicate MarksRightly(nodes: map<string, Rec>, nodes': map<string, Rec>, context: Context, rules: Rules)
    requires nodes'.Keys <= context.graph.nodes.Keys
  {
    forall nid | nid in nodes' ::
      var before, here, mark := Carry(PriorOf(nodes, nid)), context.Here(nid), nodes'[nid].mark;
      && (mark.Some? <==>
            && !LiveReply(before, context.ViewOf(nid), rules)
            && (|| SaysLink(context, nid, false)
                || (!SaysLink(context, nid, true) && before.mark.Some? && here == Some(before.mark.value.link))))
      && (mark.Some? ==> Some(mark.value.link) == here)
      && (mark.Some? && SaysLink(context, nid, false) ==> nodes'[nid].state == Inactive)
  }

  lemma WholePassMarksRightly(nodes: map<string, Rec>, nodes': map<string, Rec>, context: Context, rules: Rules)
    requires nodes'.Keys == context.graph.nodes.Keys
    requires forall nid | nid in nodes' ::
               nodes'[nid] == Pass(PriorOf(nodes, nid), context.ViewOf(nid), rules)
    ensures MarksRightly(nodes, nodes', context, rules)
  {
    hide Pass, LiveReply, SaysLink, Context.ReadOf, Context.PlanOf, Context.AgentOf, Context.AskTable, Context.TableOf,
      FirstLink;
    forall nid | nid in nodes'
      ensures var before, here, mark := Carry(PriorOf(nodes, nid)), context.Here(nid), nodes'[nid].mark;
              && (mark.Some? <==>
                    && !LiveReply(before, context.ViewOf(nid), rules)
                    && (|| SaysLink(context, nid, false)
                        || (!SaysLink(context, nid, true) && before.mark.Some?
                            && here == Some(before.mark.value.link))))
              && (mark.Some? ==> Some(mark.value.link) == here)
              && (mark.Some? && SaysLink(context, nid, false) ==> nodes'[nid].state == Inactive)
    {
      ReadsAsSaid(context, nid);
      MarkedExactlyWhen(PriorOf(nodes, nid), context.ViewOf(nid), rules);
    }
  }

  // ---- who is probed ------------------------------------------------------------------------

  /** The node's first link is that of the first edge that has it as source and says where. */
  lemma {:induction false} FirstLinkIsFirst(links: seq<EndpointLink>, nid: string)
    ensures match FirstLink(links, nid)
            case None => forall l | l in links && l.source == nid :: !l.wifi && l.localPort.None?
            case Some(link) =>
              exists i :: && 0 <= i < |links| && links[i].source == nid && link.device == links[i].target
                          && (link.port == WifiLink <==> links[i].wifi)
                          && (link.port.Wired? ==> links[i].localPort == Some(link.port.name))
                          && forall j | 0 <= j < i && links[j].source == nid ::
                               !links[j].wifi && links[j].localPort.None?
  {
    if links != [] {
      FirstLinkIsFirst(links[1..], nid);
      assert links == [links[0]] + links[1..];
      if FirstLink(links, nid).Some? && FirstLink(links[1..], nid) == FirstLink(links, nid) {
        assert forall i | 0 < i < |links| :: links[i] == links[1..][i - 1];
      }
    }
  }

  /** A node is probed exactly when it has a valid address that is its own, and neither its
      agent nor its access point answers for it; by SNMP when it is a device that can be
      polled. One that is not checked at all has no address, no valid one, or a shared one. */
  lemma ProbedExactlyWhen(context: Context, nid: string)
    requires nid in context.graph.nodes
    ensures var n, plan := context.graph.nodes[nid], context.PlanOf(nid);
            && (plan.ByAgent? <==> context.net.hasAgents && !n.isDevice && n.agentId.Some?)
            && (plan.ByWifi? <==> !plan.ByAgent? && IsOnAccessPoint(context, nid))
            && (plan.Probe? <==> !plan.ByAgent? && !plan.ByWifi? && KeepsItsAddress(context, nid))
            && (plan.Probe? ==> plan.via == if n.isDevice && n.pollable && context.net.hasSnmp then Snmp else Icmp)
            && (plan.NotProbed? ==> plan.why == match n.ip
                                                case NoAddress => None
                                                case BadAddress => Some(InvalidIp)
                                                case Ip(_) => Some(SharedIp))
  {
    hide FirstLink, Context.ReadableAccessPoint, CanListClients, Context.Shared, KeepsItsAddress;
    if context.Here(nid).Some? {
      ListsClientsExactlyWhen(context, context.Here(nid).value.device);
    }
    SharedExactlyWhen(context, nid);
  }

  lemma SharedExactlyWhen(context: Context, nid: string)
    requires nid in context.graph.nodes
    ensures context.graph.nodes[nid].ip.Ip? ==> (context.Shared(nid) <==> !KeepsItsAddress(context, nid))
    ensures !context.graph.nodes[nid].ip.Ip? ==> !context.Shared(nid) && !KeepsItsAddress(context, nid)
  {
    if m :| m in context.graph.nodes && m != nid && context.SameIp(nid, m)
            && !(!context.graph.nodes[nid].stale && context.graph.nodes[m].stale) {
      if !context.graph.nodes[nid].stale {
        assert context.SameIp(nid, nid);
      }
    }
  }

  /** No address is probed for two nodes. */
  lemma NoAddressIsProbedTwice(context: Context, a: string, b: string)
    requires a in context.graph.nodes && b in context.graph.nodes && a != b
    requires context.graph.nodes[a].ip.Ip? && context.graph.nodes[b].ip == context.graph.nodes[a].ip
    ensures !context.PlanOf(a).Probe? || !context.PlanOf(b).Probe?
  {
    hide Context.Shared, Context.PlanOf, IsOnAccessPoint;
    ProbedExactlyWhen(context, a);
    ProbedExactlyWhen(context, b);
  }

  class Monitor {
    const rules: Rules
    // the records kept from the last pass
    var nodes: map<string, Rec>
    // the pass being made: its inputs, every node's record with whether the node
    // itself has replied, and what the devices that answered SNMP told
    var pass: Context
    var views: Views
    var cells: Cells
    var snmpUp: set<string>
    var statuses: map<string, map<string, bool>>
    var present: map<string, set<string>>

    constructor (rules: Rules, previous: map<string, Rec>, pass: Context)
      ensures this.rules == rules && nodes == previous
    {
      this.rules, nodes, this.pass := rules, previous, pass;
      views, cells, snmpUp, statuses, present := map[], map[], {}, map[], map[];
    }

    ghost predicate PortsRead()
      reads this`pass, this`snmpUp, this`statuses
    {
      && (forall d :: d in statuses <==> d in snmpUp && pass.net.portUp(d).Some?)
      && (forall d | d in statuses :: statuses[d] == pass.net.portUp(d).value)
    }

    ghost predicate ClientsRead()
      reads this`pass, this`snmpUp, this`present
    {
      && (forall d :: d in present <==> d in snmpUp && pass.ReadableAccessPoint(d) && pass.net.clients(d).Some?)
      && (forall d | d in present :: present[d] == pass.net.clients(d).value)
    }

    /** What `_read_links` left is what the network answered. */
    ghost predicate LinksRead()
      reads this`pass, this`snmpUp, this`statuses, this`present
    {
      (forall d :: d in snmpUp <==> pass.SnmpUp(d)) && PortsRead() && ClientsRead()
    }

    /** `_settle` on one record. */
    method Settle(c: Cell, via: Method, replied: bool, down: bool, live: bool, now: Time) returns (c': Cell)
      ensures c' == LivenessRecords.Settle(c, via, replied, down, live, rules, now)
    {
      var rec := c.rec;
      if replied && live {
        rec := rec.(mark := None);
      } else if rec.mark.Some? {
        return c;
      }
      c' := Cell(ApplyProbe(rec, via, replied, rules, now, down), c.replied || (replied && live));
    }

    /** How each node is to be checked. */
    method Look()
      modifies this`views
      ensures views == map nid | nid in pass.graph.nodes :: pass.EarlyView(nid)
    {
      views := map nid | nid in pass.graph.nodes :: pass.EarlyView(nid);
    }

    method Plan()
      modifies this`cells
      ensures cells == PlannedAll(nodes, views)
    {
      cells := map[];
      var left := views.Keys;
      while left != {}
        invariant left <= views.Keys && cells.Keys == views.Keys - left
        invariant forall nid | nid in cells :: cells[nid] == PlannedAll(nodes, views)[nid]
      {
        var nid :| nid in left;
        left := left - {nid};
        cells := cells[nid := Cell(Planned(Carry(PriorOf(nodes, nid)), views[nid].plan), false)];
      }
    }

    /** The port states of the devices that answered SNMP. */
    method ReadPorts()
      modifies this`statuses
      ensures PortsRead()
    {
      statuses := map[];
      var left := snmpUp;
      while left != {}
        invariant left <= snmpUp
        invariant forall d :: d in statuses <==> d in snmpUp && d !in left && pass.net.portUp(d).Some?
        invariant forall d | d in statuses :: statuses[d] == pass.net.portUp(d).value
      {
        var d :| d in left;
        left := left - {d};
        var ports := pass.net.portUp(d);
        if ports.Some? {
          statuses := statuses[d := ports.value];
        }
      }
    }

    /** The client lists of the access points among them. */
    method ReadClients()
      modifies this`present
      ensures ClientsRead()
    {
      present := map[];
      var left := snmpUp;
      while left != {}
        invariant left <= snmpUp
        invariant forall d :: d in present <==>
          d in snmpUp && d !in left && pass.ReadableAccessPoint(d) && pass.net.clients(d).Some?
        invariant forall d | d in present :: present[d] == pass.net.clients(d).value
      {
        var d :| d in left;
        left := left - {d};
        if pass.ReadableAccessPoint(d) {
          var macs := pass.net.clients(d);
          if macs.Some? {
            present := present[d := macs.value];
          }
        }
      }
    }

    /** `_link_state`: whether the node's link is up, from what was read. */
    method LinkState(nid: string) returns (read: LinkRead)
      requires nid in pass.graph.nodes && LinksRead()
      ensures read == pass.ReadOf(nid)
    {
      var here := pass.Here(nid);
      if here.None? {
        return Unread;
      }
      var device := here.value.device;
      if here.value.port == WifiLink {
        if device !in present {
          return Unread;
        }
        var mac := pass.graph.nodes[nid].mac;
        return if mac.Some? && mac.value in present[device] then Up else Down;
      }
      if device !in statuses || here.value.port.name !in statuses[device] {
        return Unread;
      }
      return if statuses[device][here.value.port.name] then Up else Down;
    }

    /** One step of `_probe`'s loop. */
    method ProbeStep(c: Cell, v: View) returns (c': Cell)
      ensures c' == Probed(c, v, rules)
    {
      if !v.plan.Probe? {
        return c;
      }
      match v.answer {
        case PingMissing => return c.(rec := c.rec.(checkedBy := Some(v.plan.via), reason := Some(IcmpUnavailable)));
        case ProbeFailed => return c.(rec := c.rec.(checkedBy := Some(v.plan.via), reason := Some(ProbeError)));
        case _ => c' := Settle(c, v.plan.via, v.answer == Replied, false, true, v.now);
      }
    }

    /** One step of `_apply_agents`' loop. */
    method AgentStep(c: Cell, v: View) returns (c': Cell)
      ensures c' == AgentChecked(c, v, rules)
    {
      if !v.plan.ByAgent? {
        return c;
      }
      if !v.agent.Listed? {
        return c.(rec := c.rec.(reason := Some(if v.agent.ManagerFailed? then AgentUnavailable else AgentNotListed)));
      }
      var row := v.agent.row;
      var (replied, down) := Verdict(row, v.now, rules.agentMaxAge);
      var since := if replied then DownSince(c.rec, v) else None;
      if since.Some? && (row.keepAlive.None? || row.keepAlive.value <= since.value) {
        return c;     // checked in before the link went down: the link decides
      }
      c' := Settle(c, Agent, replied, down, true, v.now);
    }

    /** One step of `_apply_wifi`'s loop. */
    method WifiStep(c: Cell, v: View) returns (c': Cell)
      ensures c' == WifiChecked(c, v, rules)
    {
      if v.here.None? || v.here.value.port != WifiLink {
        return c;
      }
      if v.read == Up {
        c' := Settle(c, Wifi, true, false, true, v.now);
      } else if v.read == Unread && v.plan.ByWifi? {
        c' := c.(rec := c.rec.(reason := Some(WifiUnavailable)));
      } else {
        c' := c;
      }
    }

    /** One step of `_confirm_by_mac_table`'s loops. */
    method TableStep(c: Cell, v: View) returns (c': Cell)
      ensures c' == TableChecked(c, v, rules)
    {
      if !v.askTable || v.plan.ByAgent? || c.replied || c.rec.mark.Some? || !(c.rec.proven !! FAST_METHODS) {
        return c;
      }
      match v.table {
        case NotAsked => c' := c;
        case TableFailed => c' := c.(rec := c.rec.(reason := Some(MacTableUnavailable)));
        case Found(onPort) => c' := Settle(c, MacTable, onPort, false, false, v.now);
      }
    }

    /** One step of `_recover_links`' loop. */
    method RecoverStep(c: Cell, v: View) returns (c': Cell)
      ensures c' == c.(rec := Recovered(c.rec, v))
    {
      var mark := c.rec.mark;
      if mark.None? {
        return c;
      }
      if v.here != Some(mark.value.link) || v.read == Up {
        return c.(rec := c.rec.(mark := None, state := mark.value.previous.GetOr(Unknown), misses := 0,
                                checkedBy := ProbedBy(v)));
      }
      c' := c;
    }

    /** One step of `_mark_links_down`'s loop. */
    method MarkStep(c: Cell, v: View, hadState: bool) returns (c': Cell)
      ensures c' == c.(rec := MarkedDown(c, v, hadState))
    {
      if v.here.None? || v.read != Down || c.replied {
        return c;
      }
      var mark := c.rec.mark;
      if mark.None? || mark.value.link != v.here.value {
        var known := hadState || c.rec.state != Unknown;
        mark := Some(Mark(v.here.value, if known then Some(c.rec.state) else None, Some(v.now)));
      } else if mark.value.since.None? {
        mark := Some(mark.value.(since := Some(v.now)));
      }
      c' := c.(rec := c.rec.(mark := mark, state := Inactive,
                             checkedBy := Some(if v.here.value.port == WifiLink then Wifi else PortLayer)));
    }

    /** What the devices told about each node's link. */
    method LookAtLinks()
      requires LinksRead()
      modifies this`views
      ensures views.Keys == pass.graph.nodes.Keys
      ensures forall nid | nid in views :: views[nid] == pass.ViewOf(nid)
    {
      views := map[];
      var left := pass.graph.nodes.Keys;
      while left != {}
        invariant left <= pass.graph.nodes.Keys && views.Keys == pass.graph.nodes.Keys - left
        invariant forall nid | nid in views :: views[nid] == pass.ViewOf(nid)
      {
        var nid :| nid in left;
        left := left - {nid};
        var read := LinkState(nid);
        views := views[nid := pass.EarlyView(nid).(read := read, askTable := pass.AskTable(nid),
                                                   table := pass.TableOf(nid))];
      }
    }

    /** One phase over every record: what is done to one does not depend on the others. */
    method Sweep(phase: Phase)
      requires cells.Keys == views.Keys
      modifies this`cells
      ensures cells == AfterAll(phase, old(cells), views, rules)
    {
      ghost var after := AfterAll(phase, cells, views, rules);
      var left := cells.Keys;
      while left != {}
        invariant left <= cells.Keys == old(cells.Keys)
        invariant forall nid | nid in cells :: cells[nid] == if nid in left then old(cells)[nid] else after[nid]
      {
        var nid :| nid in left;
        left := left - {nid};
        var c := Step(phase, cells[nid], views[nid]);
        cells := cells[nid := c];
      }
    }

    method Step(phase: Phase, c: Cell, v: View) returns (c': Cell)
      ensures c' == After(phase, c, v, rules)
    {
      match phase {
        case ProbeNodes => c' := ProbeStep(c, v);
        case ApplyAgents => c' := AgentStep(c, v);
        case ApplyWifi => c' := WifiStep(c, v);
        case ConfirmByMacTable => c' := TableStep(c, v);
        case RecoverLinks => c' := RecoverStep(c, v);
      }
    }

    method MarkLinksDown()
      requires cells.Keys == views.Keys
      modifies this`cells
      ensures cells == MarkedAll(old(cells), nodes, views)
    {
      ghost var after := MarkedAll(cells, nodes, views);
      var left := cells.Keys;
      while left != {}
        invariant left <= cells.Keys == old(cells.Keys)
        invariant forall nid | nid in cells :: cells[nid] == if nid in left then old(cells)[nid] else after[nid]
      {
        var nid :| nid in left;
        left := left - {nid};
        var c := MarkStep(cells[nid], views[nid], PriorOf(nodes, nid).Some?);
        cells := cells[nid := c];
      }
    }

    /** The devices whose SNMP probe was answered. */
    method NoteSnmpUp()
      modifies this`snmpUp
      ensures forall d :: d in snmpUp <==> pass.SnmpUp(d)
    {
      snmpUp := set d | d in pass.graph.nodes && pass.SnmpUp(d);
    }

    /** Up to reading the links: the plan and the probes. */
    method PlanAndProbe() returns (ghost early: Views)
      modifies this`views, this`cells, this`snmpUp, this`statuses, this`present
      ensures SameProbe(early, views) && cells == BeforeLinks(nodes, early, rules)
      ensures views.Keys == pass.graph.nodes.Keys
      ensures forall nid | nid in views :: views[nid] == pass.ViewOf(nid)
    {
      hide AfterAll, PlannedAll, SameProbe, PortsRead, ClientsRead, Context.ViewOf, Context.EarlyView, Context.SnmpUp;
      Look();
      early := views;
      Plan();
      Sweep(ProbeNodes);
      NoteSnmpUp();
      ReadPorts();
      ReadClients();
      LookAtLinks();
      SameProbeBeforeLinks(pass, early, views);
    }

    /** The evidence read from the links and agents, then the down-link marks. */
    method WeighLinks()
      requires cells.Keys == views.Keys
      modifies this`cells
      ensures cells == AfterLinks(old(cells), nodes, views, rules)
    {
      Sweep(ApplyAgents);
      Sweep(ApplyWifi);
      Sweep(ConfirmByMacTable);
      Sweep(RecoverLinks);
      MarkLinksDown();
    }

    /** One pass: every node of the graph gets what LivenessRecords.Pass says, from
        its own last record and what the network answers about it; so sound records
        stay sound, every node is treated fairly, and marked exactly when its link is said
        to be down. */
    method Check(context: Context)
      modifies this
      ensures pass == context && nodes.Keys == context.graph.nodes.Keys
      ensures forall nid | nid in nodes ::
                nodes[nid] == LivenessRecords.Pass(PriorOf(old(nodes), nid), context.ViewOf(nid), rules)
      ensures rules.threshold >= 1 && AllSound(old(nodes), rules) ==> AllSound(nodes, rules)
      ensures TreatsFairly(old(nodes), nodes, context, rules)
      ensures MarksRightly(old(nodes), nodes, context, rules)
    {
      hide LivenessRecords.Pass, AfterLinks, BeforeLinks, Context.ViewOf, AllSound, TreatsFairly, MarksRightly;
      pass := context;
      ghost var early := PlanAndProbe();
      WeighLinks();
      PhasesArePasses(nodes, early, views, rules);
      nodes := map nid | nid in cells :: cells[nid].rec;
      WholePassIsSound(old(nodes), nodes, context, rules);
      WholePassMarksRightly(old(nodes), nodes, context, rules);
    }
  }
}
