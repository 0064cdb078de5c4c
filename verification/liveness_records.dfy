/** One node's liveness record, and what a pass's evidence does to it, phase by
    phase. Times are instants on one clock. */
module LivenessRecords {
  import opened Wrappers

  type Time = int

  datatype State = Unknown | Active | Inactive
  datatype Method = Icmp | Snmp | Agent | Wifi | MacTable | PortLayer

  datatype PortId = WifiLink | Wired(name: string)
  datatype Link = Link(device: string, port: PortId)

  /** A down-link mark: where, the state before (none when there was none), and
      when it was first seen down (a mark written before `since` existed has none). */
  datatype Mark = Mark(link: Link, previous: Option<State>, since: Option<Time>)

  datatype Reason = SharedIp | InvalidIp | IcmpUnavailable | ProbeError
                  | AgentUnavailable | AgentNotListed | WifiUnavailable | MacTableUnavailable

  datatype Rec = Rec(state: State, checkedBy: Option<Method>, misses: nat, lastSeen: Option<Time>,
                     proven: set<Method>, mark: Option<Mark>, reason: Option<Reason>)

  /** A Manager API row: its status, whether it is agent 000, its last check-in. */
  datatype AgentStatus = Gone | ActiveAgent | OtherStatus
  datatype AgentRow = AgentRow(status: AgentStatus, isManager: bool, keepAlive: Option<Time>)

  /** How a pass checks a node. */
  datatype Plan = ByAgent | ByWifi | Probe(via: Method) | NotProbed(why: Option<Reason>)
  datatype ProbeAnswer = Replied | Silent | PingMissing | ProbeFailed
  datatype AgentAnswer = ManagerFailed | NotListed | Listed(row: AgentRow)
  datatype LinkRead = Up | Down | Unread
  datatype TableAnswer = NotAsked | TableFailed | Found(onPort: bool)

  /** Everything one pass learns about one node. `askTable` says the node may be
      looked up in its switch's forwarding table, as far as graph and devices go. */
  datatype View = View(now: Time, plan: Plan, answer: ProbeAnswer, agent: AgentAnswer,
                       here: Option<Link>, read: LinkRead, askTable: bool, table: TableAnswer)

  datatype Rules = Rules(threshold: nat, agentMaxAge: nat)

  /** A record during a pass, and whether the host itself has answered in it. */
  datatype Cell = Cell(rec: Rec, replied: bool)

  const FRESH := Rec(Unknown, None, 0, None, {}, None, None)
  const PROVEN_FROM_START := {Agent, MacTable}
  const FAST_METHODS := {Icmp, Snmp, Agent, Wifi}

  function Carry(prior: Option<Rec>): Rec {
    prior.GetOr(FRESH).(reason := None)
  }

  function Verdict(row: AgentRow, now: Time, maxAge: nat): (v: (bool, bool)) {
    match row.status
    case Gone => (false, true)
    case OtherStatus => (false, false)
    case ActiveAgent =>
      if row.isManager then (true, false)
      else (row.keepAlive.Some? && now - row.keepAlive.value <= maxAge, false)
  }

  function ApplyProbe(rec: Rec, via: Method, replied: bool, rules: Rules, now: Time, down: bool): Rec {
    var r := rec.(checkedBy := Some(via));
    if replied then r.(state := Active, misses := 0, lastSeen := Some(now), proven := r.proven + {via})
    else if down then r.(misses := r.misses + 1, state := Inactive)
    else if via in r.proven || via in PROVEN_FROM_START then
      r.(misses := r.misses + 1, state := if r.misses + 1 >= rules.threshold then Inactive else r.state)
    else r
  }

  /** `_settle`: a live reply drops a down-link mark; otherwise a mark explains the silence. */
  function Settle(c: Cell, via: Method, replied: bool, down: bool, live: bool, rules: Rules, now: Time): Cell {
    if replied && live then
      Cell(ApplyProbe(c.rec.(mark := None), via, true, rules, now, down), true)
    else if c.rec.mark.Some? then c
    else Cell(ApplyProbe(c.rec, via, replied, rules, now, down), c.replied)
  }

  /** `_plan` for a node that is not probed: its state is forgotten, unless it is marked. */
  function Planned(rec: Rec, plan: Plan): Rec {
    if !plan.NotProbed? then rec
    else
      var r := if rec.mark.Some? then rec else rec.(state := Unknown, checkedBy := None);
      if plan.why.Some? then r.(reason := plan.why) else r
  }

  function Probed(c: Cell, v: View, rules: Rules): Cell {
    if !v.plan.Probe? then c
    else match v.answer
      case PingMissing => c.(rec := c.rec.(checkedBy := Some(v.plan.via), reason := Some(IcmpUnavailable)))
      case ProbeFailed => c.(rec := c.rec.(checkedBy := Some(v.plan.via), reason := Some(ProbeError)))
      case Replied => Settle(c, v.plan.via, true, false, true, rules, v.now)
      case Silent => Settle(c, v.plan.via, false, false, true, rules, v.now)
  }

  /** Whether the record is marked at the link the node is on now. */
  predicate MarkedHere(rec: Rec, v: View) {
    rec.mark.Some? && v.here == Some(rec.mark.value.link)
  }

  /** Since when the node's link is down; None when it is not. */
  function DownSince(rec: Rec, v: View): Option<Time> {
    if v.here.None? then None
    else if v.read == Down || (v.read == Unread && MarkedHere(rec, v)) then
      if MarkedHere(rec, v) && rec.mark.value.since.Some? then rec.mark.value.since else Some(v.now)
    else None
  }

  /** A check-in that counts: fresh, and later than the link went down, if it is down. */
  predicate CountsAsReply(rec: Rec, v: View, rules: Rules) {
    && v.agent.Listed?
    && Verdict(v.agent.row, v.now, rules.agentMaxAge).0
    && var since := DownSince(rec, v);
       since.None? || (v.agent.row.keepAlive.Some? && v.agent.row.keepAlive.value > since.value)
  }

  function AgentChecked(c: Cell, v: View, rules: Rules): Cell {
    if !v.plan.ByAgent? then c
    else match v.agent
      case ManagerFailed => c.(rec := c.rec.(reason := Some(AgentUnavailable)))
      case NotListed => c.(rec := c.rec.(reason := Some(AgentNotListed)))
      case Listed(row) =>
        var (replied, down) := Verdict(row, v.now, rules.agentMaxAge);
        if replied && !CountsAsReply(c.rec, v, rules) then c
        else Settle(c, Agent, replied, down, true, rules, v.now)
  }

  function WifiChecked(c: Cell, v: View, rules: Rules): Cell {
    if v.here.None? || v.here.value.port != WifiLink then c
    else if v.read == Up then Settle(c, Wifi, true, false, true, rules, v.now)
    else if v.read == Unread && v.plan.ByWifi? then c.(rec := c.rec.(reason := Some(WifiUnavailable)))
    else c
  }

  /** Whether the forwarding table is asked about the node. */
  predicate TableDue(c: Cell, v: View) {
    v.askTable && !v.plan.ByAgent? && !c.replied && c.rec.mark.None? && c.rec.proven !! FAST_METHODS
  }

  function TableChecked(c: Cell, v: View, rules: Rules): Cell {
    if !TableDue(c, v) then c
    else match v.table
      case NotAsked => c
      case TableFailed => c.(rec := c.rec.(reason := Some(MacTableUnavailable)))
      case Found(onPort) => Settle(c, MacTable, onPort, false, false, rules, v.now)
  }

  function ProbedBy(v: View): Option<Method> {
    match v.plan
    case ByAgent => Some(Agent)
    case ByWifi => Some(Wifi)
    case Probe(via) => Some(via)
    case NotProbed(_) => None
  }

  /** Whether `_recover_links` lifts the mark: its port is up again, or the node is elsewhere. */
  predicate Lifted(rec: Rec, v: View) {
    rec.mark.Some? && (v.here != Some(rec.mark.value.link) || v.read == Up)
  }

  function Recovered(rec: Rec, v: View): Rec {
    if Lifted(rec, v) then
      rec.(mark := None, state := rec.mark.value.previous.GetOr(Unknown), misses := 0, checkedBy := ProbedBy(v))
    else rec
  }

  /** `_mark_links_down`; hadState says the node had a state before this pass. */
  function MarkedDown(c: Cell, v: View, hadState: bool): Rec {
    var r := c.rec;
    if v.here.None? || v.read != Down || c.replied then r
    else
      var m := if !MarkedHere(r, v)
               then Mark(v.here.value, if hadState || r.state != Unknown then Some(r.state) else None, Some(v.now))
               else if r.mark.value.since.None? then r.mark.value.(since := Some(v.now)) else r.mark.value;
      r.(mark := Some(m), state := Inactive,
         checkedBy := Some(if v.here.value.port == WifiLink then Wifi else PortLayer))
  }

  /** The record once all of a pass's evidence is in, before the link marks. */
  function Evidence(prior: Option<Rec>, v: View, rules: Rules): Cell {
    var c := Probed(Cell(Planned(Carry(prior), v.plan), false), v, rules);
    TableChecked(WifiChecked(AgentChecked(c, v, rules), v, rules), v, rules)
  }

  function Linked(c: Cell, prior: Option<Rec>, v: View): Rec {
    MarkedDown(c.(rec := Recovered(c.rec, v)), v, prior.Some?)
  }

  /** One whole pass over one node's record. */
  function Pass(prior: Option<Rec>, v: View, rules: Rules): Rec {
    Linked(Evidence(prior, v, rules), prior, v)
  }

  function Run(prior: Option<Rec>, views: seq<View>, rules: Rules): Option<Rec> {
    if views == [] then prior
    else Some(Pass(Run(prior, views[..|views| - 1], rules), views[|views| - 1], rules))
  }
}
