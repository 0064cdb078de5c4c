/** What holds of a node's record over any run of liveness passes. */
module LivenessProperties {
  import opened Wrappers
  import opened LivenessRecords

  /** What the monitor can hand a node: probes are pings or SNMP, and only an
      endpoint, which is never probed by SNMP, is looked up in a forwarding table. */
  ghost predicate Plausible(v: View) {
    && (v.plan.Probe? ==> v.plan.via in {Icmp, Snmp})
    && (v.askTable ==> v.here.Some? && v.here.value.port.Wired?)
  }

  /** The host itself answered: a probe, a check-in that counts, or its access
      point's client list. */
  predicate LiveReply(rec: Rec, v: View, rules: Rules) {
    || (v.plan.Probe? && v.answer == Replied)
    || (v.plan.ByAgent? && CountsAsReply(rec, v, rules))
    || (v.here.Some? && v.here.value.port == WifiLink && v.read == Up)
  }

  /** A node counts as having replied in a pass exactly on a live reply, and only
      that drops a mark before the link phases; evidence never invents one. */
  lemma RepliedIffLive(prior: Option<Rec>, v: View, rules: Rules)
    ensures var c, rec := Evidence(prior, v, rules), Carry(prior);
            && (c.replied <==> LiveReply(rec, v, rules))
            && c.rec.mark == (if c.replied then None else rec.mark)
  {
  }

  /** What every record satisfies at the end of a pass. */
  ghost predicate Sound(rec: Rec, rules: Rules) {
    && (rec.mark.Some? ==> rec.state == Inactive && rec.mark.value.since.Some?)
    && (rec.state == Active ==> rec.misses < rules.threshold)
    && (rec.state == Active || (rec.mark.Some? && rec.mark.value.previous == Some(Active)) ==>
          rec.lastSeen.Some? && rec.proven != {})
  }

  /** Sound, but for a mark's node being inactive: what holds between the phases. */
  ghost predicate HalfSound(rec: Rec, rules: Rules) {
    && (rec.state == Active ==> rec.misses < rules.threshold && rec.lastSeen.Some? && rec.proven != {})
    && (rec.mark.Some? && rec.mark.value.previous == Some(Active) ==> rec.lastSeen.Some? && rec.proven != {})
  }

  /** What holds between the evidence phases: no mark is set by them. */
  ghost predicate EvidenceSound(rec: Rec, rules: Rules) {
    HalfSound(rec, rules) && (rec.mark.Some? ==> rec.state == Inactive && rec.mark.value.since.Some?)
  }

  lemma PlanningKeepsSound(prior: Option<Rec>, plan: Plan, rules: Rules)
    requires rules.threshold >= 1 && (prior.Some? ==> Sound(prior.value, rules))
    ensures EvidenceSound(Planned(Carry(prior), plan), rules)
  {
  }

  lemma SettlingKeepsSound(c: Cell, via: Method, replied: bool, down: bool, live: bool, rules: Rules, now: Time)
    requires rules.threshold >= 1 && EvidenceSound(c.rec, rules)
    ensures EvidenceSound(Settle(c, via, replied, down, live, rules, now).rec, rules)
  {
  }

  lemma ProbingKeepsSound(c: Cell, v: View, rules: Rules)
    requires rules.threshold >= 1 && EvidenceSound(c.rec, rules)
    ensures EvidenceSound(Probed(c, v, rules).rec, rules)
  {
    hide Settle;
    if v.plan.Probe? {
      SettlingKeepsSound(c, v.plan.via, v.answer.Replied?, false, true, rules, v.now);
    }
  }

  lemma AgentKeepsSound(c: Cell, v: View, rules: Rules)
    requires rules.threshold >= 1 && EvidenceSound(c.rec, rules)
    ensures EvidenceSound(AgentChecked(c, v, rules).rec, rules)
  {
    hide Settle, CountsAsReply, Verdict;
    if v.agent.Listed? {
      var (replied, down) := Verdict(v.agent.row, v.now, rules.agentMaxAge);
      SettlingKeepsSound(c, Agent, replied, down, true, rules, v.now);
    }
  }

  lemma WifiKeepsSound(c: Cell, v: View, rules: Rules)
    requires rules.threshold >= 1 && EvidenceSound(c.rec, rules)
    ensures EvidenceSound(WifiChecked(c, v, rules).rec, rules)
  {
    hide Settle;
    SettlingKeepsSound(c, Wifi, true, false, true, rules, v.now);
  }

  lemma TableKeepsSound(c: Cell, v: View, rules: Rules)
    requires rules.threshold >= 1 && EvidenceSound(c.rec, rules)
    ensures EvidenceSound(TableChecked(c, v, rules).rec, rules)
  {
    hide Settle, TableDue;
    if v.table.Found? {
      SettlingKeepsSound(c, MacTable, v.table.onPort, false, false, rules, v.now);
    }
  }

  lemma EvidenceKeepsSound(prior: Option<Rec>, v: View, rules: Rules)
    requires rules.threshold >= 1
    requires prior.Some? ==> Sound(prior.value, rules)
    ensures EvidenceSound(Evidence(prior, v, rules).rec, rules)
  {
    hide Planned, Probed, AgentChecked, WifiChecked, TableChecked;
    var c0 := Cell(Planned(Carry(prior), v.plan), false);
    PlanningKeepsSound(prior, v.plan, rules);
    ProbingKeepsSound(c0, v, rules);
    var c1 := Probed(c0, v, rules);
    AgentKeepsSound(c1, v, rules);
    var c2 := AgentChecked(c1, v, rules);
    WifiKeepsSound(c2, v, rules);
    TableKeepsSound(WifiChecked(c2, v, rules), v, rules);
  }

  lemma PassKeepsSound(prior: Option<Rec>, v: View, rules: Rules)
    requires rules.threshold >= 1
    requires prior.Some? ==> Sound(prior.value, rules)
    ensures Sound(Pass(prior, v, rules), rules)
  {
    EvidenceKeepsSound(prior, v, rules);
    var c := Evidence(prior, v, rules);
    assert HalfSound(Recovered(c.rec, v), rules);
  }

  /** After any run of passes from nothing. */
  lemma {:induction false} EveryRunIsSound(views: seq<View>, rules: Rules)
    requires rules.threshold >= 1
    ensures var r := Run(None, views, rules); r.Some? ==> Sound(r.value, rules)
  {
    if views != [] {
      EveryRunIsSound(views[..|views| - 1], rules);
      PassKeepsSound(Run(None, views[..|views| - 1], rules), views[|views| - 1], rules);
    }
  }

  /** A live reply makes the node active, unmarked and seen now, whatever its link says. */
  lemma LiveReplyWins(prior: Option<Rec>, v: View, rules: Rules)
    requires LiveReply(Carry(prior), v, rules)
    ensures var r := Pass(prior, v, rules);
            r.state == Active && r.mark.None? && r.misses == 0 && r.lastSeen == Some(v.now)
    ensures var before, r := Carry(prior), Pass(prior, v, rules);
            before.proven <= r.proven && r.checkedBy.Some? && r.checkedBy.value in r.proven
  {
  }

  lemma AtMostOneMiss(prior: Option<Rec>, v: View, rules: Rules)
    requires Plausible(v)
    ensures Pass(prior, v, rules).misses <= Carry(prior).misses + 1
  {
  }

  // ---- silence -----------------------------------------------------------------

  /** No source says outright that the node is gone: not its agent, not its link. */
  predicate OnlySilence(v: View) {
    && !(v.agent.Listed? && v.agent.row.status == Gone)
    && (v.here.Some? ==> v.read != Down)
  }

  /** Short of `threshold` passes, silence alone makes nothing inactive. */
  lemma {:induction false} SilenceNeedsThresholdPasses(rec: Rec, views: seq<View>, rules: Rules)
    requires rec.misses == 0 && rec.mark.None? && rec.state != Inactive
    requires forall v | v in views :: Plausible(v) && OnlySilence(v)
    requires |views| < rules.threshold
    ensures var r := Run(Some(rec), views, rules);
            r.Some? && r.value.misses <= |views| && r.value.mark.None? && r.value.state != Inactive
  {
    if views != [] {
      var front, v := views[..|views| - 1], views[|views| - 1];
      SilenceNeedsThresholdPasses(rec, front, rules);
      AtMostOneMiss(Run(Some(rec), front, rules), v, rules);
      assert v in views;
      QuietPass(Run(Some(rec), front, rules).value, v, rules);
    }
  }

  lemma QuietPass(rec: Rec, v: View, rules: Rules)
    requires rec.mark.None? && rec.state != Inactive && Plausible(v) && OnlySilence(v)
    requires rec.misses + 1 < rules.threshold
    ensures Pass(Some(rec), v, rules).state != Inactive && Pass(Some(rec), v, rules).mark.None?
  {
  }

  /** The pass counts a miss: the node's link is not down and it is not seen on Wi-Fi, and
      a proven probe is silent, or its agent is listed but not active, or, when no faster
      method ever reached it, its switch's table does not have it. */
  predicate CountsAMiss(proven: set<Method>, v: View, rules: Rules) {
    && (v.here.Some? ==> v.read != Down && (v.here.value.port == WifiLink ==> v.read != Up))
    && match v.plan
       case Probe(via) =>
         if proven !! FAST_METHODS then v.answer != Replied && v.askTable && v.table == Found(false)
         else v.answer == Silent && via in proven
       case ByAgent => v.agent.Listed? && Verdict(v.agent.row, v.now, rules.agentMaxAge) == (false, false)
       case _ => false
  }

  lemma OneMoreMiss(rec: Rec, v: View, rules: Rules)
    requires rec.mark.None? && Plausible(v) && CountsAMiss(rec.proven, v, rules)
    ensures var r := Pass(Some(rec), v, rules);
            && r.misses == rec.misses + 1 && r.mark.None? && r.proven == rec.proven && r.lastSeen == rec.lastSeen
            && r.state == if r.misses >= rules.threshold then Inactive else rec.state
  {
  }

  /** And `threshold` such passes in a row do, whichever method each one uses: the node
      becomes inactive at that pass, not before and not later. */
  lemma {:induction false} SilenceAtThresholdIsInactive(rec: Rec, views: seq<View>, rules: Rules)
    requires rules.threshold >= 1
    requires rec.misses == 0 && rec.mark.None? && rec.state == Active
    requires forall v | v in views :: Plausible(v) && CountsAMiss(rec.proven, v, rules)
    ensures var r := Run(Some(rec), views, rules);
            && r.Some? && r.value.misses == |views| && r.value.mark.None?
            && r.value.proven == rec.proven && r.value.lastSeen == rec.lastSeen
            && (r.value.state == Inactive <==> |views| >= rules.threshold)
            && (r.value.state == Active <==> |views| < rules.threshold)
  {
    hide Pass, CountsAMiss, Plausible;
    if views != [] {
      var front, v := views[..|views| - 1], views[|views| - 1];
      SilenceAtThresholdIsInactive(rec, front, rules);
      assert v in views;
      OneMoreMiss(Run(Some(rec), front, rules).value, v, rules);
    }
  }

  // ---- down-link marks ---------------------------------------------------------

  /** Every pass of the run ends with a mark, and none sees a live reply. */
  ghost predicate StaysMarked(rec: Rec, views: seq<View>, rules: Rules) {
    views == [] ||
    var front, v := views[..|views| - 1], views[|views| - 1];
    && StaysMarked(rec, front, rules)
    && !LiveReply(Run(Some(rec), front, rules).value, v, rules)
    && Pass(Run(Some(rec), front, rules), v, rules).mark.Some?
  }

  /** An unmarked node whose link is not down has checked in exactly when its agent is active
      and is the manager's own or was heard within the age allowed. */
  lemma CheckInCountsExactlyWhen(rec: Rec, v: View, rules: Rules)
    requires rec.mark.None? && (v.here.Some? ==> v.read != Down)
    ensures CountsAsReply(rec, v, rules) <==>
              && v.agent.Listed? && v.agent.row.status == ActiveAgent
              && (v.agent.row.isManager || (v.agent.row.keepAlive.Some?
                                            && v.now <= v.agent.row.keepAlive.value + rules.agentMaxAge))
  {
  }

  /** A pass ends with a mark exactly when no live reply came and the node's link is down: read
      down now, or not read and marked already. The mark is at that link, since the pass that
      first saw it down. */
  lemma MarkedExactlyWhen(prior: Option<Rec>, v: View, rules: Rules)
    ensures var before, r := Carry(prior), Pass(prior, v, rules);
            && (r.mark.Some? <==> !LiveReply(before, v, rules) && v.here.Some?
                                  && (v.read == Down || (v.read == Unread && MarkedHere(before, v))))
            && (r.mark.Some? ==> r.mark.value.link == v.here.value)
            && (r.mark.Some? && !MarkedHere(before, v) ==> r.mark.value.since == Some(v.now))
            && (r.mark.Some? && MarkedHere(before, v) && before.mark.value.since.Some? ==>
                  r.mark.value.since == before.mark.value.since)
            && (r.mark.Some? && v.read == Down ==>
                  r.state == Inactive && r.mark.value.since.Some?
                  && r.checkedBy == Some(if v.here.value.port == WifiLink then Wifi else PortLayer))
  {
    RepliedIffLive(prior, v, rules);
  }

  /** No probe, agent or access point has ever reached the node. */
  predicate OnlyTablesReachIt(rec: Rec) {
    Icmp !in rec.proven && Snmp !in rec.proven && Agent !in rec.proven && Wifi !in rec.proven
  }

  /** The node's switch has its MAC on its port, and no faster method has ever reached it. */
  predicate TableHasIt(before: Rec, v: View, onPort: bool) {
    v.askTable && !v.plan.ByAgent? && OnlyTablesReachIt(before) && v.table == Found(onPort)
  }

  /** The pass counts a miss for an unmarked node: a probe it once answered is silent, its
      agent is listed and its check-in does not count as one, or its switch's table has lost it. */
  predicate IsMissed(before: Rec, v: View, rules: Rules) {
    || (v.plan.Probe? && v.answer == Silent && v.plan.via in before.proven)
    || (v.plan.ByAgent? && v.agent.Listed? && !Verdict(v.agent.row, v.now, rules.agentMaxAge).0)
    || TableHasIt(before, v, false)
  }

  /** An unmarked record after a pass without a live reply and without a mark: active when its
      switch's table has it; inactive when its agent is gone, or the misses come up to the
      threshold; unknown when it is not checked at all; else as it was. */
  ghost predicate IsDecided(before: Rec, r: Rec, v: View, rules: Rules) {
    var gone := v.plan.ByAgent? && v.agent.Listed? && v.agent.row.status == Gone;
    var known := if v.plan.NotProbed? then Unknown else before.state;
    if TableHasIt(before, v, true) then
      r.state == Active && r.misses == 0 && r.lastSeen == Some(v.now) && r.proven == before.proven + {MacTable}
    else
      && r.lastSeen == before.lastSeen && r.proven == before.proven
      && r.misses == before.misses + (if IsMissed(before, v, rules) then 1 else 0)
      && r.state == if gone || (IsMissed(before, v, rules) && r.misses >= rules.threshold) then Inactive
                    else known
  }

  lemma AgentPassDecides(prior: Option<Rec>, v: View, rules: Rules)
    requires v.plan.ByAgent? && Plausible(v) && !LiveReply(Carry(prior), v, rules)
    requires Carry(prior).mark.None? && Pass(prior, v, rules).mark.None?
    ensures IsDecided(Carry(prior), Pass(prior, v, rules), v, rules)
  {
  }

  /** What comes before the forwarding table, for a node that has no agent. */
  lemma ProbeDecides(prior: Option<Rec>, v: View, rules: Rules)
    requires !v.plan.ByAgent? && Plausible(v) && !LiveReply(Carry(prior), v, rules) && Carry(prior).mark.None?
    ensures var before := Carry(prior);
            var probed := Probed(Cell(Planned(before, v.plan), false), v, rules);
            var c := WifiChecked(AgentChecked(probed, v, rules), v, rules);
            var missed := v.plan.Probe? && v.answer == Silent && v.plan.via in before.proven;
            && !c.replied && c.rec.mark.None? && c.rec.lastSeen == before.lastSeen && c.rec.proven == before.proven
            && c.rec.misses == before.misses + (if missed then 1 else 0)
            && c.rec.state == if missed && c.rec.misses >= rules.threshold then Inactive
                              else if v.plan.NotProbed? then Unknown else before.state
  {
  }

  lemma ProbePassDecides(prior: Option<Rec>, v: View, rules: Rules)
    requires !v.plan.ByAgent? && Plausible(v) && !LiveReply(Carry(prior), v, rules)
    requires Carry(prior).mark.None? && Pass(prior, v, rules).mark.None?
    ensures IsDecided(Carry(prior), Pass(prior, v, rules), v, rules)
  {
    hide Planned, Probed, AgentChecked, WifiChecked, LiveReply;
    ProbeDecides(prior, v, rules);
  }

  lemma UnmarkedPassDecides(prior: Option<Rec>, v: View, rules: Rules)
    requires Plausible(v) && !LiveReply(Carry(prior), v, rules)
    requires Carry(prior).mark.None? && Pass(prior, v, rules).mark.None?
    ensures IsDecided(Carry(prior), Pass(prior, v, rules), v, rules)
  {
    hide Pass, LiveReply, IsDecided;
    if v.plan.ByAgent? {
      AgentPassDecides(prior, v, rules);
    } else {
      ProbePassDecides(prior, v, rules);
    }
  }

  /** The switch's table is asked about a node without a mark that gave no live reply, that no
      faster method has ever reached and that has no agent. */
  predicate TableIsAsked(before: Rec, v: View, rules: Rules) {
    && v.askTable && !v.plan.ByAgent? && before.mark.None? && OnlyTablesReachIt(before)
    && !LiveReply(before, v, rules)
  }

  /** The reason given is the one this pass met, if any: why a node is not probed, what its
      probe, agent or access point failed at, or that its switch's table could not be read. */
  lemma ReasonSaysWhatFailed(prior: Option<Rec>, v: View, rules: Rules)
    ensures Pass(prior, v, rules).reason
            == if TableIsAsked(Carry(prior), v, rules) && v.table == TableFailed then Some(MacTableUnavailable)
               else
                 match v.plan
                 case NotProbed(why) => why
                 case Probe(_) => if v.answer == PingMissing then Some(IcmpUnavailable)
                                  else if v.answer == ProbeFailed then Some(ProbeError) else None
                 case ByAgent => if v.agent == ManagerFailed then Some(AgentUnavailable)
                                 else if v.agent == NotListed then Some(AgentNotListed) else None
                 case ByWifi => if v.here.Some? && v.here.value.port == WifiLink && v.read == Unread
                                then Some(WifiUnavailable) else None
  {
  }

  /** The method recorded is the one that spoke last: the link while it is down; the access point
      when it has the node; else the way it is checked, when that answered or a mark was lifted;
      the switch's table when it was read for it; none for a node that is not checked. */
  lemma MethodIsWhatSpoke(prior: Option<Rec>, v: View, rules: Rules)
    ensures var before, r := Carry(prior), Pass(prior, v, rules);
            var ways := match v.plan
                        case ByAgent => Some(Agent) case ByWifi => Some(Wifi)
                        case Probe(via) => Some(via) case NotProbed(_) => None;
            && (r.mark.Some? && v.read == Down ==>
                  r.checkedBy == Some(if v.here.value.port == WifiLink then Wifi else PortLayer))
            && (LiveReply(before, v, rules) ==>
                  r.checkedBy == if v.here.Some? && v.here.value.port == WifiLink && v.read == Up then Some(Wifi)
                                 else ways)
            && (!LiveReply(before, v, rules) && before.mark.Some? && r.mark.None? ==> r.checkedBy == ways)
            && (!LiveReply(before, v, rules) && before.mark.None? && r.mark.None? ==>
                  r.checkedBy == if TableIsAsked(before, v, rules) && v.table.Found? then Some(MacTable)
                                 else if v.plan.Probe? || v.plan.NotProbed? || (v.plan.ByAgent? && v.agent.Listed?)
                                 then ways else before.checkedBy)
  {
    RepliedIffLive(prior, v, rules);
    MarkedExactlyWhen(prior, v, rules);
  }

  /** The state a mark will bring back. */
  function Remembered(rec: Rec): State
    requires rec.mark.Some?
  {
    rec.mark.value.previous.GetOr(Unknown)
  }

  lemma FirstMarkRemembers(prior: Option<Rec>, v: View, rules: Rules)
    requires Evidence(prior, v, rules).rec.mark.None? && Pass(prior, v, rules).mark.Some?
    ensures Remembered(Pass(prior, v, rules)) == Evidence(prior, v, rules).rec.state
  {
  }

  lemma NextMarkRemembers(rec: Rec, v: View, rules: Rules)
    requires rec.mark.Some? && !LiveReply(rec, v, rules)
    ensures var r := Pass(Some(rec), v, rules);
            if r.mark.Some? then Remembered(r) == Remembered(rec)
            else Lifted(rec, v) && r.state == Remembered(rec) && r.misses == 0
  {
    RepliedIffLive(Some(rec), v, rules);
  }

  lemma {:induction false} ChainRemembers(rec: Rec, views: seq<View>, rules: Rules)
    requires rec.mark.Some? && StaysMarked(rec, views, rules)
    ensures var r := Run(Some(rec), views, rules);
            r.Some? && r.value.mark.Some? && Remembered(r.value) == Remembered(rec)
  {
    if views != [] {
      var front, v := views[..|views| - 1], views[|views| - 1];
      ChainRemembers(rec, front, rules);
      NextMarkRemembers(Run(Some(rec), front, rules).value, v, rules);
    }
  }

  /** However long a node stays marked, on one link or on several in turn, when the
      mark is lifted without a live reply (its port is up again, or the node is
      elsewhere) its state is what it was before the first mark, with no misses. */
  lemma LiftingRestoresTheStateBeforeTheFirstMark(prior: Option<Rec>, first: View, middle: seq<View>, last: View,
                                                  rules: Rules)
    requires Evidence(prior, first, rules).rec.mark.None?
    requires Pass(prior, first, rules).mark.Some?
    requires StaysMarked(Pass(prior, first, rules), middle, rules)
    requires var r := Run(Some(Pass(prior, first, rules)), middle, rules);
             r.Some? && !LiveReply(r.value, last, rules) && Pass(r, last, rules).mark.None?
    ensures var r := Run(Some(Pass(prior, first, rules)), middle, rules);
            && Lifted(r.value, last)
            && Pass(r, last, rules).state == Evidence(prior, first, rules).rec.state
            && Pass(r, last, rules).misses == 0
  {
    FirstMarkRemembers(prior, first, rules);
    ChainRemembers(Pass(prior, first, rules), middle, rules);
    NextMarkRemembers(Run(Some(Pass(prior, first, rules)), middle, rules).value, last, rules);
  }

  /** The node is on the marked link, which is down or was not read, and has not answered. */
  predicate StillDown(rec: Rec, v: View, rules: Rules) {
    MarkedHere(rec, v) && v.read != Up && !LiveReply(rec, v, rules)
  }

  /** While a mark stands at one link nothing about it moves: not `since`, not the
      misses, not the state or the last reply. */
  lemma {:induction false} StandingMarkIsFrozen(rec: Rec, views: seq<View>, rules: Rules)
    requires rec.mark.Some? && rec.mark.value.since.Some? && rec.state == Inactive
    requires forall v | v in views :: StillDown(rec, v, rules)
    ensures var r := Run(Some(rec), views, rules);
            && r.Some? && r.value.mark == rec.mark && r.value.misses == rec.misses
            && r.value.state == Inactive && r.value.lastSeen == rec.lastSeen && r.value.proven == rec.proven
  {
    if views != [] {
      var front, v := views[..|views| - 1], views[|views| - 1];
      StandingMarkIsFrozen(rec, front, rules);
      assert v in views;
      FrozenPass(Run(Some(rec), front, rules).value, v, rules);
    }
  }

  lemma FrozenPass(rec: Rec, v: View, rules: Rules)
    requires rec.mark.Some? && rec.mark.value.since.Some? && rec.state == Inactive
    requires StillDown(rec, v, rules)
    ensures var r := Pass(Some(rec), v, rules);
            && r.mark == rec.mark && r.misses == rec.misses
            && r.state == Inactive && r.lastSeen == rec.lastSeen && r.proven == rec.proven
  {
    RepliedIffLive(Some(rec), v, rules);
  }

  /** A check-in clears a mark on a link that is down, or was not read, exactly when
      it is fresh and later than `since`. */
  lemma CheckInClearsIffLater(rec: Rec, v: View, rules: Rules)
    requires MarkedHere(rec, v) && rec.mark.value.since.Some? && v.read != Up && v.plan.ByAgent?
    ensures Pass(Some(rec), v, rules).mark.None? <==>
              && v.agent.Listed? && v.agent.row.status == ActiveAgent
              && v.agent.row.keepAlive.Some? && v.agent.row.keepAlive.value > rec.mark.value.since.value
              && (v.agent.row.isManager || v.now - v.agent.row.keepAlive.value <= rules.agentMaxAge)
  {
    RepliedIffLive(Some(rec), v, rules);
    if !LiveReply(rec, v, rules) {
      NextMarkRemembers(rec, v, rules);
    } else {
      LiveReplyWins(Some(rec), v, rules);
    }
  }
}
