/** What the crawl has recorded at any time of a run: the links, devices and indexes that the
    answers and rows so far account for, and no others. */
module CrawlRecords {
  import opened CrawlProtocol
  import opened CrawlState
  import opened Sequences
  import opened Wrappers

  // ---- the links -------------------------------------------------------------------------

  /** Step j handled this row of the device's tables, the CDP rows after the LLDP rows. */
  ghost predicate IsHandledBy(run: seq<State>, events: seq<Event>, j: int, source: Cid, nb: Neighbor, lldp: bool)
    requires |run| == |events| + 1
  {
    && 0 <= j < |events| && events[j].Handle? && events[j].w < |run[j].workers|
    && var p := run[j].workers[events[j].w];
       && p.Polling? && p.cid == source
       && if lldp then p.lldp != [] && p.lldp[0] == nb else p.lldp == [] && p.cdp != [] && p.cdp[0] == nb
  }

  /** The link from the device that was polled, on its own port, to the device the row names, on
      the port it names there. */
  ghost predicate IsLinkOf(l: Link, source: Cid, nb: Neighbor) {
    && l.source == source && l.target == nb.cid && l.localPort == nb.localPort && l.remotePort == nb.remotePort
    && l.protocol == Lldp
  }

  ghost predicate WasReported(run: seq<State>, events: seq<Event>, m: nat, l: Link)
    requires |run| == |events| + 1
  {
    exists j, nb :: 0 <= j < m && IsHandledBy(run, events, j, l.source, nb, true) && IsLinkOf(l, l.source, nb)
  }

  ghost predicate WasKept(run: seq<State>, events: seq<Event>, m: nat, entry: (Cid, Neighbor))
    requires |run| == |events| + 1
  {
    exists j :: 0 <= j < m && IsHandledBy(run, events, j, entry.0, entry.1, false)
  }

  /** What a step does to the records. */
  lemma RecordsStep(run: seq<State>, events: seq<Event>, j: nat)
    requires IsRun(run, events) && j < |events|
    ensures Enabled(run[j], events[j])
    ensures var s, s', e := run[j], run[j + 1].shared, events[j];
            match e
            case Answered(w, cid, name, _, _) => s' == RecordPolled(s.shared, s.workers[w].ip, cid, name)
            case NoAnswer(w, cid) => s' == RecordUnpollable(s.shared, s.workers[w].ip, cid)
            case Handle(w) =>
              var p := s.workers[w];
              s' == if p.lldp != [] then HandleNeighbor(s.shared, p.cid, p.lldp[0])
                    else HandleCdpNeighbor(s.shared, p.cid, p.cdp[0])
            case _ => && s'.links == s.shared.links && s'.cdpLinks == s.shared.cdpLinks
                      && s'.devices == s.shared.devices && s'.cidByIp == s.shared.cidByIp
                      && s'.cidByName == s.shared.cidByName
  {
    hide WorkerAfter, StopsOverflow, RecordPolled, RecordUnpollable, HandleNeighbor, HandleCdpNeighbor;
    assert run[j + 1] == Next(run[j], events[j]);
  }

  lemma LinksStep(run: seq<State>, events: seq<Event>, j: nat)
    requires IsRun(run, events) && j < |events|
    ensures forall l :: l in run[j + 1].shared.links
                        <==> || l in run[j].shared.links
                             || exists nb ::
                                  IsHandledBy(run, events, j, l.source, nb, true) && IsLinkOf(l, l.source, nb)
    ensures forall entry :: entry in run[j + 1].shared.cdpLinks
                            <==> || entry in run[j].shared.cdpLinks
                                 || IsHandledBy(run, events, j, entry.0, entry.1, false)
  {
    hide Next, Init, StopsOverflow;
    var s, e := run[j], events[j];
    RecordsStep(run, events, j);
    if e.Handle? {
      var p := s.workers[e.w];
      if p.lldp != [] {
        var l := Link(p.cid, p.lldp[0].cid, p.lldp[0].localPort, p.lldp[0].remotePort, Lldp);
        assert run[j + 1].shared.links == s.shared.links + [l] && run[j + 1].shared.cdpLinks == s.shared.cdpLinks;
        assert IsHandledBy(run, events, j, l.source, p.lldp[0], true) && IsLinkOf(l, l.source, p.lldp[0]);
      } else {
        assert run[j + 1].shared.cdpLinks == s.shared.cdpLinks + [(p.cid, p.cdp[0])];
        assert run[j + 1].shared.links == s.shared.links;
        assert IsHandledBy(run, events, j, p.cid, p.cdp[0], false);
      }
    } else {
      assert run[j + 1].shared.links == s.shared.links && run[j + 1].shared.cdpLinks == s.shared.cdpLinks;
    }
  }

  /** The links are those of the LLDP rows handled, and the CDP rows handled are kept. */
  lemma {:induction false} LinksAreTheRowsHandled(run: seq<State>, events: seq<Event>, m: nat)
    requires IsRun(run, events) && m < |run|
    ensures forall l :: l in run[m].shared.links <==> WasReported(run, events, m, l)
    ensures forall entry :: entry in run[m].shared.cdpLinks <==> WasKept(run, events, m, entry)
  {
    hide Next, Enabled, IsHandledBy, IsLinkOf;
    if m == 0 {
      NothingRecordedYet(run[0]);
    } else {
      LinksAreTheRowsHandled(run, events, m - 1);
      LinksStep(run, events, m - 1);
      forall l ensures l in run[m].shared.links <==> WasReported(run, events, m, l) {
        OneMoreReport(run, events, m - 1, l);
      }
      forall entry ensures entry in run[m].shared.cdpLinks <==> WasKept(run, events, m, entry) {
        OneMoreKept(run, events, m - 1, entry);
      }
    }
  }

  lemma OneMoreReport(run: seq<State>, events: seq<Event>, m: nat, l: Link)
    requires |run| == |events| + 1
    ensures WasReported(run, events, m + 1, l)
            <==> || WasReported(run, events, m, l)
                 || exists nb :: IsHandledBy(run, events, m, l.source, nb, true) && IsLinkOf(l, l.source, nb)
  {
    hide IsHandledBy, IsLinkOf;
    if WasReported(run, events, m + 1, l) {
      var j, nb :| 0 <= j < m + 1 && IsHandledBy(run, events, j, l.source, nb, true) && IsLinkOf(l, l.source, nb);
      assert j < m || j == m;
    }
  }

  lemma OneMoreKept(run: seq<State>, events: seq<Event>, m: nat, entry: (Cid, Neighbor))
    requires |run| == |events| + 1
    ensures WasKept(run, events, m + 1, entry)
            <==> WasKept(run, events, m, entry) || IsHandledBy(run, events, m, entry.0, entry.1, false)
  {
    hide IsHandledBy;
  }

  lemma NothingRecordedYet(s: State)
    requires Init(s)
    ensures s.shared.links == [] && s.shared.cdpLinks == [] && s.shared.devices == map[]
  {
    var base, ips :| Fresh(base) && s.shared == Seed(base, ips);
    SeedRecordsNothing(base, ips);
  }

  lemma {:induction false} SeedRecordsNothing(base: Shared, ips: seq<string>)
    ensures var s := Seed(base, ips);
            && s.links == base.links && s.cdpLinks == base.cdpLinks && s.devices == base.devices
            && s.cidByIp == base.cidByIp && s.cidByName == base.cidByName
  {
    if ips != [] {
      SeedRecordsNothing(base, ips[..|ips| - 1]);
    }
  }

  // ---- the devices -----------------------------------------------------------------------

  /** Step j: the address was asked and the device answered there, or nothing did. */
  ghost predicate IsAnswer(run: seq<State>, events: seq<Event>, j: int, ip: string, c: Cid)
    requires |run| == |events| + 1
  {
    && 0 <= j < |events| && events[j].Answered? && events[j].cid == c && events[j].w < |run[j].workers|
    && run[j].workers[events[j].w].Identifying? && run[j].workers[events[j].w].ip == ip
  }

  ghost predicate IsNoAnswer(run: seq<State>, events: seq<Event>, j: int, ip: string, c: Cid)
    requires |run| == |events| + 1
  {
    && 0 <= j < |events| && events[j].NoAnswer? && events[j].cid == c && events[j].w < |run[j].workers|
    && run[j].workers[events[j].w].Identifying? && run[j].workers[events[j].w].ip == ip
  }

  /** Step j handled a row that names the device without an address to ask it at, or one seen. */
  ghost predicate IsPlaceholder(run: seq<State>, events: seq<Event>, j: int, nb: Neighbor, c: Cid)
    requires |run| == |events| + 1
  {
    && (exists source :: IsHandledBy(run, events, j, source, nb, true)) && nb.cid == c
    && (nb.mgmtIp.None? || c in run[j].shared.seen || c in run[j].shared.devices)
  }

  ghost predicate Answered(run: seq<State>, events: seq<Event>, m: nat, c: Cid)
    requires |run| == |events| + 1
  {
    exists j, ip :: 0 <= j < m && IsAnswer(run, events, j, ip, c)
  }

  ghost predicate Tried(run: seq<State>, events: seq<Event>, m: nat, c: Cid)
    requires |run| == |events| + 1
  {
    exists j, ip :: 0 <= j < m && IsNoAnswer(run, events, j, ip, c)
  }

  ghost predicate Named(run: seq<State>, events: seq<Event>, m: nat, c: Cid)
    requires |run| == |events| + 1
  {
    exists j, nb :: 0 <= j < m && IsPlaceholder(run, events, j, nb, c)
  }

  /** The device is recorded exactly as what happened says: online when it answered, unreachable
      when it only did not, discovered when it was only named. */
  ghost predicate IsRecorded(run: seq<State>, events: seq<Event>, m: nat, c: Cid)
    requires |run| == |events| + 1 && m < |run|
  {
    var devices := run[m].shared.devices;
    && (c in devices <==> Answered(run, events, m, c) || Tried(run, events, m, c) || Named(run, events, m, c))
    && (c in devices ==>
          && (devices[c].pollable <==> Answered(run, events, m, c))
          && devices[c].status == if Answered(run, events, m, c) then Online
                                  else if Tried(run, events, m, c) then Unreachable else Discovered)
  }

  /** What one step does to what is known of a device. */
  lemma DeviceStep(run: seq<State>, events: seq<Event>, j: nat, c: Cid)
    requires IsRun(run, events) && j < |events|
    ensures var before, after := run[j].shared.devices, run[j + 1].shared.devices;
            if exists ip :: IsAnswer(run, events, j, ip, c) then
              c in after && if c in before && before[c].pollable then after[c] == before[c]
                            else after[c].status == Online && after[c].pollable
            else if exists ip :: IsNoAnswer(run, events, j, ip, c) then
              c in after && if c in before && before[c].pollable then after[c] == before[c]
                            else after[c].status == Unreachable && !after[c].pollable
            else if c in before then c in after && after[c] == before[c]
            else if exists nb :: IsPlaceholder(run, events, j, nb, c) then
              c in after && after[c].status == Discovered && !after[c].pollable
            else c !in after
  {
    hide Next, Init, StopsOverflow;
    var s, e := run[j], events[j];
    RecordsStep(run, events, j);
    match e
    case Answered(w, cid, name, _, _) => assert IsAnswer(run, events, j, s.workers[w].ip, cid);
    case NoAnswer(w, cid) => assert IsNoAnswer(run, events, j, s.workers[w].ip, cid);
    case Handle(w) =>
      var p := s.workers[w];
      if p.lldp != [] {
        assert IsHandledBy(run, events, j, p.cid, p.lldp[0], true);
        if c == p.lldp[0].cid && (p.lldp[0].mgmtIp.None? || c in s.shared.seen) {
          assert IsPlaceholder(run, events, j, p.lldp[0], c);
        }
      }
    case _ =>
  }

  lemma OneMoreStep(run: seq<State>, events: seq<Event>, m: nat, c: Cid)
    requires |run| == |events| + 1
    ensures Answered(run, events, m + 1, c)
            <==> Answered(run, events, m, c) || exists ip :: IsAnswer(run, events, m, ip, c)
    ensures Tried(run, events, m + 1, c) <==> Tried(run, events, m, c) || exists ip :: IsNoAnswer(run, events, m, ip, c)
    ensures Named(run, events, m + 1, c)
            <==> Named(run, events, m, c) || exists nb :: IsPlaceholder(run, events, m, nb, c)
  {
    hide IsAnswer, IsNoAnswer, IsPlaceholder;
  }

  /** At any time of any run the devices are those that answered, or did not, or were only
      named, each recorded as the best of these. */
  lemma {:induction false} DevicesAreAsHappened(run: seq<State>, events: seq<Event>, m: nat, c: Cid)
    requires IsRun(run, events) && m < |run|
    ensures IsRecorded(run, events, m, c)
  {
    hide Init, Next, Enabled, IsAnswer, IsNoAnswer, IsPlaceholder;
    if m == 0 {
      NothingRecorded(run, events);
    } else {
      DevicesAreAsHappened(run, events, m - 1, c);
      DeviceStep(run, events, m - 1, c);
      OneMoreStep(run, events, m - 1, c);
      OneAnswerAStep(run, events, m - 1, c);
    }
  }

  lemma NothingRecorded(run: seq<State>, events: seq<Event>)
    requires IsRun(run, events)
    ensures |run| == |events| + 1 && run[0].shared.devices == map[]
  {
    NothingRecordedYet(run[0]);
  }

  /** A step answers, fails or names, no two of them. */
  lemma OneAnswerAStep(run: seq<State>, events: seq<Event>, j: nat, c: Cid)
    requires |run| == |events| + 1
    ensures !((exists ip :: IsAnswer(run, events, j, ip, c)) && exists ip :: IsNoAnswer(run, events, j, ip, c))
    ensures (exists nb :: IsPlaceholder(run, events, j, nb, c)) ==>
              !(exists ip :: IsAnswer(run, events, j, ip, c)) && !(exists ip :: IsNoAnswer(run, events, j, ip, c))
  {
  }

  // ---- the addresses ---------------------------------------------------------------------

  /** The device first answered at this address. */
  ghost predicate FirstAnsweredAt(run: seq<State>, events: seq<Event>, m: nat, ip: string, c: Cid)
    requires |run| == |events| + 1
  {
    exists j: nat :: j < m && IsAnswer(run, events, j, ip, c) && !Answered(run, events, j, c)
  }

  /** The address was asked and said to be the device's, or a row that named it gave it. */
  ghost predicate IsEvidenced(run: seq<State>, events: seq<Event>, m: nat, ip: string, c: Cid)
    requires |run| == |events| + 1
  {
    || (exists j :: 0 <= j < m && IsNoAnswer(run, events, j, ip, c))
    || exists j, nb :: 0 <= j < m && IsPlaceholder(run, events, j, nb, c) && nb.mgmtIp == Some(ip)
  }

  lemma AddressStep(run: seq<State>, events: seq<Event>, j: nat, c: Cid)
    requires IsRun(run, events) && j < |events| && c in run[j + 1].shared.devices
    ensures var before, d := run[j].shared.devices, run[j + 1].shared.devices[c];
            || (c in before && d.ip == before[c].ip && d.pollable == before[c].pollable)
            || (d.pollable && d.ip.Some? && IsAnswer(run, events, j, d.ip.value, c)
                && !(c in before && before[c].pollable))
            || (!d.pollable && d.ip.Some? && IsNoAnswer(run, events, j, d.ip.value, c)
                && !(c in before && before[c].pollable))
            || (!d.pollable && c !in before && exists nb :: IsPlaceholder(run, events, j, nb, c) && nb.mgmtIp == d.ip)
  {
    hide Next, Init, StopsOverflow;
    var s, e := run[j], events[j];
    RecordsStep(run, events, j);
    match e
    case Answered(w, cid, name, _, _) => assert IsAnswer(run, events, j, s.workers[w].ip, cid);
    case NoAnswer(w, cid) => assert IsNoAnswer(run, events, j, s.workers[w].ip, cid);
    case Handle(w) =>
      var p := s.workers[w];
      if p.lldp != [] {
        assert IsHandledBy(run, events, j, p.cid, p.lldp[0], true);
        if c == p.lldp[0].cid && (p.lldp[0].mgmtIp.None? || c in s.shared.seen) {
          assert IsPlaceholder(run, events, j, p.lldp[0], c);
        }
      }
    case _ =>
  }

  /** A device that answered is recorded at the address it first answered at; any other at one
      that was tried for it or that a row naming it gave. */
  lemma {:induction false} AddressesAreEvidenced(run: seq<State>, events: seq<Event>, m: nat, c: Cid)
    requires IsRun(run, events) && m < |run| && c in run[m].shared.devices
    ensures var d := run[m].shared.devices[c];
            && (d.pollable ==> d.ip.Some? && FirstAnsweredAt(run, events, m, d.ip.value, c))
            && (!d.pollable && d.ip.Some? ==> IsEvidenced(run, events, m, d.ip.value, c))
  {
    hide Init, Next, Enabled, IsAnswer, IsNoAnswer, IsPlaceholder, Answered;
    if m == 0 {
      NothingRecorded(run, events);
    } else {
      var before := run[m - 1].shared.devices;
      AddressStep(run, events, m - 1, c);
      DevicesAreAsHappened(run, events, m - 1, c);
      if c in before {
        AddressesAreEvidenced(run, events, m - 1, c);
      }
    }
  }

  // ---- the indexes -----------------------------------------------------------------------

  /** The address was asked and found to be the device's, answering or not. */
  ghost predicate IsAsked(run: seq<State>, events: seq<Event>, j: int, ip: string, c: Cid)
    requires |run| == |events| + 1
  {
    IsAnswer(run, events, j, ip, c) || IsNoAnswer(run, events, j, ip, c)
  }

  /** c is the first device the address was found to be. */
  ghost predicate IsFirstAsked(run: seq<State>, events: seq<Event>, m: nat, ip: string, c: Cid)
    requires |run| == |events| + 1
  {
    exists j: nat ::
      j < m && IsAsked(run, events, j, ip, c) && forall i, d | 0 <= i < j :: !IsAsked(run, events, i, ip, d)
  }

  lemma IndexStep(run: seq<State>, events: seq<Event>, j: nat, ip: string)
    requires IsRun(run, events) && j < |events|
    ensures var before, after := run[j].shared.cidByIp, run[j + 1].shared.cidByIp;
            if ip in before then ip in after && after[ip] == before[ip]
            else && (ip in after <==> exists c :: IsAsked(run, events, j, ip, c))
                 && (ip in after ==> IsAsked(run, events, j, ip, after[ip]))
  {
    hide Next, Init, StopsOverflow;
    var s, e := run[j], events[j];
    RecordsStep(run, events, j);
    match e
    case Answered(w, cid, name, _, _) => assert IsAsked(run, events, j, s.workers[w].ip, cid);
    case NoAnswer(w, cid) => assert IsAsked(run, events, j, s.workers[w].ip, cid);
    case _ =>
  }

  /** An address is known as the device an earlier crawl knew it as, else as the first it was
      found to be in this one. */
  lemma {:induction false} AddressesAreKnownAsFound(run: seq<State>, events: seq<Event>, m: nat, ip: string)
    requires IsRun(run, events) && m < |run|
    ensures var base, now := run[0].shared.cidByIp, run[m].shared.cidByIp;
            if ip in base then ip in now && now[ip] == base[ip]
            else && (ip in now <==> exists j, c :: 0 <= j < m && IsAsked(run, events, j, ip, c))
                 && (ip in now ==> IsFirstAsked(run, events, m, ip, now[ip]))
  {
    hide Init, Next, Enabled, IsAsked;
    if m > 0 {
      AddressesAreKnownAsFound(run, events, m - 1, ip);
      IndexStep(run, events, m - 1, ip);
      var before, now := run[m - 1].shared.cidByIp, run[m].shared.cidByIp;
      if ip !in run[0].shared.cidByIp && ip in now && ip in before {
        var j: nat :| && j < m - 1 && IsAsked(run, events, j, ip, now[ip])
                      && forall i, d | 0 <= i < j :: !IsAsked(run, events, i, ip, d);
        assert IsFirstAsked(run, events, m, ip, now[ip]);
      }
    }
  }

  /** The device answered for the first time, and gave this name. */
  ghost predicate GaveName(run: seq<State>, events: seq<Event>, j: int, name: string, c: Cid)
    requires |run| == |events| + 1
  {
    && 0 <= j < |events| && events[j].Answered? && events[j].cid == c && events[j].name == Some(name)
    && !Answered(run, events, j, c)
  }

  ghost predicate IsFirstToGive(run: seq<State>, events: seq<Event>, m: nat, name: string, c: Cid)
    requires |run| == |events| + 1
  {
    exists j: nat ::
      j < m && GaveName(run, events, j, name, c) && forall i, d | 0 <= i < j :: !GaveName(run, events, i, name, d)
  }

  lemma NameStep(run: seq<State>, events: seq<Event>, j: nat, name: string)
    requires IsRun(run, events) && j < |events|
    requires forall c :: FirstPoll(run[j].shared, c) <==> !Answered(run, events, j, c)
    ensures var before, after := run[j].shared.cidByName, run[j + 1].shared.cidByName;
            if name in before then name in after && after[name] == before[name]
            else && (name in after <==> exists c :: GaveName(run, events, j, name, c))
                 && (name in after ==> GaveName(run, events, j, name, after[name]))
  {
    hide Next, Init, StopsOverflow, Answered, FirstPoll;
    var s, e := run[j], events[j];
    RecordsStep(run, events, j);
    if e.Answered? && e.name == Some(name) && FirstPoll(s.shared, e.cid) {
      assert GaveName(run, events, j, name, e.cid);
    }
  }

  /** A name is known as the device an earlier crawl knew by it, else as the first device
      polled in this one that gave it. */
  lemma {:induction false} NamesAreKnownAsGiven(run: seq<State>, events: seq<Event>, m: nat, name: string)
    requires IsRun(run, events) && m < |run|
    ensures var base, now := run[0].shared.cidByName, run[m].shared.cidByName;
            if name in base then name in now && now[name] == base[name]
            else && (name in now <==> exists j, c :: 0 <= j < m && GaveName(run, events, j, name, c))
                 && (name in now ==> IsFirstToGive(run, events, m, name, now[name]))
  {
    hide Init, Next, Enabled, GaveName, Answered;
    if m > 0 {
      NamesAreKnownAsGiven(run, events, m - 1, name);
      var k := m - 1;
      forall c ensures FirstPoll(run[k].shared, c) <==> !Answered(run, events, k, c) {
        DevicesAreAsHappened(run, events, k, c);
      }
      NameStep(run, events, k, name);
      var before, now := run[m - 1].shared.cidByName, run[m].shared.cidByName;
      if name !in run[0].shared.cidByName && name in now && name in before {
        var j: nat :| && j < m - 1 && GaveName(run, events, j, name, now[name])
                      && forall i, d | 0 <= i < j :: !GaveName(run, events, i, name, d);
        assert IsFirstToGive(run, events, m, name, now[name]);
      }
    }
  }
}
