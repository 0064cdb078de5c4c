/** What a crawl reaches: over any interleaving, every address announced for a new device is
    asked, and every row of a polled device is handled. */
module CrawlReach {
  import opened CrawlProtocol
  import opened CrawlState
  import opened Sequences
  import opened Wrappers

  /** The address the step makes known: an LLDP row's whose device is neither recorded nor
      seen, or a CDP row's that describes no known device. */
  function Announced(s: State, e: Event): Option<string>
    requires Enabled(s, e)
  {
    if !e.Handle? then None
    else
      var p := s.workers[e.w];
      if p.lldp != [] then
        var nb := p.lldp[0];
        if nb.cid !in s.shared.devices && nb.cid !in s.shared.seen then nb.mgmtIp else None
      else
        var nb := p.cdp[0];
        if nb.mgmtIp.Some? && nb.mgmtIp.value !in s.shared.cidByIp
           && (nb.name.Some? ==> nb.name.value !in s.shared.cidByName) then nb.mgmtIp else None
  }

  /** A worker that has taken the address off the queue has had its answer, or failed. */
  ghost predicate IsAskedAt(run: seq<State>, events: seq<Event>, j: nat, ip: string)
    requires |run| == |events| + 1 && j < |events|
  {
    && (events[j].NoAnswer? || events[j].Answered? || events[j].Fail?) && events[j].w < |run[j].workers|
    && run[j].workers[events[j].w].Identifying? && run[j].workers[events[j].w].ip == ip
  }

  ghost predicate IsAsked(run: seq<State>, events: seq<Event>, ip: string)
    requires |run| == |events| + 1
  {
    exists j: nat :: j < |events| && IsAskedAt(run, events, j, ip)
  }

  /** Some worker is finding out what answers there. */
  ghost predicate IsBeingAsked(s: State, ip: string) {
    exists w: nat :: w < |s.workers| && s.workers[w].Identifying? && s.workers[w].ip == ip
  }

  // ---- the queue's history ------------------------------------------------------------------

  lemma SharedGrows(s: State, e: Event)
    requires Enabled(s, e) && !e.Get? && !e.PutStops?
    ensures QueuesMore(s.shared, SharedAfter(s, e))
  {
    hide HandleNeighbor, HandleCdpNeighbor;
    if e.Handle? {
      var p := s.workers[e.w];
      if p.lldp != [] {
        NeighborIsReached(s.shared, p.cid, p.lldp[0]);
      } else {
        CdpNeighborIsReached(s.shared, p.cid, p.cdp[0]);
      }
    }
  }

  /** While crawling: what is queued was known, new addresses are queued, and the addresses
      taken off the queue are the oldest, one more with each item taken. */
  ghost predicate Grows(s: State, s': State) {
    && s'.shared.maxNodes == s.shared.maxNodes && s.shared.reserved <= s'.shared.reserved
    && s.shared.queuedIps <= s'.shared.queuedIps
    && forall ip :: ip in s'.shared.enqueued <==>
                      ip in s.shared.enqueued || ip in s'.shared.queuedIps[|s.shared.queuedIps|..]
  }

  lemma StepGrows(s: State, e: Event)
    requires Enabled(s, e)
    ensures Grows(s, Next(s, e))
  {
    hide SharedAfter, WorkerAfter;
    if !e.Get? && !e.PutStops? {
      SharedGrows(s, e);
    }
  }

  lemma GrowsChains(a: State, b: State, c: State)
    requires Grows(a, b) && Grows(b, c)
    ensures Grows(a, c)
  {
    assert c.shared.queuedIps[|a.shared.queuedIps|..]
        == b.shared.queuedIps[|a.shared.queuedIps|..] + c.shared.queuedIps[|b.shared.queuedIps|..];
  }

  lemma {:induction false} RunGrows(run: seq<State>, events: seq<Event>, i: nat, j: nat)
    requires IsRun(run, events) && i <= j < |run|
    ensures Grows(run[i], run[j])
  {
    hide Grows, Enabled, Next;
    if i < j {
      RunGrows(run, events, i, j - 1);
      StepGrows(run[j - 1], events[j - 1]);
      GrowsChains(run[i], run[j - 1], run[j]);
    } else {
      GrowsFromItself(run[i]);
    }
  }

  lemma GrowsFromItself(s: State)
    ensures Grows(s, s)
  {
  }

  // ---- each address queued is asked ------------------------------------------------------------

  /** How many of the addresses queued have been taken off the queue. */
  function TakenOff(s: State): int {
    if s.stopping then |s.shared.queuedIps| else |s.shared.queuedIps| - |s.shared.queue|
  }

  lemma TakesTheOldest(s: State, w: nat)
    requires Inv(s) && Enabled(s, Get(w)) && !s.stopping
    ensures 0 <= TakenOff(s) < |s.shared.queuedIps| && TakenOff(Next(s, Get(w))) == TakenOff(s) + 1
    ensures w < |Next(s, Get(w)).workers| && Next(s, Get(w)).workers[w].Identifying?
    ensures Next(s, Get(w)).workers[w].ip == s.shared.queuedIps[TakenOff(s)]
  {
    var q := s.shared.queue;
    assert q[0] in q && TaskIps(q)[0] == q[0].ip;
  }

  lemma WorkTakesNone(s: State, e: Event)
    requires Enabled(s, e) && !e.Get? && !e.PutStops? && !s.stopping
    ensures TakenOff(Next(s, e)) == TakenOff(s)
  {
    hide SharedAfter, WorkerAfter;
    SharedGrows(s, e);
  }

  lemma StopsTakeNone(s: State)
    requires Inv(s) && Enabled(s, PutStops)
    ensures TakenOff(Next(s, PutStops)) == TakenOff(s)
  {
    hide HistorySound, Sound, StopsOverflow;
    CountBounds(s.workers);
  }

  lemma TakesNoOther(s: State, e: Event)
    requires Inv(s) && Enabled(s, e) && (s.stopping || !e.Get?)
    ensures TakenOff(Next(s, e)) == TakenOff(s)
  {
    hide Inv, SharedAfter, WorkerAfter, StopsOverflow;
    if e.PutStops? {
      StopsTakeNone(s);
    } else if !e.Get? {
      NotStopping(s, e.w);
      WorkTakesNone(s, e);
    }
  }

  /** An address being asked about still is after a step, or that step was its answer. */
  lemma AskingGoesOn(run: seq<State>, events: seq<Event>, j: nat, ip: string)
    requires |run| == |events| + 1 && j < |events| && Enabled(run[j], events[j])
    requires run[j + 1] == Next(run[j], events[j])
    requires IsBeingAsked(run[j], ip)
    ensures IsBeingAsked(run[j + 1], ip) || IsAskedAt(run, events, j, ip)
  {
    hide SharedAfter, WorkerAfter, StopsOverflow;
    var w: nat :| w < |run[j].workers| && run[j].workers[w].Identifying? && run[j].workers[w].ip == ip;
    if events[j].PutStops? || events[j].w != w {
      assert run[j + 1].workers[w] == run[j].workers[w];
    }
  }

  lemma {:induction false} EveryTakenIsAsked(run: seq<State>, events: seq<Event>, i: nat, x: nat)
    requires IsRun(run, events) && i < |run| && x < |run[i].shared.queuedIps| && x < TakenOff(run[i])
    ensures IsBeingAsked(run[i], run[i].shared.queuedIps[x]) || IsAsked(run, events, run[i].shared.queuedIps[x])
  {
    hide Inv, Next, Enabled, IsBeingAsked, IsAskedAt, TakenOff;
    if i == 0 {
      NothingTakenYet(run[0]);
    } else {
      var s, e := run[i - 1], events[i - 1];
      EveryRunIsSound(run, events, i - 1);
      RunGrows(run, events, i - 1, i);
      if e.Get? && !s.stopping {
        TakesTheOldest(s, e.w);
      } else {
        TakesNoOther(s, e);
      }
      if x < TakenOff(s) {
        TakenWereQueued(s);
        EveryTakenIsAsked(run, events, i - 1, x);
        if IsBeingAsked(s, run[i].shared.queuedIps[x]) {
          AskingGoesOn(run, events, i - 1, run[i].shared.queuedIps[x]);
        }
      } else {
        IsAskedNow(run[i], e.w, run[i].shared.queuedIps[x]);
      }
    }
  }

  lemma NothingTakenYet(s: State)
    requires Init(s)
    ensures TakenOff(s) == 0
  {
    hide HistorySound, TaskIps, Seed;
    var base, ips :| Fresh(base) && s.shared == Seed(base, ips);
    SeedsAreReached(base, ips);
  }

  lemma TakenWereQueued(s: State)
    ensures TakenOff(s) <= |s.shared.queuedIps|
  {
  }

  lemma IsAskedNow(s: State, w: nat, ip: string)
    requires w < |s.workers| && s.workers[w].Identifying? && s.workers[w].ip == ip
    ensures IsBeingAsked(s, ip)
  {
  }

  /** Once the crawl has ended every address ever queued has been asked. */
  lemma EveryQueuedAddressIsAsked(run: seq<State>, events: seq<Event>, m: nat, ip: string)
    requires IsRun(run, events) && m < |run| && Ended(run[m]) && ip in run[m].shared.queuedIps
    ensures IsAsked(run, events, ip)
  {
    hide Enabled, Next, IsAskedAt;
    var x: nat :| x < |run[m].shared.queuedIps| && run[m].shared.queuedIps[x] == ip;
    EveryTakenIsAsked(run, events, m, x);
    EndedIsIdle(run[m]);
  }

  lemma EndedIsIdle(s: State)
    requires Ended(s)
    ensures forall w: nat | w < |s.workers| :: s.workers[w].Stopped?
  {
    forall w: nat | w < |s.workers| ensures s.workers[w].Stopped? {
      assert s.workers[w] in s.workers;
    }
  }

  /** And so has every address announced for a new device, unless an earlier crawl knew it or
      the cap was reached. */
  lemma EveryAnnouncedAddressIsAsked(run: seq<State>, events: seq<Event>, m: nat, k: nat, ip: string)
    requires IsRun(run, events) && k < m < |run| && Ended(run[m]) && Enabled(run[k], events[k])
    requires Announced(run[k], events[k]) == Some(ip)
    ensures || IsAsked(run, events, ip)
            || (ip in run[0].shared.enqueued && ip !in run[0].shared.queuedIps)
            || run[m].shared.reserved >= run[m].shared.maxNodes
  {
    hide Ended, IsAsked;
    AnnouncedIsKnown(run[k], events[k], ip);
    RunGrows(run, events, 0, k + 1);
    RunGrows(run, events, 0, m);
    RunGrows(run, events, k + 1, m);
    if ip in run[m].shared.queuedIps {
      EveryQueuedAddressIsAsked(run, events, m, ip);
    }
  }

  lemma AnnouncedIsKnown(s: State, e: Event, ip: string)
    requires Enabled(s, e) && Announced(s, e) == Some(ip)
    ensures ip in Next(s, e).shared.enqueued || s.shared.reserved >= s.shared.maxNodes
  {
    hide HandleNeighbor, HandleCdpNeighbor;
    var p := s.workers[e.w];
    if p.lldp != [] {
      NeighborIsReached(s.shared, p.cid, p.lldp[0]);
    } else {
      CdpNeighborIsReached(s.shared, p.cid, p.cdp[0]);
    }
  }

  /** Every seed has been asked, unless an earlier crawl knew it or the cap was reached. */
  lemma EverySeedIsAsked(run: seq<State>, events: seq<Event>, m: nat, base: Shared, ips: seq<string>, ip: string)
    requires IsRun(run, events) && m < |run| && Ended(run[m])
    requires Fresh(base) && run[0].shared == Seed(base, ips) && ip in ips
    ensures IsAsked(run, events, ip) || ip in base.enqueued || run[m].shared.reserved >= run[m].shared.maxNodes
  {
    hide Ended, IsAsked, Enabled, Next, Seed;
    SeedsAreReached(base, ips);
    RunGrows(run, events, 0, m);
    if ip in run[m].shared.queuedIps {
      EveryQueuedAddressIsAsked(run, events, m, ip);
    }
  }

  // ---- each row of a polled device is handled ----------------------------------------------------

  /** The worker's next step on this device's row x, LLDP rows first. */
  ghost predicate IsHandledAt(run: seq<State>, events: seq<Event>, j: nat, w: nat, nb: Neighbor, lldp: bool)
    requires |run| == |events| + 1 && j < |events|
  {
    && events[j] == Handle(w) && w < |run[j].workers| && run[j].workers[w].Polling?
    && if lldp then run[j].workers[w].lldp != [] && run[j].workers[w].lldp[0] == nb
       else run[j].workers[w].lldp == [] && run[j].workers[w].cdp != [] && run[j].workers[w].cdp[0] == nb
  }

  /** Since step k the worker has handled the row, or met an exception. */
  ghost predicate IsHandled(run: seq<State>, events: seq<Event>, k: nat, m: nat, w: nat, nb: Neighbor, lldp: bool)
    requires |run| == |events| + 1 && m <= |events|
  {
    exists j: nat :: k <= j < m && (events[j] == Fail(w) || IsHandledAt(run, events, j, w, nb, lldp))
  }

  ghost predicate IsDue(s: State, w: nat, nb: Neighbor, lldp: bool) {
    w < |s.workers| && s.workers[w].Polling? && nb in if lldp then s.workers[w].lldp else s.workers[w].cdp
  }

  lemma DueOrHandled(run: seq<State>, events: seq<Event>, j: nat, w: nat, nb: Neighbor, lldp: bool)
    requires |run| == |events| + 1 && j < |events| && Enabled(run[j], events[j])
    requires run[j + 1] == Next(run[j], events[j]) && IsDue(run[j], w, nb, lldp)
    ensures IsDue(run[j + 1], w, nb, lldp) || events[j] == Fail(w) || IsHandledAt(run, events, j, w, nb, lldp)
  {
    hide SharedAfter, StopsOverflow;
    var rows := if lldp then run[j].workers[w].lldp else run[j].workers[w].cdp;
    assert rows == [rows[0]] + rows[1..];
  }

  /** Once the crawl has ended each row of a device's tables has been handled by the worker that
      polled it, unless that met an exception. */
  lemma EveryRowIsHandled(run: seq<State>, events: seq<Event>, m: nat, k: nat, nb: Neighbor, lldp: bool)
    requires IsRun(run, events) && k < m < |run| && Ended(run[m])
    requires Enabled(run[k], events[k]) && events[k].Answered? && FirstPoll(run[k].shared, events[k].cid)
    requires nb in if lldp then events[k].lldp else events[k].cdp
    ensures IsHandled(run, events, k + 1, m, events[k].w, nb, lldp)
  {
    RowIsDueOrHandled(run, events, k + 1, m, events[k].w, nb, lldp);
    EndedIsIdle(run[m]);
  }

  lemma {:induction false} RowIsDueOrHandled(run: seq<State>, events: seq<Event>, k: nat, m: nat, w: nat, nb: Neighbor,
                                             lldp: bool)
    requires IsRun(run, events) && k <= m < |run| && IsDue(run[k], w, nb, lldp)
    ensures IsDue(run[m], w, nb, lldp) || IsHandled(run, events, k, m, w, nb, lldp)
    decreases m - k
  {
    hide IsDue, Enabled, Next, IsHandledAt;
    if k < m {
      RowIsDueOrHandled(run, events, k, m - 1, w, nb, lldp);
      if IsDue(run[m - 1], w, nb, lldp) {
        DueOrHandled(run, events, m - 1, w, nb, lldp);
      }
    }
  }
}
