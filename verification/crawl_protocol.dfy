/** The crawl's worker pool, one lock-held (or await-free) segment per step, in
    any interleaving. */
module CrawlProtocol {
  import opened Sequences
  import opened Wrappers
  import opened CrawlState

  /** Where a worker is: waiting in `queue.get`, finding out what answers at an
      address, polling a device with the neighbour rows still to handle, or done. */
  datatype Worker =
    | Waiting
    | Identifying(ip: string, expected: Option<Cid>)
    | Polling(cid: Cid, lldp: seq<Neighbor>, cdp: seq<Neighbor>)
    | Stopped

  /** `unfinished` is the queue's count of items put and not yet `task_done`. */
  datatype State = State(shared: Shared, workers: seq<Worker>, unfinished: int, stopping: bool)

  datatype Event =
    | Get(w: nat)                                              // an item is taken from the queue
    | NoAnswer(w: nat, cid: Cid)                               // no credential, or not the full GET
    | Answered(w: nat, cid: Cid, name: Option<string>,
               lldp: seq<Neighbor>, cdp: seq<Neighbor>)        // a device; its tables, if it is polled here
    | Handle(w: nat)                                           // the next neighbour row
    | Finish(w: nat)                                           // the tables are read
    | Fail(w: nat)                                             // an exception, which the worker catches
    | PutStops                                                 // `run`, once `queue.join` returns

  predicate Busy(w: Worker) {
    w.Identifying? || w.Polling?
  }

  function Move(s: State, w: nat, to: Worker): State
    requires w < |s.workers|
  {
    s.(workers := s.workers[w := to])
  }

  /** A new shared state: the queue's count grows by what is put. */
  function WithShared(s: State, shared: Shared): State {
    var puts := |shared.queue| - |s.shared.queue|;
    s.(shared := shared, unfinished := s.unfinished + if puts > 0 then puts else 0)
  }

  function Stops(n: nat): (stops: seq<Item>)
    ensures |stops| == n && forall i | i in stops :: i == Stop
  {
    seq(n, _ => Stop)
  }

  /** Putting one stop token per worker, without a pause, meets a full queue. */
  predicate StopsOverflow(s: State) {
    exists k | 0 <= k < |s.workers| :: QueueFull(s.shared.maxNodes, s.shared.queue + Stops(k))
  }

  predicate Enabled(s: State, e: Event) {
    if e.PutStops? then !s.stopping && s.unfinished == 0 && !StopsOverflow(s)
    else
      && e.w < |s.workers|
      && match e
         case Get(w) => s.workers[w].Waiting? && s.shared.queue != []
         case NoAnswer(w, _) => s.workers[w].Identifying?
         case Answered(w, _, _, _, _) => s.workers[w].Identifying?
         case Handle(w) => s.workers[w].Polling? && s.workers[w].lldp + s.workers[w].cdp != []
         case Finish(w) => s.workers[w].Polling? && s.workers[w].lldp + s.workers[w].cdp == []
         case Fail(w) => Busy(s.workers[w])
         case PutStops => false
  }

  /** The shared state after a busy worker's step. */
  function SharedAfter(s: State, e: Event): Shared
    requires Enabled(s, e) && !e.PutStops? && !e.Get?
  {
    match e
    case NoAnswer(w, cid) => RecordUnpollable(s.shared, s.workers[w].ip, cid)
    case Answered(w, cid, name, _, _) => RecordPolled(s.shared, s.workers[w].ip, cid, name)
    case Handle(w) =>
      var p := s.workers[w];
      if p.lldp != [] then HandleNeighbor(s.shared, p.cid, p.lldp[0])
      else HandleCdpNeighbor(s.shared, p.cid, p.cdp[0])
    case _ => s.shared
  }

  /** And where that worker is; waiting again when its item is done. */
  function WorkerAfter(s: State, e: Event): (to: Worker)
    requires Enabled(s, e) && !e.PutStops? && !e.Get?
    ensures !to.Stopped? && !to.Identifying?
  {
    match e
    case Answered(_, cid, _, lldp, cdp) => if FirstPoll(s.shared, cid) then Polling(cid, lldp, cdp) else Waiting
    case Handle(w) =>
      var p := s.workers[w];
      if p.lldp != [] then p.(lldp := p.lldp[1..]) else p.(cdp := p.cdp[1..])
    case _ => Waiting
  }

  function Next(s: State, e: Event): State
    requires Enabled(s, e)
  {
    match e
    case Get(w) =>
      var item, shared := s.shared.queue[0], s.shared.(queue := s.shared.queue[1..]);
      if item.Stop? then Move(s, w, Stopped).(shared := shared, unfinished := s.unfinished - 1)
      else Move(s, w, Identifying(item.ip, item.expected)).(shared := shared)
    case PutStops =>
      var stops := Stops(|s.workers|);
      s.(shared := s.shared.(queue := s.shared.queue + stops), unfinished := s.unfinished + |stops|, stopping := true)
    case _ =>
      var s', to := WithShared(s, SharedAfter(s, e)), WorkerAfter(s, e);
      Move(s', e.w, to).(unfinished := s'.unfinished - if to.Waiting? then 1 else 0)
  }

  ghost predicate Init(s: State) {
    && (exists base, ips :: Fresh(base) && s.shared == Seed(base, ips))
    && (forall w | w in s.workers :: w == Waiting)
    && s.unfinished == |s.shared.queue| && !s.stopping
  }

  function BusyCount(workers: seq<Worker>): nat {
    if workers == [] then 0
    else BusyCount(workers[..|workers| - 1]) + if Busy(workers[|workers| - 1]) then 1 else 0
  }

  function LiveCount(workers: seq<Worker>): nat {
    if workers == [] then 0
    else LiveCount(workers[..|workers| - 1]) + if workers[|workers| - 1].Stopped? then 0 else 1
  }

  lemma {:induction false} CountsMove(workers: seq<Worker>, w: nat, to: Worker)
    requires w < |workers|
    ensures BusyCount(workers[w := to]) == BusyCount(workers)
              - (if Busy(workers[w]) then 1 else 0) + if Busy(to) then 1 else 0
    ensures LiveCount(workers[w := to]) == LiveCount(workers)
              - (if workers[w].Stopped? then 0 else 1) + if to.Stopped? then 0 else 1
  {
    var n := |workers| - 1;
    if w < n {
      assert workers[w := to][..n] == workers[..n][w := to];
      CountsMove(workers[..n], w, to);
    } else {
      assert workers[w := to][..n] == workers[..n];
    }
  }

  lemma OneMoreWorker(workers: seq<Worker>, front: seq<Worker>, last: Worker)
    requires workers == front + [last]
    ensures forall w :: w in workers <==> w in front || w == last
  {
  }

  lemma {:induction false} CountBounds(workers: seq<Worker>)
    ensures BusyCount(workers) <= LiveCount(workers) <= |workers|
    ensures BusyCount(workers) == 0 <==> forall w | w in workers :: !Busy(w)
    ensures LiveCount(workers) == 0 <==> forall w | w in workers :: w.Stopped?
    ensures (forall w | w in workers :: !w.Stopped?) ==> LiveCount(workers) == |workers|
  {
    if workers != [] {
      var front, last := workers[..|workers| - 1], workers[|workers| - 1];
      CountBounds(front);
      OneMoreWorker(workers, front, last);
    }
  }

  /** While crawling: the shared state is sound, nobody has stopped, and the queue's
      count is what waits and what is being worked on. While stopping: only stop
      tokens are left, one for every worker that has not stopped, and none is busy. */
  ghost predicate Inv(s: State) {
    && HistorySound(s.shared)
    && if s.stopping then
         && (forall i | i in s.shared.queue :: i.Stop?)
         && |s.shared.queue| == LiveCount(s.workers) == s.unfinished && BusyCount(s.workers) == 0
       else
         && Sound(s.shared)
         && (forall w | w in s.workers :: !w.Stopped?)
         && s.unfinished == |s.shared.queue| + BusyCount(s.workers)
  }

  lemma InitInv(s: State)
    requires Init(s)
    ensures Inv(s)
  {
    hide HistorySound, TaskIps, Seed;
    var base, ips :| Fresh(base) && s.shared == Seed(base, ips);
    FreshIsSound(base);
    SeedKeepsSound(base, ips);
    CountBounds(s.workers);
  }

  lemma GetKeepsInv(s: State, w: nat)
    requires Inv(s) && Enabled(s, Get(w))
    ensures Inv(Next(s, Get(w)))
  {
    var s', q := Next(s, Get(w)), s.shared.queue;
    CountsMove(s.workers, w, s'.workers[w]);
    assert forall i | i in q[1..] :: i in q;
    assert q[0] in q;
    if !s.stopping {
      assert TaskIps(q[1..]) == TaskIps(q)[1..];
    }
  }

  /** A step of a busy worker that leaves the shared state sound. */
  lemma MoveKeepsInv(s: State, shared: Shared, w: nat, to: Worker)
    requires Inv(s) && !s.stopping && Sound(shared) && |shared.queue| >= |s.shared.queue|
    requires w < |s.workers| && Busy(s.workers[w]) && !to.Stopped?
    ensures var s' := WithShared(s, shared);
            Inv(Move(s', w, to).(unfinished := s'.unfinished - if Busy(to) then 0 else 1))
  {
    CountsMove(s.workers, w, to);
  }

  lemma NotStopping(s: State, w: nat)
    requires Inv(s) && w < |s.workers| && Busy(s.workers[w])
    ensures !s.stopping
  {
    CountBounds(s.workers);
  }

  lemma StopsKeepInv(s: State)
    requires Inv(s) && Enabled(s, PutStops)
    ensures Inv(Next(s, PutStops))
  {
    hide HistorySound, Sound, StopsOverflow;
    HistoryIgnoresQueue(s.shared, Stops(|s.workers|));
    CountBounds(s.workers);
    assert s.shared.queue == [] && [] + Stops(|s.workers|) == Stops(|s.workers|);
  }

  lemma HistoryIgnoresQueue(s: Shared, queue: seq<Item>)
    requires HistorySound(s)
    ensures HistorySound(s.(queue := queue))
  {
  }

  /** Each step keeps the invariant, and every polled device as it was recorded. */
  lemma StepKeepsInv(s: State, e: Event)
    requires Inv(s) && Enabled(s, e)
    ensures Inv(Next(s, e)) && KeepsPolled(s.shared, Next(s, e).shared)
  {
    if e.PutStops? {
      StopsKeepInv(s);
    } else if e.Get? {
      GetKeepsInv(s, e.w);
    } else {
      SharedStepKeepsInv(s, e);
    }
  }

  lemma SharedStaysSound(s: State, e: Event)
    requires Sound(s.shared) && Enabled(s, e) && !e.PutStops? && !e.Get?
    ensures var shared := SharedAfter(s, e);
            Sound(shared) && KeepsPolled(s.shared, shared) && s.shared.queue <= shared.queue
  {
    hide RecordUnpollable, RecordPolled, HandleNeighbor, HandleCdpNeighbor, Sound;
    match e {
      case NoAnswer(w, cid) => RecordUnpollableKeepsSound(s.shared, s.workers[w].ip, cid);
      case Answered(w, cid, name, _, _) => RecordPolledKeepsSound(s.shared, s.workers[w].ip, cid, name);
      case Handle(w) =>
        var p := s.workers[w];
        if p.lldp != [] {
          HandleNeighborKeepsSound(s.shared, p.cid, p.lldp[0]);
        } else {
          HandleCdpNeighborKeepsSound(s.shared, p.cid, p.cdp[0]);
        }
      case _ =>
    }
  }

  lemma SharedStepKeepsInv(s: State, e: Event)
    requires Inv(s) && Enabled(s, e) && !e.PutStops? && !e.Get?
    ensures Inv(Next(s, e)) && KeepsPolled(s.shared, Next(s, e).shared)
  {
    hide SharedAfter, Sound, KeepsPolled;
    NotStopping(s, e.w);
    SharedStaysSound(s, e);
    MoveKeepsInv(s, SharedAfter(s, e), e.w, WorkerAfter(s, e));
  }

  // ---- whole runs -------------------------------------------------------------------

  ghost predicate IsRun(run: seq<State>, events: seq<Event>) {
    && |run| == |events| + 1 && Init(run[0])
    && forall i | 0 <= i < |events| :: Enabled(run[i], events[i]) && run[i + 1] == Next(run[i], events[i])
  }

  /** Over any interleaving: no address is queued twice, at most maxNodes are, each
      device's tables are read by one poll at most, and a device never meets a full queue. */
  lemma {:induction false} EveryRunIsSound(run: seq<State>, events: seq<Event>, i: nat)
    requires IsRun(run, events) && i < |run|
    ensures Inv(run[i])
    ensures NoRepeats(run[i].shared.queuedIps) && NoRepeats(run[i].shared.polls)
    ensures |run[i].shared.queuedIps| == run[i].shared.reserved
    ensures run[i].shared.reserved == 0 || run[i].shared.reserved <= run[i].shared.maxNodes
    ensures forall ip, cid :: !run[i].stopping && Takes(run[i].shared, ip, cid) ==> HasRoom(run[i].shared)
  {
    if i == 0 {
      InitInv(run[0]);
    } else {
      EveryRunIsSound(run, events, i - 1);
      StepKeepsInv(run[i - 1], events[i - 1]);
    }
    forall ip, cid | !run[i].stopping && Takes(run[i].shared, ip, cid) ensures HasRoom(run[i].shared) {
      TakingFits(run[i].shared, ip, cid);
    }
  }

  /** A device once polled stays recorded as it was polled. */
  lemma {:induction false} PolledIsNeverDowngraded(run: seq<State>, events: seq<Event>, i: nat, j: nat)
    requires IsRun(run, events) && i <= j < |run|
    ensures KeepsPolled(run[i].shared, run[j].shared)
  {
    hide Inv, Next, Enabled;
    if i < j {
      PolledIsNeverDowngraded(run, events, i, j - 1);
      EveryRunIsSound(run, events, j - 1);
      StepKeepsInv(run[j - 1], events[j - 1]);
    }
  }

  // ---- the queue drains -------------------------------------------------------------

  function IdentifyingCount(workers: seq<Worker>): nat {
    if workers == [] then 0
    else IdentifyingCount(workers[..|workers| - 1]) + if workers[|workers| - 1].Identifying? then 1 else 0
  }

  function RowsOf(w: Worker): nat {
    if w.Polling? then |w.lldp| + |w.cdp| + 1 else 0
  }

  function RowsLeft(workers: seq<Worker>): nat {
    if workers == [] then 0 else RowsLeft(workers[..|workers| - 1]) + RowsOf(workers[|workers| - 1])
  }

  lemma {:induction false} LeftMoves(workers: seq<Worker>, w: nat, to: Worker)
    requires w < |workers|
    ensures IdentifyingCount(workers[w := to]) == IdentifyingCount(workers)
              - (if workers[w].Identifying? then 1 else 0) + if to.Identifying? then 1 else 0
    ensures RowsLeft(workers[w := to]) == RowsLeft(workers) - RowsOf(workers[w]) + RowsOf(to)
  {
    var n := |workers| - 1;
    if w < n {
      assert workers[w := to][..n] == workers[..n][w := to];
      LeftMoves(workers[..n], w, to);
    } else {
      assert workers[w := to][..n] == workers[..n];
    }
  }

  /** Addresses that may still be queued. */
  function Slack(s: Shared): nat {
    if s.maxNodes > s.reserved then s.maxNodes - s.reserved else 0
  }

  /** s' has less left to do than s: fewer addresses to queue, else fewer waiting,
      else fewer being identified, else fewer neighbour rows and tables to read. */
  predicate LessLeft(s': State, s: State) {
    if s.stopping != s'.stopping then s'.stopping
    else if Slack(s'.shared) != Slack(s.shared) then Slack(s'.shared) < Slack(s.shared)
    else if |s'.shared.queue| != |s.shared.queue| then |s'.shared.queue| < |s.shared.queue|
    else if IdentifyingCount(s'.workers) != IdentifyingCount(s.workers)
    then IdentifyingCount(s'.workers) < IdentifyingCount(s.workers)
    else RowsLeft(s'.workers) < RowsLeft(s.workers)
  }

  lemma QueueGrowsOnlyByTaking(s: State, e: Event)
    requires Enabled(s, e) && !e.PutStops? && !e.Get?
    ensures var shared := SharedAfter(s, e);
            || Slack(shared) < Slack(s.shared)
            || (Slack(shared) == Slack(s.shared) && |shared.queue| == |s.shared.queue|)
  {
    hide RecordPolled, RecordUnpollable, HandleNeighbor, HandleCdpNeighbor;
    match e
    case Answered(w, cid, name, _, _) => PollingQueuesNothing(s.shared, s.workers[w].ip, cid, name);
    case NoAnswer(w, cid) => FailingQueuesNothing(s.shared, s.workers[w].ip, cid);
    case Handle(w) =>
      var p := s.workers[w];
      if p.lldp != [] {
        NeighborTakesOrNot(s.shared, p.cid, p.lldp[0]);
      } else {
        CdpTakesOrNot(s.shared, p.cid, p.cdp[0]);
      }
    case _ =>
  }

  lemma PollingQueuesNothing(s: Shared, ip: string, cid: Cid, name: Option<string>)
    ensures var s' := RecordPolled(s, ip, cid, name); Slack(s') == Slack(s) && |s'.queue| == |s.queue|
  {
  }

  lemma FailingQueuesNothing(s: Shared, ip: string, cid: Cid)
    ensures var s' := RecordUnpollable(s, ip, cid); Slack(s') == Slack(s) && |s'.queue| == |s.queue|
  {
  }

  lemma NeighborTakesOrNot(s: Shared, source: Cid, nb: Neighbor)
    ensures var s' := HandleNeighbor(s, source, nb);
            Slack(s') < Slack(s) || (Slack(s') == Slack(s) && |s'.queue| == |s.queue|)
  {
  }

  lemma CdpTakesOrNot(s: Shared, source: Cid, nb: Neighbor)
    ensures var s' := HandleCdpNeighbor(s, source, nb);
            Slack(s') < Slack(s) || (Slack(s') == Slack(s) && |s'.queue| == |s.queue|)
  {
  }

  lemma StepLeavesLess(s: State, e: Event)
    requires Inv(s) && Enabled(s, e)
    ensures LessLeft(Next(s, e), s)
  {
    hide RowsLeft, IdentifyingCount, SharedAfter;
    if !e.PutStops? {
      var s' := Next(s, e);
      LeftMoves(s.workers, e.w, s'.workers[e.w]);
      if !e.Get? {
        QueueGrowsOnlyByTaking(s, e);
        assert s'.shared == SharedAfter(s, e);
      }
    }
  }

  /** No run goes on for ever, whatever the devices answer. */
  lemma {:induction false} NoEndlessRun(run: nat -> State, events: nat -> Event, i: nat)
    requires Inv(run(i))
    requires forall j :: i <= j ==> Enabled(run(j), events(j)) && run(j + 1) == Next(run(j), events(j))
    ensures false
    decreases !run(i).stopping, Slack(run(i).shared), |run(i).shared.queue|,
              IdentifyingCount(run(i).workers), RowsLeft(run(i).workers)
  {
    StepKeepsInv(run(i), events(i));
    StepLeavesLess(run(i), events(i));
    NoEndlessRun(run, events, i + 1);
  }

  ghost predicate Ended(s: State) {
    s.stopping && s.shared.queue == [] && forall w | w in s.workers :: w.Stopped?
  }

  /** And none gets stuck before its end: with a worker and room for the stop tokens,
      some step other than an exception can be made until every worker has stopped and
      nothing is queued. */
  lemma EndedOrAStepIsLeft(s: State)
    requires Inv(s) && |s.workers| > 0 && !(0 < s.shared.maxNodes < |s.workers|)
    ensures Ended(s) || exists e: Event :: !e.Fail? && Enabled(s, e)
  {
    CountBounds(s.workers);
    if w :| w in s.workers && Busy(w) {
      var k :| 0 <= k < |s.workers| && s.workers[k] == w;
      var busy := s.workers[k];
      var e := if busy.Identifying? then NoAnswer(k, "")
               else if busy.lldp + busy.cdp != [] then Handle(k) else Event.Finish(k);
      assert !e.Fail? && Enabled(s, e);
    } else if !s.stopping {
      if s.shared.queue != [] {
        assert s.workers[0] in s.workers;
        assert !Get(0).Fail? && Enabled(s, Get(0));
      } else {
        ShutdownFitsExactly(s);
        assert !PutStops.Fail? && Enabled(s, PutStops);
      }
    } else if w :| w in s.workers && !w.Stopped? {
      var k :| 0 <= k < |s.workers| && s.workers[k] == w;
      assert !Get(k).Fail? && Enabled(s, Get(k));
    }
  }

  /** The stop tokens fit the queue exactly when there are no more workers than
      max_nodes (or the queue has no bound): with more, `run` meets a full queue. */
  lemma ShutdownFitsExactly(s: State)
    requires Inv(s) && !s.stopping && s.unfinished == 0
    ensures StopsOverflow(s) <==> 0 < s.shared.maxNodes < |s.workers|
  {
    assert s.shared.queue == [];
    if 0 < s.shared.maxNodes < |s.workers| {
      assert QueueFull(s.shared.maxNodes, s.shared.queue + Stops(s.shared.maxNodes));
    }
  }
}
