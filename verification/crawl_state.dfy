/** What the crawl's workers share, and what each lock-held step does to it. */
module CrawlState {
  import opened Sequences
  import opened Wrappers

  type Cid = string

  datatype Status = Online | Unreachable | Discovered
  datatype Device = Device(ip: Option<string>, status: Status, pollable: bool)
  datatype Protocol = Lldp | Cdp
  datatype Link = Link(source: Cid, target: Cid, localPort: Option<string>, remotePort: Option<string>,
                       protocol: Protocol)

  /** A row of a neighbour table. An LLDP row has a chassis id (the device's own, or
      one made of its name or address); a CDP row has none, but may name its device. */
  datatype Neighbor = Neighbor(cid: Cid, mgmtIp: Option<string>, name: Option<string>,
                               localPort: Option<string>, remotePort: Option<string>)

  /** A queued address and the chassis id expected there, or a stop token. */
  datatype Item = Task(ip: string, expected: Option<Cid>) | Stop

  /** `polls` and `queuedIps` are histories: the devices a `_poll` was started for,
      and the addresses ever queued, oldest first. */
  datatype Shared = Shared(
    maxNodes: int,
    queue: seq<Item>,
    enqueued: set<string>,
    reserved: nat,
    seen: set<Cid>,
    devices: map<Cid, Device>,
    links: seq<Link>,
    cidByIp: map<string, Cid>,
    cidByName: map<string, Cid>,
    cdpLinks: seq<(Cid, Neighbor)>,
    polls: seq<Cid>,
    queuedIps: seq<string>)

  /** asyncio's `Queue(maxsize)`: a maxsize of 0 or less means no bound. */
  predicate QueueFull(maxsize: int, queue: seq<Item>) {
    0 < maxsize <= |queue|
  }

  /** The queue is sized to the node cap. */
  predicate HasRoom(s: Shared) {
    !QueueFull(s.maxNodes, s.queue)
  }

  function SetDefault(m: map<string, Cid>, k: string, cid: Cid): map<string, Cid> {
    if k in m then m else m[k := cid]
  }

  /** Whether `_enqueue` takes the address: new, its device not seen, under the cap. */
  predicate Takes(s: Shared, ip: string, cid: Option<Cid>) {
    && ip !in s.enqueued
    && (cid.Some? ==> cid.value !in s.seen)
    && s.reserved < s.maxNodes
  }

  function Enqueue(s: Shared, ip: string, cid: Option<Cid>): Shared {
    if !Takes(s, ip, cid) then s
    else s.(enqueued := s.enqueued + {ip},
            seen := s.seen + (if cid.Some? then {cid.value} else {}),
            reserved := s.reserved + 1,
            queue := s.queue + [Task(ip, cid)],
            queuedIps := s.queuedIps + [ip])
  }

  /** Whether the device at a polled address is polled here for the first time. */
  predicate FirstPoll(s: Shared, cid: Cid) {
    !(cid in s.devices && s.devices[cid].pollable)
  }

  function RecordPolled(s: Shared, ip: string, cid: Cid, name: Option<string>): Shared {
    var s1 := s.(seen := s.seen + {cid}, cidByIp := SetDefault(s.cidByIp, ip, cid));
    if !FirstPoll(s, cid) then s1
    else s1.(cidByName := if name.Some? then SetDefault(s.cidByName, name.value, cid) else s.cidByName,
             devices := s.devices[cid := Device(Some(ip), Online, true)],
             polls := s.polls + [cid])
  }

  function RecordUnpollable(s: Shared, ip: string, cid: Cid): Shared {
    var s1 := s.(seen := s.seen + {cid}, cidByIp := SetDefault(s.cidByIp, ip, cid));
    if cid !in s.devices then s1.(devices := s.devices[cid := Device(Some(ip), Unreachable, false)])
    else if s.devices[cid].pollable then s1
    else s1.(devices := s.devices[cid := Device(Some(s.devices[cid].ip.GetOr(ip)), Unreachable, false)])
  }

  function HandleNeighbor(s: Shared, source: Cid, nb: Neighbor): Shared {
    var s1 := s.(links := s.links + [Link(source, nb.cid, nb.localPort, nb.remotePort, Lldp)]);
    if nb.mgmtIp.Some? && nb.cid !in s.devices && nb.cid !in s.seen then Enqueue(s1, nb.mgmtIp.value, Some(nb.cid))
    else if nb.cid !in s.devices then
      s1.(devices := s.devices[nb.cid := Device(nb.mgmtIp, Discovered, false)], seen := s.seen + {nb.cid})
    else s1
  }

  function CdpTarget(s: Shared, nb: Neighbor): Option<Cid> {
    if nb.mgmtIp.Some? && nb.mgmtIp.value in s.cidByIp then Some(s.cidByIp[nb.mgmtIp.value])
    else if nb.name.Some? && nb.name.value in s.cidByName then Some(s.cidByName[nb.name.value])
    else None
  }

  function HandleCdpNeighbor(s: Shared, source: Cid, nb: Neighbor): Shared {
    var s1 := s.(cdpLinks := s.cdpLinks + [(source, nb)]);
    if nb.mgmtIp.Some? && CdpTarget(s, nb).None? then Enqueue(s1, nb.mgmtIp.value, None) else s1
  }

  /** A fresh crawl that knows some devices of an earlier one (`know`). */
  ghost predicate Fresh(s: Shared) {
    && s.queue == [] && s.reserved == 0 && s.devices == map[] && s.links == []
    && s.cdpLinks == [] && s.polls == [] && s.queuedIps == []
  }

  function Seed(s: Shared, ips: seq<string>): Shared {
    if ips == [] then s else Enqueue(Seed(s, ips[..|ips| - 1]), ips[|ips| - 1], None)
  }

  // ---- what every step keeps --------------------------------------------------------

  function TaskIps(queue: seq<Item>): seq<string>
    requires forall i | i in queue :: i.Task?
  {
    seq(|queue|, k requires 0 <= k < |queue| && queue[k] in queue => queue[k].ip)
  }

  /** No address was queued twice, at most maxNodes were queued at all, and the
      devices polled are the pollable ones, each once. */
  ghost predicate HistorySound(s: Shared) {
    && NoRepeats(s.queuedIps) && (forall ip | ip in s.queuedIps :: ip in s.enqueued)
    && |s.queuedIps| == s.reserved && (s.reserved == 0 || s.reserved <= s.maxNodes)
    && NoRepeats(s.polls)
    && (forall c :: c in s.polls <==> c in s.devices && s.devices[c].pollable)
  }

  /** What waits in the queue is the newest of the addresses queued, oldest first. */
  ghost predicate Sound(s: Shared) {
    && HistorySound(s)
    && (forall i | i in s.queue :: i.Task?)
    && |s.queue| <= |s.queuedIps| && TaskIps(s.queue) == s.queuedIps[|s.queuedIps| - |s.queue|..]
  }

  /** Nothing a polled device was recorded as is lost. */
  ghost predicate KeepsPolled(s: Shared, s': Shared) {
    forall c | c in s.devices && s.devices[c].pollable :: c in s'.devices && s'.devices[c] == s.devices[c]
  }

  /** `put_nowait` never meets a full queue when `_enqueue` calls it. */
  lemma TakingFits(s: Shared, ip: string, cid: Option<Cid>)
    requires Sound(s) && Takes(s, ip, cid)
    ensures HasRoom(s)
  {
  }

  lemma EnqueueKeepsSound(s: Shared, ip: string, cid: Option<Cid>)
    requires Sound(s)
    ensures var s' := Enqueue(s, ip, cid); Sound(s') && KeepsPolled(s, s') && s.queue <= s'.queue
  {
    var s' := Enqueue(s, ip, cid);
    if Takes(s, ip, cid) {
      var n, n' := |s.queuedIps| - |s.queue|, |s'.queuedIps| - |s'.queue|;
      assert s'.queuedIps[n'..] == s.queuedIps[n..] + [ip];
      assert TaskIps(s'.queue) == TaskIps(s.queue) + [ip];
    }
  }

  lemma PolledIsKnown(s: Shared, cid: Cid)
    requires Sound(s)
    ensures cid in s.polls <==> !FirstPoll(s, cid)
  {
  }

  lemma RecordPolledKeepsSound(s: Shared, ip: string, cid: Cid, name: Option<string>)
    requires Sound(s)
    ensures var s' := RecordPolled(s, ip, cid, name); Sound(s') && KeepsPolled(s, s') && s.queue <= s'.queue
  {
    hide TaskIps, NoRepeats;
    if FirstPoll(s, cid) {
      OneMoreIsNew(s.polls, cid);
    }
  }

  /** Recording an address without a reply leaves the devices polled as they were. */
  lemma UnpollableKeepsHistory(s: Shared, ip: string, cid: Cid)
    requires HistorySound(s)
    ensures var s' := RecordUnpollable(s, ip, cid); HistorySound(s') && KeepsPolled(s, s')
  {
    hide NoRepeats, SetDefault;
    var s' := RecordUnpollable(s, ip, cid);
    assert s'.polls == s.polls && s'.queuedIps == s.queuedIps && s'.enqueued == s.enqueued;
    assert cid in s'.devices && (s'.devices[cid].pollable <==> cid in s.devices && s.devices[cid].pollable);
    assert forall c | c != cid :: c in s'.devices <==> c in s.devices;
    assert forall c | c != cid && c in s.devices :: s'.devices[c] == s.devices[c];
  }

  lemma RecordUnpollableKeepsSound(s: Shared, ip: string, cid: Cid)
    requires Sound(s)
    ensures var s' := RecordUnpollable(s, ip, cid); Sound(s') && KeepsPolled(s, s') && s.queue <= s'.queue
  {
    hide HistorySound, KeepsPolled;
    UnpollableKeepsHistory(s, ip, cid);
  }

  lemma RowsKeepSound(s: Shared, links: seq<Link>, cdpLinks: seq<(Cid, Neighbor)>)
    requires Sound(s)
    ensures Sound(s.(links := links, cdpLinks := cdpLinks))
  {
    hide TaskIps, NoRepeats;
  }

  lemma HandleNeighborKeepsSound(s: Shared, source: Cid, nb: Neighbor)
    requires Sound(s)
    ensures var s' := HandleNeighbor(s, source, nb); Sound(s') && KeepsPolled(s, s') && s.queue <= s'.queue
  {
    var s1 := s.(links := s.links + [Link(source, nb.cid, nb.localPort, nb.remotePort, Lldp)]);
    if nb.mgmtIp.Some? {
      EnqueueKeepsSound(s1, nb.mgmtIp.value, Some(nb.cid));
    }
  }

  lemma HandleCdpNeighborKeepsSound(s: Shared, source: Cid, nb: Neighbor)
    requires Sound(s)
    ensures var s' := HandleCdpNeighbor(s, source, nb); Sound(s') && KeepsPolled(s, s') && s.queue <= s'.queue
  {
    var s1 := s.(cdpLinks := s.cdpLinks + [(source, nb)]);
    if nb.mgmtIp.Some? {
      EnqueueKeepsSound(s1, nb.mgmtIp.value, None);
    }
  }

  lemma FreshIsSound(s: Shared)
    requires Fresh(s)
    ensures Sound(s)
  {
  }

  lemma {:induction false} SeedKeepsSound(s: Shared, ips: seq<string>)
    requires Sound(s)
    ensures Sound(Seed(s, ips))
  {
    if ips != [] {
      SeedKeepsSound(s, ips[..|ips| - 1]);
      EnqueueKeepsSound(Seed(s, ips[..|ips| - 1]), ips[|ips| - 1], None);
    }
  }

  // ---- what is announced is queued ------------------------------------------------------

  /** Nothing queued is forgotten, and what is new among the addresses is queued. */
  ghost predicate QueuesMore(s: Shared, s': Shared) {
    && s'.maxNodes == s.maxNodes && s.reserved <= s'.reserved && s.seen <= s'.seen && s.queuedIps <= s'.queuedIps
    && |s'.queuedIps| - |s'.queue| == |s.queuedIps| - |s.queue|
    && forall ip :: ip in s'.enqueued <==> ip in s.enqueued || ip in s'.queuedIps[|s.queuedIps|..]
  }

  lemma EnqueueReaches(s: Shared, ip: string, cid: Option<Cid>)
    requires cid.Some? ==> cid.value !in s.seen
    ensures var s' := Enqueue(s, ip, cid); QueuesMore(s, s') && (ip in s'.enqueued || s.reserved >= s.maxNodes)
  {
  }

  /** An address is queued exactly when it is new, its device has not been seen, and the cap
      leaves room; else nothing changes. */
  lemma QueuedExactlyWhen(s: Shared, ip: string, cid: Option<Cid>)
    ensures var s' := Enqueue(s, ip, cid);
            if ip in s.enqueued || (cid.Some? && cid.value in s.seen) || s.reserved >= s.maxNodes then s' == s
            else s'.queue == s.queue + [Task(ip, cid)] && s'.reserved == s.reserved + 1 && ip in s'.enqueued
  {
  }

  /** The address of a neighbour neither recorded nor seen is known once its row is handled,
      unless the cap is reached. */
  lemma NeighborIsReached(s: Shared, source: Cid, nb: Neighbor)
    ensures var s' := HandleNeighbor(s, source, nb);
            && QueuesMore(s, s')
            && (nb.mgmtIp.Some? && nb.cid !in s.devices && nb.cid !in s.seen ==>
                  nb.mgmtIp.value in s'.enqueued || s.reserved >= s.maxNodes)
  {
    var s1 := s.(links := s.links + [Link(source, nb.cid, nb.localPort, nb.remotePort, Lldp)]);
    if nb.mgmtIp.Some? && nb.cid !in s.devices && nb.cid !in s.seen {
      EnqueueReaches(s1, nb.mgmtIp.value, Some(nb.cid));
    }
  }

  /** So is that of a CDP neighbour that is no known device, by address or by name. */
  lemma CdpNeighborIsReached(s: Shared, source: Cid, nb: Neighbor)
    ensures var s' := HandleCdpNeighbor(s, source, nb);
            && QueuesMore(s, s')
            && (nb.mgmtIp.Some? && nb.mgmtIp.value !in s.cidByIp
                && (nb.name.Some? ==> nb.name.value !in s.cidByName) ==>
                  nb.mgmtIp.value in s'.enqueued || s.reserved >= s.maxNodes)
  {
    var s1 := s.(cdpLinks := s.cdpLinks + [(source, nb)]);
    if nb.mgmtIp.Some? && CdpTarget(s, nb).None? {
      EnqueueReaches(s1, nb.mgmtIp.value, None);
    }
  }

  /** And every seed. */
  lemma {:induction false} SeedsAreReached(s: Shared, ips: seq<string>)
    ensures var s' := Seed(s, ips);
            QueuesMore(s, s') && forall ip | ip in ips :: ip in s'.enqueued || s'.reserved >= s'.maxNodes
  {
    if ips != [] {
      var front, last := ips[..|ips| - 1], ips[|ips| - 1];
      SeedsAreReached(s, front);
      EnqueueReaches(Seed(s, front), last, None);
      QueuesMoreChains(s, Seed(s, front), Seed(s, ips));
      assert ips == front + [last];
    }
  }

  lemma QueuesMoreChains(a: Shared, b: Shared, c: Shared)
    requires QueuesMore(a, b) && QueuesMore(b, c)
    ensures QueuesMore(a, c)
  {
    assert c.queuedIps[|a.queuedIps|..] == b.queuedIps[|a.queuedIps|..] + c.queuedIps[|b.queuedIps|..];
  }
}
