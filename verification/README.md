# Verified model of VulnMapper

VulnMapper crawls a network over SNMP, joins what it finds with the hosts Wazuh
knows, scores every finding, and works out how an attacker could move from a
start to the assets that matter. A dashboard plugin runs the scans and keeps
watch on which nodes are alive. This project models the parts of it whose
correctness is not visible in any one function body, and proves it:

- **Attack paths** (`takeover_steps`, `best_walk`, `attack_paths`, `attack_routes`,
  `route_ranking`). The edge values are exact reals, and the search is Dijkstra
  on their products. The route found is a best walk of the very graph the code
  builds, exists exactly when some walk does, repeats nothing, and never gets
  less likely when CVEs or findings are added. What an edge means is stated in the
  inputs' own terms: a shared VLAN or a routed pair, and what is on offer there.
- **Liveness** (`liveness_records`, `liveness_properties`, `liveness_monitor`).
  One record's pass is a function of what the pass learns; the monitor class
  applies the phases to the whole graph and is proved to do that function to
  every node. Over any run of passes every record is sound, silence alone needs
  `threshold` passes, and lifting a down-link mark restores the state before the
  first mark.
- **SNMP walk** (`snmp_walk`, `snmp_table`). The multi-column GETBULK walk with
  its fallback gives each column exactly the rows of a one-column GETNEXT walk,
  for any deterministic agent, and that is the subtree when the agent is in order.
- **Crawl** (`crawl_state`, `crawl_protocol`, `crawl_reach`, `crawl_records`, `crawler`,
  `crawl_document`). The worker pool is a state machine over lock-held steps: over
  every interleaving nothing is queued or polled twice, the cap holds, the queue ends, and shutdown
  fits the queue exactly when there are no more workers than nodes allowed. At the
  end every address announced has been asked unless the cap was reached, and the
  links, devices and indexes are exactly what the answers and rows account for. Links
  and CDP entries become one edge per cable that says what was reported.
- **Assembly** (`mac_table`, `assembly_steps`, `assembly_placement`,
  `assembly_late`, `assembly_hosts`, `assembly_wifi`, `assembly_result`,
  `assembly_evidence`, `assembler`, `graph_document`, `device_order`,
  `discovery_order`). Each MAC gets its least crowded access port; the steps of the assembler merge, place, retire and move
  nodes. From the inputs alone: which devices are merged and that none is missed,
  which devices and links are left, that every chassis, agent and learned MAC is a
  node, and that every endpoint sits where its machine was announced, under its
  access point, or where one look at the final devices would put it, each place with
  the link, table row, subnet or client list it rests on. The graph is
  closed (every edge end and parent is a node) when what is known comes from polled
  devices and no agent has the chassis MAC of a polled device that is no equipment,
  and numbered parents first, devices at their least distance from their root.
- **Scan lock** (`scan_state`, `scan_properties`, `scan_saving`, `scan_server`). Every Node
  callback and every stretch between awaits is a step: over every order of them a
  scan and an exclusive task never hold the lock together, files are written only
  under it, and each scan frees it once, within seven of its own callbacks, with
  its temp files gone. A stop request is answered exactly when, at the time it is
  made, the output is being taken in, or the scan has not ended and its child does
  not then fail to start; a five-step history in which one is lost is given. A scan is
  saved only after its files were written and moved, in order. Every
  handler of the server class keeps the lock's invariant.
- **Automatic rescan and schedule** (`auto_rescan`, `schedule`).
- **NVD client, cache and lookups** (`nvd_client`, `nvd_lookup`), and the CVE
  vector search on top of them (`vectors`).
- **Checklist** (`checklist`, `spare_ports`) and **OVSS** (`ovss`, `ovss_nodes`).

Code that only computes is functions and lemmas; code that changes things is
methods with loops, and classes whose methods are tied to a function of the old
state. What the network, the clock, the file system or Node answers is a
parameter, arbitrary unless a precondition says otherwise.

Where the code and its documentation or the natural expectation part ways, the
model follows the code:

- A request to NVD is checked against the budget and started at two readings of
  the clock, so the last start itself can fall after the budget's end (an example is
  given): it does exactly when the clock moves further in between than was left. The
  bound on the number of requests is proved from the checks
  (`backend/vulnmapper/devicecves/nvd.py:144-146`).
- A stop request made while a failed scan removes its temp files, or before its
  child's error is reported, is never answered: `whenStopped` is called only in
  two branches of the close callback (`plugin/server/scan.ts:353-372`).
- A spare-port pass can be overturned by reading more; exactly when is proved, and an
  input is given
  (`backend/vulnmapper/checklist/evaluate.py:214-255`).
- BPDU guard stays unknown on a port whose port fast rules it out as long as the
  global guard was not read; it is told off exactly when it cannot be on and that was
  read, or the port disables it (`backend/vulnmapper/checklist/tables.py:163-189`).
- The crawl's stop tokens overflow its queue exactly when
  `0 < max_nodes < concurrency` (`backend/vulnmapper/network/crawl.py:148-149`).

`dafny verify dfyconfig.toml` checks the whole project.

## Model

| member | source | states |
|---|---|---|
| `Ordering.Least` | backend/vulnmapper/attackpaths.py:273-278 | the least id of a non-empty set under Python's string order |
| `TakeoverSteps.BestIndexIsFirstEasiest` | backend/vulnmapper/attackpaths.py:96-112 | the loop keeps the first of the easiest usable CVEs, and none exactly when none is usable |
| `TakeoverSteps.FindBestWeakness` | backend/vulnmapper/attackpaths.py:96-112 | the loop computes that choice |
| `TakeoverSteps.BestFindingIsLargest` | backend/vulnmapper/attackpaths.py:115-132 | the finding kept has the largest (value, check id) |
| `TakeoverSteps.FindBestMisconfig` | backend/vulnmapper/attackpaths.py:115-132 | the loop computes that choice |
| `TakeoverSteps.TakeoverIsGreatestOffer` | backend/vulnmapper/attackpaths.py:86-148 | the takeover value is the greatest the asset's CVEs and findings offer in that scope, and exists exactly when something is on offer |
| `TakeoverSteps.TakeoverByComplexity` | backend/vulnmapper/attackpaths.py:86-148 | the value is 0.9, 0.6 or 0.2 as the lowest complexity on offer is low, medium or high, a default community being low, telnet, http and unauthenticated SNMP high |
| `TakeoverSteps.TakenOverExactlyWhen` | backend/vulnmapper/attackpaths.py:86-148 | there is a takeover exactly when some CVE of the scope needs no privileges and no user and has a complexity, or, within a VLAN only, some clear-text or default finding does |
| `TakeoverSteps.StepNamesItsEvidence` | backend/vulnmapper/attackpaths.py:96-148 | the step names the first of the CVEs of its complexity with the highest score; or, within a VLAN only, a finding no CVE comes up to, the easiest and then the last by id |
| `TakeoverSteps.CrossingIsNeverEasier` | backend/vulnmapper/attackpaths.py:86-148 | crossing a router never makes an asset easier to take over |
| `TakeoverSteps.MoreEvidenceIsNeverHarder` | backend/vulnmapper/attackpaths.py:86-148 | more CVEs and findings never make it harder |
| `BestWalk.LeavingBound` | backend/vulnmapper/attackpaths.py:369-374 | a walk that leaves the settled vertices is no likelier than the fringe's best |
| `BestWalk.SettleKeepsInv` | backend/vulnmapper/attackpaths.py:369-374 | settling the likeliest vertex keeps every settled walk optimal |
| `BestWalk.RaisedWalk` | backend/vulnmapper/attackpaths.py:280-307 | raising edge values keeps every walk and never lowers its likelihood |
| `BestWalk.MostLikelyPath` | backend/vulnmapper/attackpaths.py:369-374 | the search returns a best walk without repeats, and none exactly when there is no walk |
| `AttackPaths.Engine.RouterIsLowestQualifying` | backend/vulnmapper/attackpaths.py:273-278 | a router is found exactly when one joins the VLANs, and has the lowest id |
| `AttackRoutes.EdgeMeansReachable` | backend/vulnmapper/attackpaths.py:286-307 | an edge exists exactly when the two are placed and differ, something is on offer in its scope, and they share a VLAN or a router has an up layer-3 interface in a VLAN of each; it has no router exactly when they share one, its value is the greatest on offer with the scope set by that, and its step names that evidence |
| `AttackPaths.Engine.ReachabilityGraph` | backend/vulnmapper/attackpaths.py:280-307 | the nested loops build exactly the edges the VLANs, routers and takeovers allow |
| `AttackPaths.Engine.EdgesFrom` | backend/vulnmapper/attackpaths.py:286-307 | the inner loop: the edges out of one member |
| `AttackPaths.ReachabilityIsProper` | backend/vulnmapper/attackpaths.py:280-307 | every edge has a likelihood in (0, 1] and ends at an asset |
| `AttackPaths.Accumulate` | backend/vulnmapper/attackpaths.py:376-389 | the loop's steps and product are those of the path |
| `AttackRoutes.StepsTellTheRoute` | backend/vulnmapper/attackpaths.py:376-389 | a route's steps chain from its start to its target, each tells its hop's evidence and value, their product is the likelihood, and those that cross a router are CVE steps |
| `AttackPaths.FindRoute` | backend/vulnmapper/attackpaths.py:369-401 | a route exactly when a walk exists; it is a best walk, repeats nothing, has spare ports only first, and carries its exact product and steps |
| `AttackRoutes.RouteBetween` | backend/vulnmapper/attackpaths.py:280-401 | from an engine's inputs through the graph it builds: a route exactly when a walk exists, a best one, with its steps and exact product; each step goes where the VLANs or a router lead, and no misconfiguration step crosses a router |
| `AttackPaths.SamePlacement` | backend/vulnmapper/attackpaths.py:223-250 | CVEs and findings play no part in placement |
| `AttackPaths.EdgeStaysAsLikely` | backend/vulnmapper/attackpaths.py:280-307 | more evidence keeps every edge, no less likely |
| `AttackPaths.MoreEvidenceNeverLowersARoute` | backend/vulnmapper/attackpaths.py:280-401 | more evidence never closes a route nor lowers the best likelihood of any pair |
| `RouteRanking.BeforeIsTotalOrder` | backend/vulnmapper/attackpaths.py:151-155 | the key leaves nothing to chance |
| `RouteRanking.SortedIsOrderedPermutation` | backend/vulnmapper/attackpaths.py:426-441 | the ranking is the same routes in order |
| `RouteRanking.KeptAreTheBest` | backend/vulnmapper/attackpaths.py:426-451 | the kept routes are ranked, as many as asked, none made up, and no dropped one comes before them |
| `RouteRanking.KeptByLikelihood` | backend/vulnmapper/attackpaths.py:151-155 | down the kept routes the likelihood only falls; ties go to the higher OVSS, then fewer steps, then the lower start and nodes; no dropped route is likelier than a kept one |
| `RouteRanking.TosAreComparedLikeWords` | backend/vulnmapper/attackpaths.py:151-155 | the nodes along two routes are compared at the first that differs, or by which list ends |
| `LivenessProperties.RepliedIffLive` | backend/vulnmapper/liveness/monitor.py:276-290 | a node counts as replied exactly on a live reply, and only that drops a mark before the link phases |
| `LivenessProperties.EvidenceKeepsSound` | backend/vulnmapper/liveness/monitor.py:238-445 | the evidence phases keep what every record satisfies, short of the marks |
| `LivenessProperties.PassKeepsSound` | backend/vulnmapper/liveness/monitor.py:147-173 | a pass keeps a record sound: marked is inactive, active has misses below the threshold, a last reply and a proven method |
| `LivenessProperties.EveryRunIsSound` | backend/vulnmapper/liveness/monitor.py:147-173 | so does any run of passes from nothing |
| `LivenessProperties.LiveReplyWins` | backend/vulnmapper/liveness/monitor.py:276-290 | a live reply leaves the node active, unmarked and seen now |
| `LivenessProperties.MarkedExactlyWhen` | backend/vulnmapper/liveness/monitor.py:447-479 | a pass ends with a mark exactly when there was no live reply, the node has a link, and that was read down, or was not read and the mark carried over is at it; the mark is then at that link |
| `LivenessProperties.UnmarkedPassDecides` | backend/vulnmapper/liveness/monitor.py:238-445 | what a pass that leaves no mark makes of a record: active on a reply, one miss more on silence that counts, inactive at the threshold, else as it was |
| `LivenessProperties.ReasonSaysWhatFailed` | backend/vulnmapper/liveness/monitor.py:238-445 | the reason recorded is exactly the one this pass met: why the node is not probed, what its probe, agent or access point failed at, or its switch's table |
| `LivenessProperties.MethodIsWhatSpoke` | backend/vulnmapper/liveness/monitor.py:238-479 | the method recorded is the link while down, the access point that lists the node, else the way it is checked when that spoke or a mark was lifted, its switch's table when read for it, none when not checked |
| `LivenessProperties.CheckInCountsExactlyWhen` | backend/vulnmapper/liveness/monitor.py:356-391 | an unmarked node whose link is not down has checked in exactly when its agent is active and is the manager's own or was heard within the age allowed |
| `LivenessProperties.AtMostOneMiss` | backend/vulnmapper/liveness/records.py:69-83 | no record gains more than one miss in a pass |
| `LivenessProperties.SilenceNeedsThresholdPasses` | backend/vulnmapper/liveness/records.py:69-83 | fewer than threshold passes of silence make nothing inactive |
| `LivenessProperties.SilenceAtThresholdIsInactive` | backend/vulnmapper/liveness/records.py:69-83 | threshold passes in a row that count a miss, by probe, agent or forwarding table, make an active node inactive, at that pass and not before |
| `LivenessProperties.FirstMarkRemembers` | backend/vulnmapper/liveness/monitor.py:462-479 | a new mark remembers the state it replaces |
| `LivenessProperties.ChainRemembers` | backend/vulnmapper/liveness/monitor.py:447-479 | an unbroken chain of marks remembers the first one's state |
| `LivenessProperties.LiftingRestoresTheStateBeforeTheFirstMark` | backend/vulnmapper/liveness/monitor.py:447-460 | lifting restores that state, with no misses |
| `LivenessProperties.StandingMarkIsFrozen` | backend/vulnmapper/liveness/monitor.py:356-371 | while a mark stands at one link, since, misses, state and last reply do not move |
| `LivenessProperties.CheckInClearsIffLater` | backend/vulnmapper/liveness/monitor.py:356-391 | a check-in clears a standing mark exactly when fresh and later than since |
| `LivenessMonitor.PhasesArePasses` | backend/vulnmapper/liveness/monitor.py:147-173 | the phases over the graph, links read in the middle, are one pass for each node |
| `LivenessMonitor.Monitor.Plan` | backend/vulnmapper/liveness/monitor.py:238-274 | every record carried over, the nodes not probed noted |
| `LivenessMonitor.Monitor.ReadPorts` | backend/vulnmapper/liveness/monitor.py:316-328 | the port tables kept are those of the devices that answered SNMP |
| `LivenessMonitor.Monitor.LinkState` | backend/vulnmapper/liveness/monitor.py:344-354 | up, down or not read, as the tables say |
| `LivenessMonitor.Monitor.Sweep` | backend/vulnmapper/liveness/monitor.py:147-173 | a phase does to each record what it does to that record alone |
| `LivenessMonitor.Monitor.Check` | backend/vulnmapper/liveness/monitor.py:147-200 | every node of the graph, and no other, has what the pass says of it; sound records stay sound, none gains more than one miss, one that answered is active, unmarked and seen now, and one is marked exactly when its link was read down, or not read and marked there before |
| `LivenessMonitor.WholePassIsSound` | backend/vulnmapper/liveness/monitor.py:147-173 | over any graph and answers a pass keeps all records sound, live nodes active and unmarked, and adds at most one miss |
| `LivenessMonitor.WholePassMarksRightly` | backend/vulnmapper/liveness/monitor.py:447-479 | over any graph and answers: a node ends marked exactly when it did not reply live and its link was read down, or was not read and it was marked there before |
| `LivenessMonitor.ReadsAsSaid` | backend/vulnmapper/liveness/monitor.py:344-354 | a link is down exactly when the device's table says so of its port, or the access point's client list was read without the node's MAC |
| `LivenessMonitor.TableReadsAsSaid` | backend/vulnmapper/liveness/monitor.py:406-445 | the forwarding table is asked about exactly the endpoints with a MAC on a port of a device that answered SNMP, and has one there exactly when it pairs its VLAN and MAC with that port |
| `LivenessMonitor.AgentReadsAsSaid` | backend/vulnmapper/liveness/monitor.py:378-386 | a node is judged by the Manager's row under its own agent id, and not at all exactly when the Manager gave no rows |
| `LivenessMonitor.SnmpUpExactlyWhen` | backend/vulnmapper/liveness/monitor.py:292-318 | a device answers SNMP exactly when it can be polled, at a valid address of its own, and its probe was answered |
| `LivenessMonitor.FirstLinkIsFirst` | backend/vulnmapper/liveness/monitor.py:217-228 | a node's link is the first of its edges that names a port or is wireless |
| `LivenessMonitor.ProbedExactlyWhen` | backend/vulnmapper/liveness/monitor.py:238-274 | a node is probed exactly when it has a valid address of its own and neither its agent nor its access point answers for it, by SNMP exactly when it is a device that can be polled; one not checked at all has no address, no valid one, or a shared one |
| `LivenessMonitor.SharedExactlyWhen` | backend/vulnmapper/liveness/monitor.py:202-215 | a node with an address keeps it exactly when no other has it, or it is not stale and every other one is |
| `LivenessMonitor.NoAddressIsProbedTwice` | backend/vulnmapper/liveness/monitor.py:202-274 | no two nodes are probed at one address |
| `SnmpWalk.AbsorbKeepsCourse` | backend/vulnmapper/network/snmp.py:255-274 | a binding that follows the column's last OID keeps it on the simple walk's course |
| `SnmpWalk.TakeAnswer` | backend/vulnmapper/network/snmp.py:255-274 | an answer leaves each active column complete or on course, the first one further |
| `SnmpWalk.TakingProgresses` | backend/vulnmapper/network/snmp.py:232-278 | each answer leaves fewer active columns or fewer OIDs unseen |
| `SnmpWalk.RowsSoFar` | backend/vulnmapper/network/snmp.py:218-278 | at any time a column's rows are a prefix of the simple walk's |
| `SnmpWalk.CapCutsTheWalk` | backend/vulnmapper/network/snmp.py:275-276 | the walk with a cap of n is the walk without one cut to its first n rows, or its first when n is 0 |
| `SnmpWalk.WalkIsTheLongestCourse` | backend/vulnmapper/network/snmp.py:218-278 | the walk without a cap is the longest sequence of rows that starts at the root, each the agent's next after the one before, inside the subtree and none twice |
| `SnmpWalk.SnmpClient.WalkColumns` | backend/vulnmapper/network/snmp.py:218-278 | the walk ends; each column is a prefix of the one-column GETNEXT walk, all of it when no GETNEXT fails, wherever GETBULK fails and however answers are cut; no column has more rows than the cap; the failure is remembered |
| `SnmpTable.SubtreeIsContiguous` | backend/vulnmapper/network/snmp.py:261-268 | past a subtree nothing belongs to it |
| `SnmpTable.WalkReadsTheSubtree` | backend/vulnmapper/network/snmp.py:218-278 | of an agent in OID order the walk reads exactly the subtree's rows |
| `SnmpTable.CappedWalkReadsTheFront` | backend/vulnmapper/network/snmp.py:275-276 | with a cap of n, of an agent in OID order, exactly its first n rows |
| `SnmpTable.BeforeIsLexicographic` | backend/vulnmapper/network/snmp.py:261-268 | the order of OIDs is that of their first differing number, a prefix first |
| `SnmpTable.SubtreeRowsAre` | backend/vulnmapper/network/snmp.py:261-268 | the subtree's rows are those whose OID the root is a proper prefix of |
| `CrawlState.TakingFits` | backend/vulnmapper/network/crawl.py:99-118 | `put_nowait` of an address never meets a full queue |
| `CrawlState.EnqueueKeepsSound` | backend/vulnmapper/network/crawl.py:99-118 | enqueuing keeps the histories: no repeats, at most max_nodes |
| `CrawlState.RecordPolledKeepsSound` | backend/vulnmapper/network/crawl.py:333-361 | a device is polled once, under its lock-held record |
| `CrawlState.RecordUnpollableKeepsSound` | backend/vulnmapper/network/crawl.py:363-376 | an unpollable address never downgrades a polled device |
| `CrawlState.HandleNeighborKeepsSound` | backend/vulnmapper/network/crawl.py:385-415 | handling an LLDP row keeps them |
| `CrawlState.HandleCdpNeighborKeepsSound` | backend/vulnmapper/network/crawl.py:417-424 | handling a CDP row keeps them |
| `CrawlState.SeedKeepsSound` | backend/vulnmapper/network/crawl.py:134-143 | so does seeding |
| `CrawlState.NeighborIsReached` | backend/vulnmapper/network/crawl.py:385-401 | the address of an LLDP neighbour neither recorded nor seen is known once its row is handled, unless the cap is reached; nothing queued is forgotten, and what is new is queued |
| `CrawlState.CdpNeighborIsReached` | backend/vulnmapper/network/crawl.py:417-424 | so is that of a CDP neighbour that is no known device by address or name |
| `CrawlState.SeedsAreReached` | backend/vulnmapper/network/crawl.py:134-143 | and every seed |
| `CrawlProtocol.StepKeepsInv` | backend/vulnmapper/network/crawl.py:145-191 | every step of every worker keeps the pool's invariant and every polled device |
| `CrawlProtocol.EveryRunIsSound` | backend/vulnmapper/network/crawl.py:145-176 | over any interleaving no address is queued twice, at most max_nodes are, each chassis is polled once, and the queue has room |
| `CrawlProtocol.PolledIsNeverDowngraded` | backend/vulnmapper/network/crawl.py:333-376 | a polled device stays recorded as it was |
| `CrawlProtocol.StepLeavesLess` | backend/vulnmapper/network/crawl.py:145-176 | every step leaves less to do |
| `CrawlProtocol.NoEndlessRun` | backend/vulnmapper/network/crawl.py:145-162 | no run goes on for ever |
| `CrawlProtocol.EndedOrAStepIsLeft` | backend/vulnmapper/network/crawl.py:145-176 | nor gets stuck before its end: a step that is no exception is left, when the stop tokens fit |
| `CrawlProtocol.ShutdownFitsExactly` | backend/vulnmapper/network/crawl.py:148-149 | the stop tokens overflow the queue exactly when 0 < max_nodes < concurrency |
| `CrawlReach.EveryQueuedAddressIsAsked` | backend/vulnmapper/network/crawl.py:145-176 | at the end of any run every address ever queued has been taken off the queue by a worker and asked |
| `CrawlReach.EveryAnnouncedAddressIsAsked` | backend/vulnmapper/network/crawl.py:385-424 | so has every address announced for a device that was new, by LLDP or CDP, unless an earlier crawl knew it or the cap was reached |
| `CrawlReach.EverySeedIsAsked` | backend/vulnmapper/network/crawl.py:134-176 | and every seed |
| `CrawlReach.EveryRowIsHandled` | backend/vulnmapper/network/crawl.py:193-213 | every row of a polled device's tables is handled by the worker that polled it, LLDP rows first, unless that met an exception |
| `CrawlRecords.LinksAreTheRowsHandled` | backend/vulnmapper/network/crawl.py:385-419 | at any time of any run the links are exactly those of the LLDP rows handled, from the polled device on its own port to the device named on the port named there; the CDP rows handled are exactly those kept |
| `CrawlRecords.DevicesAreAsHappened` | backend/vulnmapper/network/crawl.py:333-415 | the devices are exactly those that answered, were tried, or were named without a way to ask them; online exactly when they answered, else unreachable when tried, else discovered |
| `CrawlRecords.AddressesAreEvidenced` | backend/vulnmapper/network/crawl.py:333-415 | a device that answered is recorded at the address it first answered at, any other at one tried for it or given by a row that names it |
| `CrawlRecords.AddressesAreKnownAsFound` | backend/vulnmapper/network/crawl.py:333-376 | an address is known as the device an earlier crawl knew it as, else as the first it was found to be |
| `CrawlRecords.NamesAreKnownAsGiven` | backend/vulnmapper/network/crawl.py:333-361 | a name is known as the device an earlier crawl knew by it, else as the first device polled that gave it |
| `CrawlerFields.Crawler.Enqueue` | backend/vulnmapper/network/crawl.py:99-118 | the method is the protocol's step on the fields and keeps them sound |
| `CrawlerFields.Crawler.Seed` | backend/vulnmapper/network/crawl.py:134-143 | queues the seeds and says how many |
| `CrawlerFields.Crawler.RecordPolledDevice` | backend/vulnmapper/network/crawl.py:333-361 | true exactly for a chassis not polled before |
| `CrawlerFields.Crawler.RecordUnpollableIp` | backend/vulnmapper/network/crawl.py:363-376 | the method is the protocol's step and keeps the fields sound |
| `CrawlerFields.Crawler.HandleNeighbor` | backend/vulnmapper/network/crawl.py:385-415 | the method is the protocol's step and keeps the fields sound |
| `CrawlerFields.Crawler.HandleCdpNeighbor` | backend/vulnmapper/network/crawl.py:417-432 | the method is the protocol's step and keeps the fields sound |
| `CrawlDocument.ResolveCdpLinks` | backend/vulnmapper/network/crawl.py:434-465 | the loop keeps a CDP entry, its neighbour matched to a device or made up, exactly when no LLDP table joins its ends |
| `CrawlDocument.NoPairHasBoth` | backend/vulnmapper/network/crawl.py:434-469 | no pair has both an LLDP and a CDP link |
| `CrawlDocument.CdpLinksSayTheirRows` | backend/vulnmapper/network/crawl.py:426-465 | the CDP links are exactly those of the rows whose ends are two devices no LLDP table joins, on the reporting device's port, to the device known by the row's address, else by its name, else made up from them |
| `CrawlDocument.DedupeEdges` | backend/vulnmapper/network/document.py:19-45 | the dictionaries end as the merged edges |
| `CrawlDocument.OneEdgePerCable` | backend/vulnmapper/network/document.py:19-45 | exactly one edge per linked unordered pair |
| `CrawlDocument.EdgeSaysWhatWasReported` | backend/vulnmapper/network/document.py:25-45 | each port is named exactly when some report named it, and protocol is cdp exactly when no LLDP table reported the pair |
| `CrawlDocument.ReversingAReportChangesNothing` | backend/vulnmapper/network/document.py:19-45 | reversing a report with its ports changes nothing |
| `MacTables.IndexFdb` | backend/vulnmapper/assemble/mactable.py:36-46 | the loop leaves each MAC's distinct (port, VLAN) pairs and each port's MACs |
| `MacTables.PairsAreLearned` | backend/vulnmapper/assemble/mactable.py:36-46 | those pairs are the rows of the table, each once |
| `MacTables.CrowdIsLearned` | backend/vulnmapper/assemble/mactable.py:36-54 | a port's MACs are those learned on it |
| `MacTables.CandidatesAreSightings` | backend/vulnmapper/assemble/mactable.py:131-139 | a MAC's candidates are exactly where a switch learned it off its uplinks |
| `MacTables.Gather` | backend/vulnmapper/assemble/mactable.py:131-139 | the nested loops gather them for every MAC that is no infrastructure |
| `MacTables.FirstLeast` | backend/vulnmapper/assemble/mactable.py:147 | the first least candidate by (crowd, id, port) |
| `MacTables.InfraMacs` | backend/vulnmapper/assemble/mactable.py:92-110 | exactly the devices' own MACs and the polled ones' base MACs |
| `MacTables.CollectArp` | backend/vulnmapper/assemble/mactable.py:124-129 | the last ARP row of each MAC, and its index by address |
| `MacTables.BuildMacTable` | backend/vulnmapper/assemble/mactable.py:113-153 | the table is that of the nodes |
| `MacTables.RowIsTheBestSighting` | backend/vulnmapper/assemble/mactable.py:113-153 | a MAC has a row exactly when some switch learned it off its uplinks and it is no infrastructure; no other sighting is on a less crowded port, and a resolved one is the only one |
| `MacTables.TiesGoToTheLowest` | backend/vulnmapper/assemble/mactable.py:147 | of sightings on equally crowded ports the row is the one by the lowest device id, then port |
| `MacTables.RowsNamePolledSwitches` | backend/vulnmapper/assemble/mactable.py:131-149 | when only polled devices carry tables every row names a polled one |
| `AssemblySteps.SubnetParentIs` | backend/vulnmapper/assemble/graph.py:66-75 | a device of the /24 is found exactly when there is one, a polled one if there is |
| `AssemblySteps.SubnetParentIsFirst` | backend/vulnmapper/assemble/graph.py:66-75 | it is the first polled one in device order, else the first |
| `AssemblySteps.FindSubnetParent` | backend/vulnmapper/assemble/graph.py:66-75 | the loop computes it |
| `AssemblySteps.SubnetParentStays` | backend/vulnmapper/assemble/graph.py:66-75 | dropping other devices does not change the one an address goes under |
| `AssemblySteps.AnnouncedByTheFirstLink` | backend/vulnmapper/assemble/graph.py:52-63 | a device was announced exactly when some link touches it, by the device at the other end of the first such link, on the port that link names there |
| `AssemblySteps.SwitchWasPolled` | backend/vulnmapper/assemble/graph.py:52-63 | the announcer of an unpolled device was polled, when every link has a polled end |
| `AssemblySteps.KindsDiffer` | backend/vulnmapper/schema.py:181-193 | ids of devices, endpoints and hosts never meet |
| `AssemblyPlacement.FindPhantoms` | backend/vulnmapper/assemble/graph.py:225-239 | exactly the claimed devices that are no equipment and have a known announcer are merged, each into the last endpoint with its MAC, which is placed on the port a link of the document has at the announcer, its device at the other end |
| `AssemblyPlacement.MergedIsWhole` | backend/vulnmapper/assemble/graph.py:225-243 | when none merged was polled, every parent stays |
| `AssemblyPlacement.LinkThem` | backend/vulnmapper/assemble/graph.py:245-257 | the links are those between devices left |
| `AssemblyPlacement.PlaceEndpoints` | backend/vulnmapper/assemble/graph.py:261-295 | every endpoint not yet placed goes where the ladder says, takes a MAC only from the tables, and has a reason when nowhere |
| `AssemblyPlacement.LadderIsWhole` | backend/vulnmapper/assemble/graph.py:261-295 | placing keeps every parent a device of the graph |
| `AssemblyPlacement.LadderIsExplained` | backend/vulnmapper/assemble/graph.py:284-295 | exactly the unplaced endpoints have a reason |
| `AssemblyPlacement.ReplaceRetired` | backend/vulnmapper/assemble/graph.py:357-368 | exactly what hung off a retired device is placed again by subnet, or has the reason it is not |
| `AssemblyPlacement.RetiringKeepsWhole` | backend/vulnmapper/assemble/graph.py:346-368 | retiring unpolled devices leaves every parent a device of the graph |
| `AssemblyLate.LastPhantomIsTaken` | backend/vulnmapper/assemble/graph.py:307-318 | the device looked up by a MAC is the last one with that chassis MAC |
| `AssemblyLate.FindLate` | backend/vulnmapper/assemble/graph.py:297-342 | an endpoint whose device can be merged and whose announcer stays is never missed; each that is merged takes the device's MAC and sits on the port of a link to it; no other endpoint or placement changes |
| `AssemblyLate.LateArePhantoms` | backend/vulnmapper/assemble/graph.py:297-342 | what is merged late is claimed by an endpoint as it is now, no equipment and announced; no endpoint loses a MAC |
| `AssemblyLate.LateIsWhole` | backend/vulnmapper/assemble/graph.py:297-344 | before the retirement every parent is still a device |
| `AssemblyHosts.PlaceEndHosts` | backend/vulnmapper/assemble/graph.py:372-394 | each end host becomes a host, the last of each id on the port of a link to it or nowhere; nothing else moves |
| `AssemblyHosts.EndHostsAreKept` | backend/vulnmapper/assemble/graph.py:372-395 | nothing but endpoints hangs off the end hosts retired, so `next` always finds one |
| `AssemblyHosts.PlaceTableHosts` | backend/vulnmapper/assemble/graph.py:397-411 | exactly the MACs no node has become hosts, at their row's port whatever was placed there; nothing else moves |
| `AssemblyHosts.TableHostsAreKept` | backend/vulnmapper/assemble/graph.py:397-411 | which are devices of the graph when rows name polled ones |
| `AssemblyWifi.PlaceClient` | backend/vulnmapper/assemble/graph.py:427-453 | one client: its node, found or made, ends on this access point and the client's radio unless LLDP placed it, and no other client's place is lost |
| `AssemblyWifi.PlaceWifiClients` | backend/vulnmapper/assemble/graph.py:413-453 | LLDP placements stand, a node is moved only under an access point whose client has its MAC, no host is lost and only clients become new ones; every client's node, the indexed one if its MAC was known, ends under the last access point to list it unless LLDP placed it |
| `AssemblyWifi.NodeOfIsTheLast` | backend/vulnmapper/assemble/graph.py:419-420 | the node indexed for a MAC is the last host with it, without any the last endpoint |
| `AssemblyWifi.NewHostIsNew` | backend/vulnmapper/assemble/graph.py:443-447 | a host made for a client never takes an id already placed |
| `AssemblyResult.LinksLeftAreBetween` | backend/vulnmapper/assemble/graph.py:346-356 | dropping devices leaves exactly the document's links between the others |
| `AssemblyResult.LadderPlacesRight` | backend/vulnmapper/assemble/graph.py:261-295 | after the ladder every endpoint sits where a merged device of its own was announced, or by its table row or subnet |
| `AssemblyResult.LatePlacesRight` | backend/vulnmapper/assemble/graph.py:297-342 | the late merges keep that |
| `AssemblyResult.RetiringPlacesRight` | backend/vulnmapper/assemble/graph.py:346-368 | and so does retiring devices: placing again step by step is placing once among the devices left |
| `AssemblyResult.RetiringLetsMachinesSit` | backend/vulnmapper/assemble/graph.py:346-368 | every merged device's endpoint stays where it was announced, or goes by subnet when that switch is dropped |
| `AssemblyResult.TableHostsAreThose` | backend/vulnmapper/assemble/graph.py:397-411 | every neighbour left is a host and every table MAC belongs to a node or infrastructure; no host is made up |
| `AssemblyResult.WifiHostsSitRight` | backend/vulnmapper/assemble/graph.py:413-453 | moving clients leaves every host where it was announced or learned, or under its access point |
| `Assembler.GraphAssembler.MergeLldpPhantoms` | backend/vulnmapper/assemble/graph.py:225-243 | exactly the phantoms leave the devices, each one's endpoint placed where it was announced; parents stay devices of the graph |
| `Assembler.GraphAssembler.PlaceFromTables` | backend/vulnmapper/assemble/graph.py:261-295 | every endpoint has its table MAC, is placed right and explained when nowhere |
| `Assembler.GraphAssembler.RetireDevices` | backend/vulnmapper/assemble/graph.py:346-368 | the devices and their links go, what hung off them is placed again |
| `Assembler.GraphAssembler.MergeLatePhantoms` | backend/vulnmapper/assemble/graph.py:297-344 | no endpoint's device is missed, what is merged is a phantom of the endpoints as they are now, its endpoint sits where it was announced unless that switch went too, and every other stays placed right |
| `Assembler.GraphAssembler.AddLldpEndHosts` | backend/vulnmapper/assemble/graph.py:372-395 | exactly the end hosts leave the devices, each a host, on the device left that announced it or nowhere; endpoints stay placed right |
| `Assembler.GraphAssembler.AddTableHosts` | backend/vulnmapper/assemble/graph.py:397-411 | exactly the MACs no node has become hosts, endpoints untouched, parents still devices of the graph |
| `AssemblyWifi.LastListingIsAListing` | backend/vulnmapper/assemble/graph.py:413-453 | a client has a last listing exactly when some access point of the graph lists it, and it is one of those |
| `Assembler.GraphAssembler.PlaceClients` | backend/vulnmapper/assemble/graph.py:413-453 | clients move only under access points they are clients of, and each ends under the last one to list it unless LLDP placed it |
| `GraphDocument.AssembleGraph` | backend/vulnmapper/assemble/graph.py:131-146 | from the inputs: which devices are merged and none missed, the devices and links left, every endpoint's place on the final devices with the evidence its confidence stands for, every neighbour and table MAC a node, every client settled |
| `AssemblyEvidence.EveryPlaceHasEvidence` | backend/vulnmapper/assemble/graph.py:52-63 | whatever the steps leave, an LLDP place is a port of a link to that very machine, a table place the port the table's row of its MAC names, off the uplinks, where the switch learned it, a subnet place a device of the graph on the /24 of an online endpoint no row of a device left places, a wireless one the access point that lists the client, and no place is without confidence; every merged device's endpoint is so linked, under an access point, or its announcer is gone |
| `GraphDocument.FitsNumbering` | backend/vulnmapper/assemble/graph.py:491-501 | what is placed and the devices are the nodes, each once |
| `GraphDocument.WriteDocument` | backend/vulnmapper/assemble/graph.py:491-521 | the nodes are exactly the devices, endpoints and hosts; the edges are the links and one per placed node; each node's parent is the one it was given; numbers follow the breadth-first listing |
| `GraphDocument.Build` | backend/vulnmapper/assemble/graph.py:131-146 | the document is that of the assembly of the inputs; if no agent's own MAC is the chassis MAC of a polled non-equipment device, only polled devices carry tables and every link has a polled end, every edge end and parent is a node; parents in the graph come first in any case |
| `GraphDocument.EveryChassisIsANode` | backend/vulnmapper/assemble/graph.py:131-146 | each chassis of the network document is a device node, or the host it announced itself as, or the endpoint with its MAC, and a device exactly when not merged and no end host |
| `GraphDocument.EveryAgentAndMacIsANode` | backend/vulnmapper/assemble/graph.py:131-146 | every agent is a node, and every table MAC that is no infrastructure's or device's is some node's |
| `AssemblyResult.NoneMergedWasPolledExactlyWhen` | backend/vulnmapper/assemble/graph.py:225-344 | nothing merged was polled exactly when nothing rung 1 merges was: what the tables gain can claim no polled device |
| `GraphDocument.NoneMergedWasPolled` | backend/vulnmapper/assemble/graph.py:225-344 | when no agent's own MAC is the chassis MAC of a polled non-equipment device, nothing merged was polled |
| `DeviceOrder.BuildAdjacency` | backend/vulnmapper/assemble/graph.py:82-85 | the neighbour lists of every device |
| `DeviceOrder.Expand` | backend/vulnmapper/assemble/graph.py:96-103 | one device off the queue and its neighbours met |
| `DeviceOrder.SearchTree` | backend/vulnmapper/assemble/graph.py:93-103 | a component searched until the queue is empty |
| `DeviceOrder.BfsDeviceOrder` | backend/vulnmapper/assemble/graph.py:78-104 | every device ordered once, after its parent, trees closed, roots first in document order |
| `DeviceOrder.WalkStaysInTree` | backend/vulnmapper/assemble/graph.py:78-104 | a walk over links stays in one tree and goes down at most a level a link |
| `DeviceOrder.DepthIsLeast` | backend/vulnmapper/assemble/graph.py:78-104 | a device's depth is the least number of links from its root, the first device in document order linked to it |
| `DiscoveryOrder.GroupByParent` | backend/vulnmapper/assemble/graph.py:529-532 | each parent's hosts in placement order |
| `DiscoveryOrder.ListNodes` | backend/vulnmapper/assemble/graph.py:534-541 | devices, each followed by its hosts, then the unparented, then the rest |
| `DiscoveryOrder.ListingIsANumbering` | backend/vulnmapper/assemble/graph.py:534-541 | the listing is the nodes, each once |
| `DiscoveryOrder.NumberedAsTheyCome` | backend/vulnmapper/assemble/graph.py:523-550 | of any two nodes one is numbered below the other exactly when it comes first: an earlier device and its hosts before a later one and its hosts, a device before its hosts, hosts of one parent as they were placed, the unparented after all these, what is left last as the nodes are |
| `DiscoveryOrder.ParentsComeFirst` | backend/vulnmapper/assemble/graph.py:523-550 | every parent that is a device of the graph is listed before its child |
| `DiscoveryOrder.ParentChainsEnd` | backend/vulnmapper/assemble/graph.py:543-549 | a chain of parents is no longer than its start's place allows |
| `DiscoveryOrder.StampDiscoveryOrder` | backend/vulnmapper/assemble/graph.py:523-550 | discovery_order numbers the listing of a breadth-first search, a bijection onto 0..n-1, parents before children |
| `ScanProperties.StepKeepsInv` | plugin/server/scan.ts:238-454 | every step of every callback keeps the lock's invariant |
| `ScanProperties.EveryHistoryIsSafe` | plugin/server/scan.ts:22-54 | it holds over every order of events |
| `ScanProperties.FilesAreWrittenUnderTheLock` | plugin/server/scan.ts:400-419 | a scan and a task never hold the lock together; files are written and archived only by the scan that holds it |
| `ScanSaving.SavedMeansWritten` | plugin/server/scan.ts:376-431 | over any history a scan is saved only after it read the old map, wrote the graph, moved both other files and made the archive, in that order, each but the archive with success |
| `ScanSaving.FailureSaysWhetherTheGraphWasWritten` | plugin/server/scan.ts:376-419 | a scan that cleans up after a failure reports success exactly when its graph was written |
| `ScanSaving.TempsAreThereExactlyWhen` | plugin/server/scan.ts:262-284 | over any history a temp file is there exactly when the scanner wrote it since it was last moved into place or removed |
| `ScanProperties.FreedOnceAndClean` | plugin/server/scan.ts:212-218 | each scan frees the lock once, with no temp file left, reported unless stopped |
| `ScanProperties.LastResumeFrees` | plugin/server/scan.ts:279-284 | the last file operation of a scan frees the lock with nothing left behind, reported or its stop answered; no earlier one does |
| `ScanProperties.ACallbackIsDue` | plugin/server/scan.ts:339-374 | while a scan holds the lock one of its own callbacks is due |
| `ScanProperties.EachCallbackLeavesFewer` | plugin/server/scan.ts:339-431 | each leaves one fewer of at most seven |
| `ScanProperties.SevenCallbacksFreeTheLock` | plugin/server/scan.ts:339-431 | over any history: once seven of its own callbacks have run after it held the lock, a scan has freed it |
| `ScanProperties.StopIsAnsweredExactlyWhen` | plugin/server/scan.ts:353-372 | over any history a stop request is answered exactly when at the time it is made the output is being taken in, or the scan has not ended and its child does not then fail to start |
| `ScanProperties.AStopCanBeLost` | plugin/server/scan.ts:365-373 | a history in which it is never answered |
| `ScanServer.Server.StartScan` | plugin/server/scan.ts:238-260 | refused exactly when a scan or task holds the lock; otherwise the new scan holds it and no temp file is left over |
| `ScanServer.Server.RunExclusive` | plugin/server/scan.ts:48-54 | refused exactly when a scan or task holds the lock; while the task runs no scan writes a file |
| `ScanServer.Server.StopBackgroundScan` | plugin/server/scan.ts:41-45 | asks exactly a running scan that is not manual, which is then a stopped one |
| `ScanServer.Server.StdoutEnded` | plugin/server/scan.ts:348-351 | keeps the lock's invariant; output is taken in only of a scan neither stopped nor timed out, and nothing is written yet |
| `ScanServer.Server.FailedToStart` | plugin/server/scan.ts:339-344 | keeps the lock's invariant; no output is ever taken in |
| `ScanServer.Server.Closed` | plugin/server/scan.ts:353-374 | keeps the lock's invariant; a scan that holds the lock has a file operation under way, and the callback waits exactly for a promised completion |
| `ScanServer.Server.Resumed` | plugin/server/scan.ts:376-431 | the scan goes on holding the lock, or, after its last file operation, has freed it once with no temp file left |
| `ScanServer.Server.Settled` | plugin/server/scan.ts:356-360 | a stopped scan is answered, nothing of the run is left to happen, and the rescore runs exactly for a saved graph with late records and a free lock |
| `AutoRescans.AutoRescan.OnPass` | plugin/server/autoRescan.ts:36-76 | the hook is the pass's function of the closure's state |
| `AutoRescans.StartsExactlyWhen` | plugin/server/autoRescan.ts:36-76 | over any history a pass starts a scan exactly when it is on, none runs, the lock is given, some reason of the pass is not used up, and no automatic or other scan started less than the interval ago |
| `AutoRescans.SettledIsUsedUp` | plugin/server/autoRescan.ts:46-62 | a reason is used up exactly when a completed automatic scan was started for it and every pass that looked since has given it |
| `AutoRescans.PendingIsAwaited` | plugin/server/autoRescan.ts:40-73 | what is pending are the reasons of the last scan started, until a pass looks |
| `AutoRescans.AccountsStep` | plugin/server/autoRescan.ts:46-62 | a completed scan uses up the reason it was started for |
| `AutoRescans.CompletedScansAreBounded` | plugin/server/autoRescan.ts:36-76 | unless reasons come back, automatic scans complete at most once per reason ever listed |
| `AutoRescans.StartsAreSpaced` | plugin/server/autoRescan.ts:64-73 | any two automatic starts are the back-off apart, failures as counted at the later |
| `AutoRescans.FailuresAreConsecutive` | plugin/server/autoRescan.ts:46-60 | the count is of the failures since the last completed scan |
| `AutoRescans.IntervalGrows` | plugin/server/autoRescan.ts:66 | the interval grows with the failures, within its limits |
| `AutoRescans.IntervalDoubles` | plugin/server/autoRescan.ts:66 | the interval is the configured one without failures, and doubles with each up to an hour or itself |
| `Schedule.NextRun` | plugin/server/schedule.ts:65-82 | the least slot strictly after now, for every frequency; none exactly when off |
| `Schedule.SomeHourFits` | plugin/server/schedule.ts:76-81 | the bounded loop always finds one |
| `Schedule.NextIsUnique` | plugin/server/schedule.ts:65-82 | that slot is the only such time |
| `Schedule.SlotsAreMultiples` | plugin/server/schedule.ts:65-82 | the slots are the multiples of the period from midnight, or the hour chosen of each day; off has none |
| `Schedule.Scheduler.Arm` | plugin/server/schedule.ts:127-134 | one timer, for the next slot |
| `Schedule.Scheduler.Fire` | plugin/server/schedule.ts:136-155 | a slot is run or dropped and recorded; the next armed is after both it and now, none in between; fired slots increase |
| `Schedule.Scheduler.Set` | plugin/server/schedule.ts:171-175 | a new choice is armed at once, the last run kept |
| `NvdClients.StartsSpread` | backend/vulnmapper/devicecves/nvd.py:135-146 | request starts are that many spacings apart |
| `NvdClients.RequestsFitTheBudget` | backend/vulnmapper/devicecves/nvd.py:125-147 | no more requests than spacings that fill the budget |
| `NvdClients.StartIsWithinTheBudgetExactlyWhen` | backend/vulnmapper/devicecves/nvd.py:140-147 | a start is within the budget exactly when the clock moved less after its check than was left, and every start but the last is |
| `NvdClients.AtMostFiveInThirtySeconds` | backend/vulnmapper/devicecves/nvd.py:135-146 | without a key no half-open 30 s window holds more than five |
| `NvdClients.AtMostFiftyWithAKey` | backend/vulnmapper/devicecves/nvd.py:135-146 | with a key no such window holds more than thirty-eight, of the fifty NVD allows |
| `NvdClients.NvdClient.Wait` | backend/vulnmapper/devicecves/nvd.py:128-133 | refused exactly when the wait would outlast the budget; otherwise waits that long |
| `NvdClients.CheckIsAsSoonAsSpaced` | backend/vulnmapper/devicecves/nvd.py:140-145 | a request is checked no sooner than the spacing after the last start, nor later than that or now and the clock's own moves ask for |
| `NvdClients.NvdClient.Send` | backend/vulnmapper/devicecves/nvd.py:142-155 | a request is made exactly when its check, at a time given by the clock and the last start, is within the budget; it starts one reading later, that gap logged |
| `NvdClients.AStartCanBeLate` | backend/vulnmapper/devicecves/nvd.py:144-146 | a client whose request, checked within the budget, starts after it |
| `NvdClients.NvdClient.Get` | backend/vulnmapper/devicecves/nvd.py:135-167 | at most three attempts, the second ten and the third thirty seconds after the one before at least, none after a request that got no answer; all but the last reply are retried ones, and what is found, refused or given up is what the last one says |
| `NvdClients.NvdClient.Paged` | backend/vulnmapper/devicecves/nvd.py:169-180 | at most ten pages, none once NVD is unreachable; what is found is what the pages list, up to the first after which none is asked for |
| `NvdLookups.Cache.Put` | backend/vulnmapper/devicecves/cache.py:142-147 | the answer is stored and its failure forgotten |
| `NvdLookups.Cache.PutFailure` | backend/vulnmapper/devicecves/cache.py:123-127 | the failure is dated and counted |
| `NvdLookups.Cache.FailedRecently` | backend/vulnmapper/devicecves/cache.py:112-121 | true, and counted, exactly within the hour |
| `NvdLookups.Cache.Get` | backend/vulnmapper/devicecves/cache.py:133-140 | the stored entry and whether it is fresh |
| `NvdLookups.AnswersAreKeptForDays` | backend/vulnmapper/devicecves/cache.py:133-140 | an answer is served for seven days, one that a name is not listed or a query malformed for one |
| `NvdLookups.Fetch` | backend/vulnmapper/devicecves/nvd.py:182-199 | what is found is what the pages of the replies used list; no request once NVD is unreachable |
| `NvdLookups.DataSaysWhatIsListed` | backend/vulnmapper/devicecves/nvd.py:182-199 | a name is listed exactly when some product is no deprecated one, a CVE's record is the first, any other answer is all the records in order |
| `NvdLookups.Answer` | backend/vulnmapper/devicecves/lookup.py:59-93 | an entry fresh at the clock's reading is served and nothing asked; nor is a query NVD failed on within the hour; any other answer that is not stale is what the replies list, dated then, and a failure is dated too; a stored answer is never Unanswered, no other is touched, each lookup is counted once |
| `NvdLookups.Lookup` | backend/vulnmapper/devicecves/lookup.py:107-147 | a device whose queries are stored is never unavailable; CVEs given are those of the stored answer, for a CPE only when it is not known unlisted |
| `NvdLookups.AnswerAll` | backend/vulnmapper/devicecves/lookup.py:59-93 | over any sequence of lookups a query once answered stays answered |
| `NvdLookups.RequestsAreBounded` | backend/vulnmapper/devicecves/nvd.py:125-167 | after any of them the requests fit the budget and the window |
| `Vectors.VectorStage.FieldsOf` | backend/vulnmapper/devicecves/vectors.py:127-132 | a CVE known is not asked again, for any asset |
| `Vectors.VectorStage.Assess` | backend/vulnmapper/devicecves/vectors.py:94-114 | the loop's summary is right for the rows it looked at, and it stops only where it may |
| `Vectors.UnreadRowsCannotMatter` | backend/vulnmapper/devicecves/vectors.py:94-114 | the early exit's choice is the easiest of all rows whatever the unread ones hold; unverified exactly when a row before the exit has no answer |
| `Vectors.TiesGoToTheHigherScore` | backend/vulnmapper/devicecves/vectors.py:103-106 | with the highest score first ties go to the higher score |
| `Vectors.SummaryIsOfTheRows` | backend/vulnmapper/devicecves/vectors.py:94-114 | the row found needs no privileges and no user, over the network or the segment, and no such row is easier nor any before it as easy; none is found only if there is none; rows are left unread only behind one without an answer or one that nothing beats |
| `Vectors.EasiestIsUnique` | backend/vulnmapper/devicecves/vectors.py:94-114 | there is one such row |
| `Checklist.DefaultVlanIsSettled` | backend/vulnmapper/checklist/evaluate.py:257-272 | a verdict stands whatever else is read; an unknown could still become either |
| `Checklist.DefaultVlanExactlyWhen` | backend/vulnmapper/checklist/evaluate.py:257-272 | it fails exactly when an access port was read in VLAN 1, passes exactly when each was read in another |
| `Checklist.PortSecurityIsSettled` | backend/vulnmapper/checklist/evaluate.py:297-307 | a verdict stands whatever else is read; an unknown could still fail |
| `Checklist.PortSecurityExactlyWhen` | backend/vulnmapper/checklist/evaluate.py:297-307 | it fails exactly when a port was read with port security off, there or globally, passes exactly when it is on globally and on each |
| `Checklist.GuardIsSettled` | backend/vulnmapper/checklist/tables.py:163-189 | a port's guard once told stays so |
| `Checklist.GuardIsToldExactlyWhen` | backend/vulnmapper/checklist/tables.py:163-189 | the guard is told on exactly when what was read leaves nothing else possible; off exactly when it cannot be on and the global guard was read or the port disables it |
| `Checklist.PortGuardIsSettled` | backend/vulnmapper/checklist/evaluate.py:279-291 | also through the shortcut for ports all alike |
| `Checklist.PortGuardIs` | backend/vulnmapper/checklist/evaluate.py:279-291 | the shortcut changes nothing for a port with a row; one without has the state every row has |
| `Checklist.BpduGuardIsSettled` | backend/vulnmapper/checklist/evaluate.py:274-295 | a verdict stands whatever else is read |
| `Checklist.BpduGuardExactlyWhen` | backend/vulnmapper/checklist/evaluate.py:274-295 | it fails exactly when the guard is told off on some access port, passes exactly when told on on each |
| `SparePorts.CheckSparePorts` | backend/vulnmapper/checklist/evaluate.py:214-255 | the loops compute the check; a fail lists exactly the spare ports in a VLAN in use; every port without a link is counted once |
| `SparePorts.SpareCheckFailsExactlyWhen` | backend/vulnmapper/checklist/evaluate.py:214-255 | it fails exactly when an access port that never had a link is in VLAN 1, a VLAN in use elsewhere, or one some port or interface here carries |
| `SparePorts.SpareCheckPassesExactlyWhen` | backend/vulnmapper/checklist/evaluate.py:214-255 | it passes exactly when it does not fail and what it needs of each port was read |
| `SparePorts.NoLinkIsCounted` | backend/vulnmapper/checklist/evaluate.py:230-240 | each port without a link is counted once |
| `SparePorts.AFailIsKept` | backend/vulnmapper/checklist/evaluate.py:214-255 | a fail stands whatever else is read |
| `SparePorts.APassIsKeptExactlyWhen` | backend/vulnmapper/checklist/evaluate.py:214-255 | a pass stands exactly when nothing that could put a spare port's VLAN in use was left unread |
| `SparePorts.APassIsOverturned` | backend/vulnmapper/checklist/evaluate.py:110-121 | otherwise some reading turns it into a fail |
| `SparePorts.AnUnreadVlanPasses` | backend/vulnmapper/checklist/evaluate.py:214-255 | a device whose check passes with a linked port's VLAN unread, and fails once it is read |
| `Ovss.ScoreIsBounded` | backend/vulnmapper/scoring/ovss.py:50-62 | the score is between a quarter of the CVSS score and all of it |
| `Ovss.ScoreGrows` | backend/vulnmapper/scoring/ovss.py:50-62 | raising CVSS, exposure, dependency, EPSS or KEV never lowers it |
| `Ovss.ScoreByParts` | backend/vulnmapper/scoring/ovss.py:50-62 | eight times the score is CVSS times (2 + exposure + dependency) times (1 + threat), threat being 1 for KEV or an EPSS of a tenth, ten times EPSS below that |
| `Ovss.ContextCounts` | backend/vulnmapper/scoring/ovss.py:55-56 | more exposure gives strictly more, and dependency counts alike |
| `Ovss.RoundingGrows` | backend/vulnmapper/scoring/ovss.py:103 | rounding to thousandths keeps the order |
| `Ovss.RoundingIsNearest` | backend/vulnmapper/scoring/ovss.py:103 | the published score is the nearest thousandth, the even one on a tie |
| `Ovss.TierNeverImproves` | backend/vulnmapper/scoring/ovss.py:65-74 | nor do they give a less urgent tier, overrides included |
| `Ovss.TiersExactlyWhen` | backend/vulnmapper/scoring/ovss.py:65-74 | exactly when a finding is P0, at least P1, at least P2 or P3, overrides included |
| `Ovss.DependencyOf` | backend/vulnmapper/scoring/ovss.py:89-93 | dependency is a share, never below the owner's weight |
| `Ovss.DependencyExactly` | backend/vulnmapper/scoring/ovss.py:89-93 | dependency is the share of the other nodes or the owner's mark, whichever is more, and whole when all depend on it |
| `Ovss.ExposureExactlyWhen` | backend/vulnmapper/scoring/ovss.py:77-86 | exposure is 1 exactly for the router, 0.3 exactly for a placed node none of whose VLANs is routed, else 0.5 |
| `Ovss.ImportanceGrows` | backend/vulnmapper/scoring/ovss.py:89-93 | marking an asset as more important never lowers it |
| `Ovss.MoreReachIsNoLessUrgent` | backend/vulnmapper/scoring/ovss.py:77-93 | routing more VLANs, gaining dependants or importance never lowers a finding's score nor makes it less urgent |
| `OvssNodes.GroupByCve` | backend/vulnmapper/scoring/stage.py:101-112 | each row gets its CVE's record, decided by the first row |
| `OvssNodes.OneRecordPerCve` | backend/vulnmapper/scoring/stage.py:101-112 | the records are the rows' CVEs, each once |
| `OvssNodes.RollUp` | backend/vulnmapper/scoring/ovss.py:121-151 | the histogram counts and adds up to the distinct CVEs; the node's tier is the best, its score the greatest |
| `OvssNodes.FirstListedCarriesTheNodeTier` | backend/vulnmapper/scoring/stage.py:35-70 | the first CVE listed carries the node's tier, with the highest score of that tier |
| `OvssNodes.ListedInOrder` | backend/vulnmapper/scoring/stage.py:35-42 | down the listing the tier only gets less urgent, within a tier the score falls, those without one last, and equal ones go by name |
| `OvssNodes.ListedComeFirst` | backend/vulnmapper/scoring/stage.py:49-70 | no CVE left out comes before one listed |
| `OvssNodes.SortedIsUnique` | backend/vulnmapper/scoring/stage.py:35-42 | the order is total on distinct CVEs, so there is one listing |

## Left out

- Floating point: likelihoods, scores, times and the rounding of published scores are exact reals; the search works on products, not on sums of logarithms, and ties between equally likely routes are left open as they are by the graph library.
- Start selection (`find_starts`, `_spare_starts`), dependants, per-asset summaries and narratives: the starts are inputs, and the rest is counting and text.
- Interface and VLAN names: the VLAN number a name carries is an input, not parsed.
- MACs, addresses and port names: taken as already canonical; an address carries the /24 it parses into.
- `LivenessMonitor.Monitor.Check`: does not model the port memory and the rescan suggestion after a pass (`_port_memory_and_rescan`), which read the records and change none.
- Liveness replies, port tables and client lists: arbitrary inputs of a pass; timeouts and concurrency of the probes are not modelled.
- SNMP sessions and credentials: an agent is a finite map from each OID to the row it gives next, and requests fail or are cut at arbitrary points.
- `CrawlProtocol.EveryRunIsSound`: takes what a device answers from the event; the tables' parsing, access point checks and configuration reads are not modelled.
- Merging two crawl documents (`merge_documents`) and far-side port inference.
- Wazuh and crawl inputs: endpoints have distinct agent ids and links both chassis ids; roles, VLAN stamps, warnings, display names and counters of the assembled graph are not modelled.
- `GraphDocument.WriteDocument`: takes an edge for its two ends; the ports, protocol and confidence copied onto it are in the links and placements but not on the edge.
- `AssemblyWifi.PlaceWifiClients`: assumes that a chassis id which is the text of a client's MAC is read as that MAC, which canonicalising MACs gives.
- Deleting a temp file is taken to succeed; `scan.ts` ignores a failure to delete it.
- `ScanProperties.EveryHistoryIsSafe`: assumes a child's error event comes only before any output and that one stop request is outstanding at a time; the `refining` flag, the scan's stage and its messages are display only, and each scan is taken to have an onDone.
- `Schedule.NextRun`: is in local time without time zones or clock changes; reading and writing schedule.json is not modelled.
- NVD record parsing, keyword acceptance, CVSS preference and trimming: records are opaque, with a function from a record to its four fields.
- Checks that read one value (telnet, http, SNMP version, default community) and the catalogue around them: they would only add easy members.
- Selecting a CVSS score and the threat feeds: a finding's CVSS score, EPSS and KEV membership are inputs.
- User interface code, command lines, configuration schemas, logging, and reading and writing files.
