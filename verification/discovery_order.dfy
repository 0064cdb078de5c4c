/** The discovery order of the whole graph: `_stamp_discovery_order`. */
module DiscoveryOrder {
  import opened Sequences
  import opened Wrappers
  import opened DeviceOrder

  /** The hosts in placement order, with the device each hangs off, if any. */
  type Placements = seq<(Id, Option<Id>)>

  function Hosts(placed: Placements): (ids: seq<Id>)
    ensures |ids| == |placed| && forall i | 0 <= i < |ids| :: ids[i] == placed[i].0
  {
    seq(|placed|, i requires 0 <= i < |placed| => placed[i].0)
  }

  /** The hosts on one parent (None: the unparented), in placement order. */
  function HostsOn(placed: Placements, parent: Option<Id>): (ids: seq<Id>)
    ensures forall x :: x in ids <==> (x, parent) in placed
    ensures NoRepeats(Hosts(placed)) ==> NoRepeats(ids)
  {
    if placed == [] then []
    else
      var front, last := placed[..|placed| - 1], placed[|placed| - 1];
      assert placed == front + [last];
      assert Hosts(front) == Hosts(placed)[..|front|];
      assert forall x, p | (x, p) in front :: x in Hosts(front) by {
        forall x, p | (x, p) in front ensures x in Hosts(front) {
          var i :| 0 <= i < |front| && front[i] == (x, p);
          assert Hosts(front)[i] == x;
        }
      }
      HostsOn(front, parent) + if last.1 == parent then [last.0] else []
  }

  function WithHosts(devices: seq<Id>, placed: Placements): seq<Id> {
    if devices == [] then []
    else
      var last := devices[|devices| - 1];
      WithHosts(devices[..|devices| - 1], placed) + [last] + HostsOn(placed, Some(last))
  }

  function AddMissing(listing: seq<Id>, nodes: seq<Id>): seq<Id> {
    if nodes == [] then listing
    else
      var listing', last := AddMissing(listing, nodes[..|nodes| - 1]), nodes[|nodes| - 1];
      if last in listing' then listing' else listing' + [last]
  }

  function Listing(devices: seq<Id>, placed: Placements, nodes: seq<Id>): seq<Id> {
    AddMissing(WithHosts(devices, placed) + HostsOn(placed, None), nodes)
  }

  /** The dictionary of lists: each parent's hosts, None holding the unparented. */
  ghost predicate Groups(byParent: map<Option<Id>, seq<Id>>, placed: Placements) {
    forall p :: (if p in byParent then byParent[p] else []) == HostsOn(placed, p)
  }

  lemma GroupsOneMore(byParent: map<Option<Id>, seq<Id>>, placed: Placements, i: nat, p: Option<Id>, id: Id)
    requires i < |placed| && placed[i] == (id, p) && Groups(byParent, placed[..i])
    ensures Groups(byParent[p := (if p in byParent then byParent[p] else []) + [id]], placed[..i + 1])
  {
    assert placed[..i + 1][..i] == placed[..i];
  }

  method GroupByParent(placed: Placements) returns (byParent: map<Option<Id>, seq<Id>>)
    ensures Groups(byParent, placed)
  {
    hide Groups;
    byParent := map[];
    assert Groups(byParent, placed[..0]) by { NoGroups(placed[..0]); }
    for i := 0 to |placed|
      invariant Groups(byParent, placed[..i])
    {
      var (id, p) := placed[i];
      GroupsOneMore(byParent, placed, i, p, id);
      byParent := byParent[p := (if p in byParent then byParent[p] else []) + [id]];
    }
    assert placed[..|placed|] == placed;
  }

  lemma NoGroups(placed: Placements)
    requires placed == []
    ensures Groups(map[], placed)
  {
  }

  /** The loops of `_stamp_discovery_order`. */
  method ListNodes(devices: seq<Id>, placed: Placements, nodes: seq<Id>) returns (listing: seq<Id>)
    ensures listing == Listing(devices, placed, nodes)
  {
    hide HostsOn;
    var byParent := GroupByParent(placed);
    listing := [];
    for i := 0 to |devices|
      invariant listing == WithHosts(devices[..i], placed)
    {
      assert devices[..i + 1][..i] == devices[..i];
      var d := Some(devices[i]);
      listing := listing + [devices[i]] + if d in byParent then byParent[d] else [];
    }
    assert devices[..|devices|] == devices;
    listing := listing + if None in byParent then byParent[None] else [];
    ghost var placedOnly := listing;
    for i := 0 to |nodes|
      invariant listing == AddMissing(placedOnly, nodes[..i])
    {
      assert nodes[..i + 1][..i] == nodes[..i];
      if nodes[i] !in listing {
        listing := listing + [nodes[i]];
      }
    }
    assert nodes[..|nodes|] == nodes;
  }

  // ---- a numbering of the nodes, parents first ----------------------------------------

  /** What `_document` hands over: the devices and hosts are nodes, and none is both. */
  ghost predicate Consistent(devices: seq<Id>, placed: Placements, nodes: seq<Id>) {
    && NoRepeats(devices) && NoRepeats(Hosts(placed)) && NoRepeats(nodes)
    && (forall d | d in devices :: d in nodes && d !in Hosts(placed))
    && (forall h | h in Hosts(placed) :: h in nodes)
  }

  lemma OneParent(placed: Placements, x: Id, p: Option<Id>, q: Option<Id>)
    requires NoRepeats(Hosts(placed)) && (x, p) in placed && (x, q) in placed
    ensures p == q
  {
    var i :| 0 <= i < |placed| && placed[i] == (x, p);
    var j :| 0 <= j < |placed| && placed[j] == (x, q);
    assert Hosts(placed)[i] == Hosts(placed)[j];
  }

  lemma AHost(placed: Placements, x: Id, p: Option<Id>)
    requires (x, p) in placed
    ensures x in Hosts(placed)
  {
    var i :| 0 <= i < |placed| && placed[i] == (x, p);
    assert Hosts(placed)[i] == x;
  }

  lemma JoinsWithoutRepeats(a: seq<Id>, b: seq<Id>)
    requires NoRepeats(a) && NoRepeats(b) && forall x | x in a :: x !in b
    ensures NoRepeats(a + b)
  {
    assert forall i | 0 <= i < |a| :: a[i] in a;
  }

  /** x is one of the devices, or a host on one of them. */
  ghost predicate Listed(devices: seq<Id>, placed: Placements, x: Id) {
    x in devices || exists d :: d in devices && (x, Some(d)) in placed
  }

  lemma {:induction false} WithHostsLists(devices: seq<Id>, placed: Placements)
    ensures forall x :: x in WithHosts(devices, placed) <==> Listed(devices, placed, x)
  {
    if devices != [] {
      WithHostsLists(devices[..|devices| - 1], placed);
      assert devices == devices[..|devices| - 1] + [devices[|devices| - 1]];
    }
  }

  /** A further device and its hosts are not listed yet. */
  lemma BlockIsNew(devices: seq<Id>, placed: Placements, last: Id, x: Id)
    requires last !in devices && NoRepeats(Hosts(placed)) && last !in Hosts(placed)
    requires forall d | d in devices :: d !in Hosts(placed)
    requires x == last || (x, Some(last)) in placed
    ensures !Listed(devices, placed, x)
  {
    if x != last {
      AHost(placed, x, Some(last));
    }
    if d :| d in devices && (x, Some(d)) in placed {
      AHost(placed, x, Some(d));
      if x != last {
        OneParent(placed, x, Some(d), Some(last));
      }
    }
  }

  lemma {:induction false} WithHostsIsDistinct(devices: seq<Id>, placed: Placements)
    requires NoRepeats(devices) && NoRepeats(Hosts(placed)) && forall d | d in devices :: d !in Hosts(placed)
    ensures NoRepeats(WithHosts(devices, placed))
  {
    hide HostsOn, Hosts, Listed;
    if devices != [] {
      var front, last := devices[..|devices| - 1], devices[|devices| - 1];
      var before, block := WithHosts(front, placed), [last] + HostsOn(placed, Some(last));
      WithHostsIsDistinct(front, placed);
      WithHostsLists(front, placed);
      forall x | x in block ensures x !in before {
        BlockIsNew(front, placed, last, x);
      }
      LastIsNoHost(placed, last);
      JoinsWithoutRepeats([last], HostsOn(placed, Some(last)));
      JoinsWithoutRepeats(before, block);
      assert WithHosts(devices, placed) == before + block;
    }
  }

  lemma LastIsNoHost(placed: Placements, d: Id)
    requires d !in Hosts(placed)
    ensures d !in HostsOn(placed, Some(d))
  {
    if d in HostsOn(placed, Some(d)) {
      AHost(placed, d, Some(d));
    }
  }

  lemma {:induction false} AddMissingCompletes(listing: seq<Id>, nodes: seq<Id>)
    requires NoRepeats(listing)
    ensures NoRepeats(AddMissing(listing, nodes)) && listing <= AddMissing(listing, nodes)
    ensures forall x :: x in AddMissing(listing, nodes) <==> x in listing || x in nodes
  {
    if nodes != [] {
      AddMissingCompletes(listing, nodes[..|nodes| - 1]);
      assert nodes == nodes[..|nodes| - 1] + [nodes[|nodes| - 1]];
    }
  }

  /** The order numbers every node of the graph once, from 0 up: it lists the nodes,
      all of them, without repeats. */
  lemma ListingIsANumbering(devices: seq<Id>, placed: Placements, nodes: seq<Id>)
    requires Consistent(devices, placed, nodes)
    ensures var listing := Listing(devices, placed, nodes);
            && NoRepeats(listing) && |listing| == |nodes| && multiset(listing) == multiset(nodes)
            && WithHosts(devices, placed) <= listing
  {
    var placedDevices, unparented := WithHosts(devices, placed), HostsOn(placed, None);
    WithHostsIsDistinct(devices, placed);
    WithHostsLists(devices, placed);
    forall x | x in placedDevices ensures x in nodes && x !in unparented {
      if x in unparented {
        AHost(placed, x, None);
      }
      if d :| d in devices && (x, Some(d)) in placed {
        AHost(placed, x, Some(d));
        if x in unparented {
          OneParent(placed, x, Some(d), None);
        }
      }
    }
    forall x | x in unparented ensures x in nodes {
      AHost(placed, x, None);
    }
    JoinsWithoutRepeats(placedDevices, unparented);
    AddMissingCompletes(placedDevices + unparented, nodes);
    SameElements(Listing(devices, placed, nodes), nodes);
  }

  lemma {:induction false} SameElements(a: seq<Id>, b: seq<Id>)
    requires NoRepeats(a) && NoRepeats(b) && forall x :: x in a <==> x in b
    ensures multiset(a) == multiset(b) && |a| == |b|
  {
    forall x ensures multiset(a)[x] == multiset(b)[x] {
      Multiplicity(a, x);
      Multiplicity(b, x);
    }
    assert |multiset(a)| == |a| && |multiset(b)| == |b|;
  }

  lemma {:induction false} Multiplicity(a: seq<Id>, x: Id)
    requires NoRepeats(a)
    ensures multiset(a)[x] == if x in a then 1 else 0
  {
    if a != [] {
      Multiplicity(a[..|a| - 1], x);
      assert a == a[..|a| - 1] + [a[|a| - 1]];
    }
  }

  // ---- parents first --------------------------------------------------------------------

  lemma PrefixPrecedes(order: seq<Id>, longer: seq<Id>, u: Id, v: Id)
    requires order <= longer && Precedes(order, u, v)
    ensures Precedes(longer, u, v)
  {
    var i, j :| 0 <= i < j < |order| && order[i] == u && order[j] == v;
    assert longer[i] == u && longer[j] == v;
  }

  lemma LaterPrecedes(before: seq<Id>, after: seq<Id>, u: Id, v: Id)
    requires u in before && v in after
    ensures Precedes(before + after, u, v)
  {
    var i :| 0 <= i < |before| && before[i] == u;
    var j :| 0 <= j < |after| && after[j] == v;
    assert (before + after)[i] == u && (before + after)[|before| + j] == v;
  }

  /** Putting the hosts in keeps the devices in order. */
  lemma {:induction false} HostsKeepTheOrder(devices: seq<Id>, placed: Placements, u: Id, v: Id)
    requires Precedes(devices, u, v)
    ensures Precedes(WithHosts(devices, placed), u, v)
  {
    hide HostsOn;
    var front, last := devices[..|devices| - 1], devices[|devices| - 1];
    var before, block := WithHosts(front, placed), [last] + HostsOn(placed, Some(last));
    assert WithHosts(devices, placed) == before + block;
    var i, j :| 0 <= i < j < |devices| && devices[i] == u && devices[j] == v;
    if j < |front| {
      assert front[i] == u && front[j] == v;
      HostsKeepTheOrder(front, placed, u, v);
      PrefixPrecedes(before, before + block, u, v);
    } else {
      DevicesAreListed(front, placed, u);
      LaterPrecedes(before, block, u, v);
    }
  }

  lemma {:induction false} DevicesAreListed(devices: seq<Id>, placed: Placements, u: Id)
    requires u in devices
    ensures u in WithHosts(devices, placed)
  {
    if u != devices[|devices| - 1] {
      DevicesAreListed(devices[..|devices| - 1], placed, u);
    }
  }

  lemma {:induction false} HostsFollowTheirDevice(devices: seq<Id>, placed: Placements, d: Id, h: Id)
    requires d in devices && (h, Some(d)) in placed
    ensures Precedes(WithHosts(devices, placed), d, h)
  {
    var front, last := devices[..|devices| - 1], devices[|devices| - 1];
    var before, hosts := WithHosts(front, placed), HostsOn(placed, Some(last));
    assert WithHosts(devices, placed) == before + [last] + hosts;
    if d == last {
      LaterPrecedes(before + [last], hosts, d, h);
    } else {
      HostsFollowTheirDevice(front, placed, d, h);
      PrefixPrecedes(before, before + [last] + hosts, d, h);
    }
  }

  /** The parent stamped on a node: a device's from the search, a host's from its placement. */
  ghost predicate IsParent(parent: map<Id, Option<Id>>, placed: Placements, x: Id, p: Id) {
    (x in parent && parent[x] == Some(p)) || (x, Some(p)) in placed
  }

  /** Every parent that is a device of the graph comes before its child; a device's
      parent always is one. */
  lemma ParentsComeFirst(devices: seq<Id>, edges: seq<Edge>, order: seq<Id>, f: Forest, placed: Placements,
                         nodes: seq<Id>, x: Id, p: Id)
    requires IsBfs(devices, edges, order, f) && Consistent(order, placed, nodes)
    requires IsParent(f.parent, placed, x, p) && ((x, Some(p)) in placed ==> p in devices)
    ensures Precedes(Listing(order, placed, nodes), p, x)
  {
    hide HostsOn;
    if (x, Some(p)) in placed {
      HostsFollowTheirDevice(order, placed, p, x);
    } else {
      Parent(devices, edges, order, f, x);
      HostsKeepTheOrder(order, placed, p, x);
    }
    ListingIsANumbering(order, placed, nodes);
    PrefixPrecedes(WithHosts(order, placed), Listing(order, placed, nodes), p, x);
  }

  /** A node's place in the numbering. */
  function Place(listing: seq<Id>, x: Id): (i: nat)
    requires x in listing
    ensures i < |listing| && listing[i] == x
  {
    if listing[0] == x then 0 else 1 + Place(listing[1..], x)
  }

  /** A chain of parents: each node's parent is the next. */
  ghost predicate IsChain(parent: map<Id, Option<Id>>, placed: Placements, chain: seq<Id>) {
    forall i | 0 < i < |chain| :: IsParent(parent, placed, chain[i - 1], chain[i])
  }

  /** Chains of parents end: one starting at x is no longer than x's place in the
      numbering allows. */
  lemma {:induction false} ParentChainsEnd(devices: seq<Id>, edges: seq<Edge>, order: seq<Id>, f: Forest,
                                           placed: Placements, nodes: seq<Id>, chain: seq<Id>)
    requires IsBfs(devices, edges, order, f) && Consistent(order, placed, nodes)
    requires forall h, d | (h, Some(d)) in placed :: d in devices
    requires chain != [] && IsChain(f.parent, placed, chain) && chain[0] in Listing(order, placed, nodes)
    ensures |chain| <= 1 + Place(Listing(order, placed, nodes), chain[0])
    decreases |chain|
  {
    hide IsBfs, Consistent, IsParent, Listing;
    if |chain| > 1 {
      var listing := Listing(order, placed, nodes);
      assert IsParent(f.parent, placed, chain[0], chain[1]);
      ParentsComeFirst(devices, edges, order, f, placed, nodes, chain[0], chain[1]);
      ListingIsANumbering(order, placed, nodes);
      var i, j :| 0 <= i < j < |listing| && listing[i] == chain[1] && listing[j] == chain[0];
      assert IsChain(f.parent, placed, chain[1..]) by {
        forall k | 0 < k < |chain[1..]| ensures IsParent(f.parent, placed, chain[1..][k - 1], chain[1..][k]) {
          assert IsParent(f.parent, placed, chain[k], chain[k + 1]);
        }
      }
      ParentChainsEnd(devices, edges, order, f, placed, nodes, chain[1..]);
    }
  }

  // ---- the order, read without the listing ----------------------------------------------

  /** x is the device d or a host on it. */
  ghost predicate IsOf(placed: Placements, d: Id, x: Id) {
    x == d || (x, Some(d)) in placed
  }

  /** x is placed before y, on the same parent (None: both are unparented). */
  ghost predicate IsOlderSibling(placed: Placements, parent: Option<Id>, x: Id, y: Id) {
    exists i, j | 0 <= i < j < |placed| :: placed[i] == (x, parent) && placed[j] == (y, parent)
  }

  /** Neither a device, nor a host on one, nor unparented. */
  ghost predicate IsLeftOver(devices: seq<Id>, placed: Placements, x: Id) {
    !Listed(devices, placed, x) && (x, None) !in placed
  }

  /** An earlier device and its hosts come before a later one and its hosts; a device before
      its own hosts, which keep the order they were placed in; the unparented come after all of
      these, in the order they were placed in; what is left comes last, in the nodes' order. */
  ghost predicate ComesBefore(devices: seq<Id>, placed: Placements, nodes: seq<Id>, x: Id, y: Id) {
    || (exists d, e | Precedes(devices, d, e) :: IsOf(placed, d, x) && IsOf(placed, e, y))
    || (x in devices && (y, Some(x)) in placed)
    || (exists d | d in devices :: IsOlderSibling(placed, Some(d), x, y))
    || (Listed(devices, placed, x) && (y, None) in placed)
    || IsOlderSibling(placed, None, x, y)
    || (!IsLeftOver(devices, placed, x) && y in nodes && IsLeftOver(devices, placed, y))
    || (Precedes(nodes, x, y) && IsLeftOver(devices, placed, x) && IsLeftOver(devices, placed, y))
  }

  lemma SuffixPrecedes(before: seq<Id>, order: seq<Id>, u: Id, v: Id)
    requires Precedes(order, u, v)
    ensures Precedes(before + order, u, v)
  {
    var i, j :| 0 <= i < j < |order| && order[i] == u && order[j] == v;
    assert (before + order)[|before| + i] == u && (before + order)[|before| + j] == v;
  }

  lemma {:induction false} SiblingsKeepTheirOrder(placed: Placements, p: Option<Id>, x: Id, y: Id)
    requires IsOlderSibling(placed, p, x, y)
    ensures Precedes(HostsOn(placed, p), x, y)
  {
    var i, j :| 0 <= i < j < |placed| && placed[i] == (x, p) && placed[j] == (y, p);
    var front := placed[..|placed| - 1];
    if j < |front| {
      assert front[i] == (x, p) && front[j] == (y, p);
      SiblingsKeepTheirOrder(front, p, x, y);
      PrefixPrecedes(HostsOn(front, p), HostsOn(placed, p), x, y);
    } else {
      assert front[i] == (x, p);
      LaterPrecedes(HostsOn(front, p), [y], x, y);
    }
  }

  lemma {:induction false} HostsOnOneKeepTheirOrder(devices: seq<Id>, placed: Placements, d: Id, x: Id, y: Id)
    requires d in devices && IsOlderSibling(placed, Some(d), x, y)
    ensures Precedes(WithHosts(devices, placed), x, y)
  {
    hide HostsOn, IsOlderSibling;
    var front, last := devices[..|devices| - 1], devices[|devices| - 1];
    var before, hosts := WithHosts(front, placed), HostsOn(placed, Some(last));
    assert WithHosts(devices, placed) == before + [last] + hosts;
    if d == last {
      SiblingsKeepTheirOrder(placed, Some(d), x, y);
      SuffixPrecedes(before + [last], hosts, x, y);
    } else {
      HostsOnOneKeepTheirOrder(front, placed, d, x, y);
      PrefixPrecedes(before, before + [last] + hosts, x, y);
    }
  }

  lemma {:induction false} BlocksKeepTheirOrder(devices: seq<Id>, placed: Placements, d: Id, e: Id, x: Id, y: Id)
    requires Precedes(devices, d, e) && IsOf(placed, d, x) && IsOf(placed, e, y)
    ensures Precedes(WithHosts(devices, placed), x, y)
  {
    hide HostsOn;
    var front, last := devices[..|devices| - 1], devices[|devices| - 1];
    var before, block := WithHosts(front, placed), [last] + HostsOn(placed, Some(last));
    assert WithHosts(devices, placed) == before + block;
    var i, j :| 0 <= i < j < |devices| && devices[i] == d && devices[j] == e;
    assert front[i] == d;
    if j < |front| {
      assert front[j] == e;
      BlocksKeepTheirOrder(front, placed, d, e, x, y);
      PrefixPrecedes(before, before + block, x, y);
    } else {
      assert y in block by { IsInBlock(placed, last, y); }
      WithHostsLists(front, placed);
      LaterPrecedes(before, block, x, y);
    }
  }

  lemma IsInBlock(placed: Placements, d: Id, x: Id)
    requires IsOf(placed, d, x)
    ensures x in [d] + HostsOn(placed, Some(d))
  {
  }

  lemma {:induction false} LeftOversAreAdded(listing: seq<Id>, nodes: seq<Id>, y: Id)
    requires y in nodes && y !in listing
    ensures exists after :: AddMissing(listing, nodes) == listing + after && y in after
  {
    var front, last := nodes[..|nodes| - 1], nodes[|nodes| - 1];
    var before := AddMissing(listing, front);
    if y in front {
      LeftOversAreAdded(listing, front, y);
      var after :| before == listing + after && y in after;
      assert AddMissing(listing, nodes) == listing + (after + if last in before then [] else [last]);
    } else {
      AddMissingAdds(listing, front);
      assert AddMissing(listing, nodes) == listing + (before[|listing|..] + [last]);
    }
  }

  /** Only nodes are added, after what is listed. */
  lemma {:induction false} AddMissingAdds(listing: seq<Id>, nodes: seq<Id>)
    ensures listing <= AddMissing(listing, nodes)
    ensures forall x :: x in AddMissing(listing, nodes) <==> x in listing || x in nodes
  {
    if nodes != [] {
      AddMissingAdds(listing, nodes[..|nodes| - 1]);
      assert nodes == nodes[..|nodes| - 1] + [nodes[|nodes| - 1]];
    }
  }

  lemma {:induction false} LeftOversKeepTheirOrder(listing: seq<Id>, nodes: seq<Id>, x: Id, y: Id)
    requires NoRepeats(nodes) && Precedes(nodes, x, y) && x !in listing && y !in listing
    ensures Precedes(AddMissing(listing, nodes), x, y)
  {
    var front, last := nodes[..|nodes| - 1], nodes[|nodes| - 1];
    var before := AddMissing(listing, front);
    var i, j :| 0 <= i < j < |nodes| && nodes[i] == x && nodes[j] == y;
    assert front[i] == x;
    if j < |front| {
      assert front[j] == y;
      LeftOversKeepTheirOrder(listing, front, x, y);
      PrefixPrecedes(before, AddMissing(listing, nodes), x, y);
    } else {
      AddMissingAdds(listing, front);
      LaterPrecedes(before, [last], x, y);
    }
  }

  /** The listing has x before y whenever x comes before y. */
  lemma ListingKeepsTheOrder(devices: seq<Id>, placed: Placements, nodes: seq<Id>, x: Id, y: Id)
    requires Consistent(devices, placed, nodes) && ComesBefore(devices, placed, nodes, x, y)
    ensures Precedes(Listing(devices, placed, nodes), x, y)
  {
    hide HostsOn, Precedes, Listed, IsOf, IsOlderSibling, AddMissing, WithHosts;
    var onDevices, unparented := WithHosts(devices, placed), HostsOn(placed, None);
    WithHostsLists(devices, placed);
    AddMissingAdds(onDevices + unparented, nodes);
    if Precedes(onDevices + unparented, x, y) {
      PrefixPrecedes(onDevices + unparented, Listing(devices, placed, nodes), x, y);
    }
    if d, e :| Precedes(devices, d, e) && IsOf(placed, d, x) && IsOf(placed, e, y) {
      BlocksKeepTheirOrder(devices, placed, d, e, x, y);
      PrefixPrecedes(onDevices, onDevices + unparented, x, y);
    } else if x in devices && (y, Some(x)) in placed {
      HostsFollowTheirDevice(devices, placed, x, y);
      PrefixPrecedes(onDevices, onDevices + unparented, x, y);
    } else if d :| d in devices && IsOlderSibling(placed, Some(d), x, y) {
      HostsOnOneKeepTheirOrder(devices, placed, d, x, y);
      PrefixPrecedes(onDevices, onDevices + unparented, x, y);
    } else if Listed(devices, placed, x) && (y, None) in placed {
      LaterPrecedes(onDevices, unparented, x, y);
    } else if IsOlderSibling(placed, None, x, y) {
      SiblingsKeepTheirOrder(placed, None, x, y);
      SuffixPrecedes(onDevices, unparented, x, y);
    } else if !IsLeftOver(devices, placed, x) {
      LeftOversAreAdded(onDevices + unparented, nodes, y);
      var after :| Listing(devices, placed, nodes) == onDevices + unparented + after && y in after;
      LaterPrecedes(onDevices + unparented, after, x, y);
    } else {
      LeftOversKeepTheirOrder(onDevices + unparented, nodes, x, y);
    }
  }

  // ---- the stamp --------------------------------------------------------------------------

  /** The stamped numbers run from 0 to n - 1 over the nodes, each used once. */
  ghost predicate IsNumbering(number: map<Id, nat>, nodes: seq<Id>) {
    && (forall x :: x in number <==> x in nodes)
    && (forall x | x in number :: number[x] < |nodes|)
    && (forall x, y | x in number && y in number && number[x] == number[y] :: x == y)
    && forall n: nat | n < |nodes| :: IsUsed(number, n)
  }

  ghost predicate IsUsed(number: map<Id, nat>, n: nat) {
    exists x :: x in number && number[x] == n
  }

  ghost predicate NumbersInOrder(number: map<Id, nat>, listing: seq<Id>) {
    && (forall x :: x in number <==> x in listing)
    && forall i | 0 <= i < |listing| :: number[listing[i]] == i
  }

  lemma IndexOf<T>(s: seq<T>, x: T) returns (i: nat)
    requires x in s
    ensures i < |s| && s[i] == x
  {
    i :| i < |s| && s[i] == x;
  }

  lemma OneSiblingIsOlder(placed: Placements, p: Option<Id>, x: Id, y: Id)
    requires (x, p) in placed && (y, p) in placed && x != y
    ensures IsOlderSibling(placed, p, x, y) || IsOlderSibling(placed, p, y, x)
  {
    var i := IndexOf(placed, (x, p));
    var j := IndexOf(placed, (y, p));
  }

  lemma OnePrecedes(s: seq<Id>, x: Id, y: Id)
    requires x in s && y in s && x != y
    ensures Precedes(s, x, y) || Precedes(s, y, x)
  {
    var i := IndexOf(s, x);
    var j := IndexOf(s, y);
  }

  lemma HasADevice(devices: seq<Id>, placed: Placements, x: Id) returns (d: Id)
    requires Listed(devices, placed, x)
    ensures d in devices && IsOf(placed, d, x)
  {
    if x in devices {
      d := x;
    } else {
      d :| d in devices && (x, Some(d)) in placed;
    }
  }

  /** Of any two nodes one comes first. */
  lemma OneComesFirst(devices: seq<Id>, placed: Placements, nodes: seq<Id>, x: Id, y: Id)
    requires x in nodes && y in nodes && x != y
    ensures ComesBefore(devices, placed, nodes, x, y) || ComesBefore(devices, placed, nodes, y, x)
  {
    hide Listed, IsOlderSibling, Precedes;
    if Listed(devices, placed, x) && Listed(devices, placed, y) {
      var d := HasADevice(devices, placed, x);
      var e := HasADevice(devices, placed, y);
      if d != e {
        OnePrecedes(devices, d, e);
      } else if x != d && y != d {
        OneSiblingIsOlder(placed, Some(d), x, y);
      }
    } else if (x, None) in placed && (y, None) in placed {
      OneSiblingIsOlder(placed, None, x, y);
    } else {
      OnePrecedes(nodes, x, y);
    }
  }

  /** One node's number is below another's exactly when it comes before it. */
  lemma NumberedAsTheyCome(devices: seq<Id>, placed: Placements, nodes: seq<Id>, number: map<Id, nat>, x: Id, y: Id)
    requires Consistent(devices, placed, nodes) && NumbersInOrder(number, Listing(devices, placed, nodes))
    requires x in number && y in number && x in nodes && y in nodes && x != y
    ensures number[x] < number[y] <==> ComesBefore(devices, placed, nodes, x, y)
  {
    hide Consistent, Listing, ComesBefore;
    OneComesFirst(devices, placed, nodes, x, y);
    if ComesBefore(devices, placed, nodes, x, y) {
      ListingKeepsTheOrder(devices, placed, nodes, x, y);
    }
    if ComesBefore(devices, placed, nodes, y, x) {
      ListingKeepsTheOrder(devices, placed, nodes, y, x);
    }
  }

  /** `enumerate`: each listed node gets its place. */
  method NumberNodes(listing: seq<Id>) returns (number: map<Id, nat>)
    requires NoRepeats(listing)
    ensures NumbersInOrder(number, listing)
  {
    number := map[];
    for i := 0 to |listing|
      invariant forall x :: x in number <==> x in listing[..i]
      invariant forall k | 0 <= k < i :: listing[k] in number && number[listing[k]] == k
    {
      number := number[listing[i] := i];
      assert listing[..i + 1] == listing[..i] + [listing[i]];
    }
    assert listing[..|listing|] == listing;
  }

  lemma PlacesAreANumbering(listing: seq<Id>, nodes: seq<Id>, number: map<Id, nat>)
    requires |listing| == |nodes| && multiset(listing) == multiset(nodes)
    requires NumbersInOrder(number, listing)
    ensures IsNumbering(number, nodes) && forall x :: x in number <==> x in nodes
  {
    assert forall x :: x in listing <==> x in multiset(listing);
    assert forall x :: x in nodes <==> x in multiset(nodes);
    forall n: nat | n < |nodes| ensures IsUsed(number, n) {
      assert listing[n] in number;
    }
    forall x | x in number ensures number[x] < |nodes| && listing[number[x]] == x {
      var i :| 0 <= i < |listing| && listing[i] == x;
    }
  }

  function ParentsOfHosts(placed: Placements): (parents: map<Id, Option<Id>>)
    ensures forall x :: x in parents <==> x in Hosts(placed)
    ensures forall x | x in parents :: (x, parents[x]) in placed
  {
    if placed == [] then map[]
    else
      var front, (id, p) := placed[..|placed| - 1], placed[|placed| - 1];
      assert placed == front + [(id, p)] && Hosts(placed) == Hosts(front) + [id];
      ParentsOfHosts(front)[id := p]
  }

  lemma TheirParents(placed: Placements, x: Id, p: Option<Id>)
    requires NoRepeats(Hosts(placed)) && (x, p) in placed
    ensures x in ParentsOfHosts(placed) && ParentsOfHosts(placed)[x] == p
  {
    AHost(placed, x, p);
    OneParent(placed, x, p, ParentsOfHosts(placed)[x]);
  }

  /** The devices' parents and the hosts' are the parents of all the nodes. */
  lemma ParentsCover(devices: seq<Id>, placed: Placements, nodes: seq<Id>, of: map<Id, Option<Id>>)
    requires Consistent(devices, placed, nodes) && forall x | x in nodes :: x in devices || x in Hosts(placed)
    requires forall d :: d in of <==> d in devices
    ensures var parent := of + ParentsOfHosts(placed);
            && (forall x :: x in parent <==> x in nodes)
            && (forall h, d | (h, d) in placed :: h in parent && parent[h] == d)
            && (forall d | d in devices :: d in parent && parent[d] == of[d])
            && forall x, p | x in parent && parent[x] == Some(p) :: IsParent(of, placed, x, p)
  {
    hide Hosts, ParentsOfHosts;
    forall h, d | (h, d) in placed ensures h in ParentsOfHosts(placed) && ParentsOfHosts(placed)[h] == d {
      TheirParents(placed, h, d);
    }
  }

  lemma NumbersFollowParents(devices: seq<Id>, edges: seq<Edge>, order: seq<Id>, f: Forest, placed: Placements,
                             nodes: seq<Id>, number: map<Id, nat>, parent: map<Id, Option<Id>>)
    requires IsBfs(devices, edges, order, f) && Consistent(order, placed, nodes)
    requires NumbersInOrder(number, Listing(order, placed, nodes)) && forall x :: x in number <==> x in nodes
    requires forall h, d | (h, Some(d)) in placed && d in nodes :: d in devices
    requires forall x, p | x in parent && parent[x] == Some(p) :: IsParent(f.parent, placed, x, p)
    requires parent.Keys == number.Keys
    ensures forall x, p | x in parent && parent[x] == Some(p) && p in number :: number[p] < number[x]
  {
    hide IsBfs, Consistent, Listing, IsParent;
    forall x, p | x in parent && parent[x] == Some(p) && p in number ensures number[p] < number[x] {
      ParentsComeFirst(devices, edges, order, f, placed, nodes, x, p);
    }
  }

  /** `_stamp_discovery_order`: the nodes numbered from 0 as the listing of a breadth-first
      search has them, each parent that is in the graph before its children. */
  method StampDiscoveryOrder(devices: seq<Id>, edges: seq<Edge>, placed: Placements, nodes: seq<Id>)
    returns (number: map<Id, nat>, parent: map<Id, Option<Id>>, ghost order: seq<Id>, ghost forest: Forest)
    requires Consistent(devices, placed, nodes)
    requires forall x | x in nodes :: x in devices || x in Hosts(placed)
    requires forall h, d | (h, Some(d)) in placed && d in nodes :: d in devices
    ensures IsBfs(devices, edges, order, forest) && NumbersInOrder(number, Listing(order, placed, nodes))
    ensures IsNumbering(number, nodes) && (forall x :: x in parent <==> x in nodes)
    ensures forall h, d | (h, d) in placed :: h in parent && parent[h] == d
    ensures forall d | d in devices :: d in forest.parent && parent[d] == forest.parent[d]
    ensures forall d | d in devices && parent[d].Some? ::
              parent[d].value in devices && Linked(edges, parent[d].value, d)
    ensures forall x, p | x in parent && parent[x] == Some(p) && p in number :: number[p] < number[x]
  {
    hide IsBfs, Linked, HostsOn, Listing, Hosts, ParentsOfHosts, IsNumbering, IsParent, NumbersInOrder;
    var found, deviceParent, tree := BfsDeviceOrder(devices, edges);
    order, forest := found, tree;
    OrderIsConsistent(devices, edges, order, forest, placed, nodes);
    var listing := ListNodes(found, placed, nodes);
    ListingIsANumbering(order, placed, nodes);
    number := NumberNodes(listing);
    PlacesAreANumbering(listing, nodes, number);
    parent := deviceParent + ParentsOfHosts(placed);
    ParentsCover(devices, placed, nodes, deviceParent);
    NumbersFollowParents(devices, edges, order, forest, placed, nodes, number, parent);
    forall d | d in devices && parent[d].Some? ensures parent[d].value in devices && Linked(edges, parent[d].value, d) {
      Parent(devices, edges, order, forest, d);
    }
  }

  lemma OrderIsConsistent(devices: seq<Id>, edges: seq<Edge>, order: seq<Id>, f: Forest, placed: Placements,
                          nodes: seq<Id>)
    requires IsBfs(devices, edges, order, f) && Consistent(devices, placed, nodes)
    ensures Consistent(order, placed, nodes) && forall v :: v in f.parent <==> v in devices
  {
    hide Rooted, Closed;
  }
}
