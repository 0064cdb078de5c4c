/** The spare-port check: access ports with no link since boot, in a VLAN in use. */
module SparePorts {
  import opened Checklist
  import opened Wrappers

  /** An interface: its state, when that last changed (hundredths of a second of
      uptime), and the VLAN number its name carries, if any. */
  datatype Interface = Interface(oper: Option<int>, lastChange: Option<int>, named: Option<nat>)

  datatype Device = Device(interfaces: map<IfIndex, Interface>, uptime: Option<int>, vlans: map<IfIndex, nat>)

  predicate NoLink(d: Device, i: IfIndex) {
    i in d.interfaces && d.interfaces[i].oper.Some? && d.interfaces[i].oper.value in NO_LINK
  }

  predicate Linked(d: Device, i: IfIndex) {
    i in d.interfaces && d.interfaces[i].oper == Some(UP)
  }

  /** When the link went cannot be told. */
  predicate IsUnclear(d: Device, i: IfIndex) {
    && NoLink(d, i)
    && (d.uptime.None? || d.interfaces[i].lastChange.None? || d.interfaces[i].lastChange.value > d.uptime.value)
  }

  /** No link since the device booted. */
  predicate IsSpare(d: Device, i: IfIndex) {
    NoLink(d, i) && !IsUnclear(d, i) && d.interfaces[i].lastChange.value <= BOOT_WINDOW_S * 100
  }

  predicate IsVlan(v: nat) {
    1 <= v <= 4094
  }

  /** `l3_vlans`: an up layer-3 interface is named for the VLAN. */
  predicate IsRouted(d: Device, v: nat) {
    exists i :: i in d.interfaces && IsUpFor(d.interfaces[i], v)
  }

  predicate IsUpFor(x: Interface, v: nat) {
    x.oper == Some(UP) && x.named == Some(v) && IsVlan(v)
  }

  /** An access port of the VLAN has a link. */
  predicate HasLink(ports: set<IfIndex>, d: Device, v: nat) {
    exists i :: i in ports && Linked(d, i) && VlanOf(d.vlans, i) == Some(v)
  }

  /** The VLAN is in use, here or elsewhere in the graph. */
  predicate InUse(ports: set<IfIndex>, d: Device, elsewhere: set<nat>, v: nat) {
    v == DEFAULT_VLAN || v in elsewhere || IsRouted(d, v) || HasLink(ports, d, v)
  }

  predicate IsFound(ports: set<IfIndex>, d: Device, elsewhere: set<nat>, i: IfIndex) {
    IsSpare(d, i) && VlanOf(d.vlans, i).Some? && InUse(ports, d, elsewhere, VlanOf(d.vlans, i).value)
  }

  /** What the check needs of a port was read. */
  predicate IsRead(d: Device, i: IfIndex) {
    i in d.interfaces && d.interfaces[i].oper.Some? && !IsUnclear(d, i) && (IsSpare(d, i) ==> VlanOf(d.vlans, i).Some?)
  }

  function SpareCheck(ports: set<IfIndex>, d: Device, elsewhere: set<nat>): Result {
    if d.vlans == map[] then Unknown
    else if exists i :: i in ports && IsFound(ports, d, elsewhere, i) then Fail
    else if exists i :: i in ports && !IsRead(d, i) then Unknown
    else Pass
  }

  /** The loops of `spare_ports`: every port without a link is spare, lost its link
      later, or is unclear; a fail lists exactly the spare ports in a VLAN in use. */
  method CheckSparePorts(ports: seq<IfIndex>, d: Device, elsewhere: set<nat>)
    returns (r: Result, found: seq<IfIndex>, recent: nat, unclear: nat, ghost spare: seq<IfIndex>)
    requires forall i | i in ports :: i in d.interfaces
    ensures r == SpareCheck((set i | i in ports), d, elsewhere)
    ensures d.vlans != map[] ==>
              && (forall i :: i in found <==> i in ports && IsFound((set i | i in ports), d, elsewhere, i))
              && |spare| + recent + unclear == CountNoLink(ports, d)
    ensures r == Fail ==> found != []
  {
    hide InUse, IsSpare, IsUnclear, NoLink;
    ghost var all := set i | i in ports;
    found, recent, unclear, spare := [], 0, 0, [];
    if d.vlans == map[] {
      return Unknown, [], 0, 0, [];
    }
    var kept: seq<IfIndex> := [];
    for k := 0 to |ports|
      invariant forall i :: i in kept <==> i in ports[..k] && IsSpare(d, i)
      invariant unclear > 0 <==> exists i :: i in ports[..k] && IsUnclear(d, i)
      invariant |kept| + recent + unclear == CountNoLink(ports[..k], d)
    {
      var i := ports[k];
      assert ports[..k + 1] == ports[..k] + [i] && ports[..k + 1][..k] == ports[..k];
      SpareIsNoLink(d, i);
      if NoLink(d, i) {
        if IsUnclear(d, i) {
          unclear := unclear + 1;
        } else if IsSpare(d, i) {
          kept := kept + [i];
        } else {
          recent := recent + 1;
        }
      }
    }
    assert ports[..|ports|] == ports;
    spare := kept;
    var missing := false;
    for k := 0 to |kept|
      invariant forall i :: i in found <==> i in kept[..k] && IsFound(all, d, elsewhere, i)
      invariant missing <==> exists i :: i in kept[..k] && VlanOf(d.vlans, i).None?
    {
      var i := kept[k];
      assert kept[..k + 1] == kept[..k] + [i];
      var v := VlanOf(d.vlans, i);
      if v.None? {
        missing := true;
      } else {
        var used := IsInUse(ports, d, elsewhere, v.value);
        if used {
          found := found + [i];
        }
      }
    }
    assert kept[..|kept|] == kept;
    if found != [] {
      assert found[0] in found;
      return Fail, found, recent, unclear, spare;
    }
    var unread := exists i :: i in ports && d.interfaces[i].oper.None?;
    r := if unread || unclear > 0 || missing then Unknown else Pass;
    UnknownIsRight(ports, d, elsewhere, unread, unclear > 0, missing);
  }

  lemma SpareIsNoLink(d: Device, i: IfIndex)
    ensures IsSpare(d, i) || IsUnclear(d, i) ==> NoLink(d, i)
    ensures !(IsSpare(d, i) && IsUnclear(d, i))
  {
  }

  lemma UnknownIsRight(ports: seq<IfIndex>, d: Device, elsewhere: set<nat>, unread: bool, unclear: bool, missing: bool)
    requires forall i | i in ports :: i in d.interfaces
    requires unread <==> exists i :: i in ports && d.interfaces[i].oper.None?
    requires unclear <==> exists i :: i in ports && IsUnclear(d, i)
    requires missing <==> exists i :: i in ports && IsSpare(d, i) && VlanOf(d.vlans, i).None?
    ensures (exists i :: i in (set i | i in ports) && !IsRead(d, i)) <==> unread || unclear || missing
  {
    hide IsUnclear, IsSpare;
    var all := set i | i in ports;
    assert forall i | i in ports :: i in all;
    if i :| i in all && !IsRead(d, i) {
      assert i in ports;
      assert d.interfaces[i].oper.None? || IsUnclear(d, i) || (IsSpare(d, i) && VlanOf(d.vlans, i).None?);
    }
    if unread {
      var i :| i in ports && d.interfaces[i].oper.None?;
      assert i in all && !IsRead(d, i);
    } else if unclear {
      var i :| i in ports && IsUnclear(d, i);
      assert i in all && !IsRead(d, i);
    } else if missing {
      var i :| i in ports && IsSpare(d, i) && VlanOf(d.vlans, i).None?;
      assert i in all && !IsRead(d, i);
    }
  }

  function CountNoLink(ports: seq<IfIndex>, d: Device): nat {
    if ports == [] then 0
    else CountNoLink(ports[..|ports| - 1], d) + if NoLink(d, ports[|ports| - 1]) then 1 else 0
  }

  method IsInUse(ports: seq<IfIndex>, d: Device, elsewhere: set<nat>, v: nat) returns (yes: bool)
    ensures yes <==> InUse((set i | i in ports), d, elsewhere, v)
  {
    var linked := exists i :: i in ports && Linked(d, i) && VlanOf(d.vlans, i) == Some(v);
    assert linked <==> HasLink((set i | i in ports), d, v);
    yes := v == DEFAULT_VLAN || v in elsewhere || IsRouted(d, v) || linked;
  }

  // ---- reading more -----------------------------------------------------------------------

  ghost predicate InterfaceFills(before: Interface, after: Interface) {
    Kept(before.oper, after.oper) && Kept(before.lastChange, after.lastChange) && after.named == before.named
  }

  /** More has been read of the same interfaces. */
  ghost predicate DeviceFills(before: Device, after: Device) {
    && before.interfaces.Keys == after.interfaces.Keys && Kept(before.uptime, after.uptime)
    && VlansFill(before.vlans, after.vlans)
    && forall i | i in before.interfaces :: InterfaceFills(before.interfaces[i], after.interfaces[i])
  }

  lemma SpareStays(before: Device, after: Device, i: IfIndex)
    requires DeviceFills(before, after)
    ensures IsSpare(before, i) ==> IsSpare(after, i)
    ensures Linked(before, i) ==> Linked(after, i)
    ensures Kept(VlanOf(before.vlans, i), VlanOf(after.vlans, i))
    ensures IsRead(before, i) ==>
              IsRead(after, i) && (IsSpare(after, i) ==> IsSpare(before, i)) && (Linked(after, i) ==> Linked(before, i))
  {
    if i in before.interfaces {
      assert InterfaceFills(before.interfaces[i], after.interfaces[i]);
    }
  }

  lemma UseStays(ports: set<IfIndex>, before: Device, after: Device, elsewhere: set<nat>, v: nat)
    requires DeviceFills(before, after) && InUse(ports, before, elsewhere, v)
    ensures InUse(ports, after, elsewhere, v)
  {
    if i :| i in ports && Linked(before, i) && VlanOf(before.vlans, i) == Some(v) {
      SpareStays(before, after, i);
      assert HasLink(ports, after, v);
    } else if i :| i in before.interfaces && IsUpFor(before.interfaces[i], v) {
      assert InterfaceFills(before.interfaces[i], after.interfaces[i]) && IsUpFor(after.interfaces[i], v);
    }
  }

  /** A fail stands whatever else is read. */
  lemma AFailIsKept(ports: set<IfIndex>, before: Device, after: Device, elsewhere: set<nat>)
    requires DeviceFills(before, after) && SpareCheck(ports, before, elsewhere) == Fail
    ensures SpareCheck(ports, after, elsewhere) == Fail
  {
    hide InUse, IsSpare;
    var i :| i in ports && IsFound(ports, before, elsewhere, i);
    SpareStays(before, after, i);
    UseStays(ports, before, after, elsewhere, VlanOf(before.vlans, i).value);
    assert i in after.vlans;
  }

  /** The VLAN of every linked access port was read, or no port is spare; and no
      interface whose state was not read is named for a spare port's VLAN. */
  ghost predicate UseIsRead(ports: set<IfIndex>, d: Device) {
    && ((forall i | i in ports && Linked(d, i) :: VlanOf(d.vlans, i).Some?) || !exists i :: i in ports && IsSpare(d, i))
    && forall j,
      i | j in d.interfaces && i in ports && IsSpare(d, i) :: !CouldBeUpFor(d.interfaces[j], VlanOf(d.vlans, i))
  }

  predicate CouldBeUpFor(x: Interface, v: Option<nat>) {
    x.oper.None? && x.named.Some? && x.named == v && IsVlan(v.value)
  }

  lemma UseIsUnchanged(ports: set<IfIndex>, before: Device, after: Device, elsewhere: set<nat>, i: IfIndex)
    requires DeviceFills(before, after) && UseIsRead(ports, before) && (forall k | k in ports :: IsRead(before, k))
    requires i in ports && IsFound(ports, after, elsewhere, i)
    ensures IsFound(ports, before, elsewhere, i)
  {
    hide IsSpare, IsRead;
    SpareStays(before, after, i);
    assert IsSpare(before, i) && VlanOf(before.vlans, i) == VlanOf(after.vlans, i) by {
      SpareWasRead(before, i);
    }
    var v := VlanOf(after.vlans, i).value;
    if k :| k in ports && Linked(after, k) && VlanOf(after.vlans, k) == Some(v) {
      SpareStays(before, after, k);
      assert HasLink(ports, before, v);
    } else if j :| j in after.interfaces && IsUpFor(after.interfaces[j], v) {
      assert InterfaceFills(before.interfaces[j], after.interfaces[j]);
      assert !CouldBeUpFor(before.interfaces[j], VlanOf(before.vlans, i));
      assert IsUpFor(before.interfaces[j], v);
    }
  }

  lemma SpareWasRead(d: Device, i: IfIndex)
    requires IsRead(d, i) && IsSpare(d, i)
    ensures VlanOf(d.vlans, i).Some?
  {
  }

  /** A pass stands whatever else is read exactly when nothing that could put a spare
      port's VLAN in use was left unread. */
  lemma APassIsKeptExactlyWhen(ports: set<IfIndex>, d: Device, elsewhere: set<nat>)
    requires SpareCheck(ports, d, elsewhere) == Pass
    ensures UseIsRead(ports, d) <==> forall more | DeviceFills(d, more) :: SpareCheck(ports, more, elsewhere) == Pass
  {
    hide InUse, IsSpare, IsRead, IsFound, DeviceFills, UseIsRead;
    if UseIsRead(ports, d) {
      forall more | DeviceFills(d, more) ensures SpareCheck(ports, more, elsewhere) == Pass {
        APassIsKept(ports, d, more, elsewhere);
      }
    } else {
      var more := APassIsOverturned(ports, d, elsewhere);
    }
  }

  lemma APassIsKept(ports: set<IfIndex>, d: Device, more: Device, elsewhere: set<nat>)
    requires SpareCheck(ports, d, elsewhere) == Pass && UseIsRead(ports, d) && DeviceFills(d, more)
    ensures SpareCheck(ports, more, elsewhere) == Pass
  {
    hide InUse, IsSpare, IsRead, IsFound, UseIsRead;
    assert exists i :: i in d.vlans && i in more.vlans by {
      var i :| i in d.vlans;
      assert i in more.vlans;
    }
    forall i | i in ports ensures !IsFound(ports, more, elsewhere, i) && IsRead(more, i) {
      SpareStays(d, more, i);
      if IsFound(ports, more, elsewhere, i) {
        UseIsUnchanged(ports, d, more, elsewhere, i);
      }
    }
  }

  /** Reading the missing VLAN of a linked port, or an interface as up, as the spare
      port's turns the pass into a fail. */
  lemma APassIsOverturned(ports: set<IfIndex>, d: Device, elsewhere: set<nat>) returns (more: Device)
    requires SpareCheck(ports, d, elsewhere) == Pass && !UseIsRead(ports, d)
    ensures DeviceFills(d, more) && SpareCheck(ports, more, elsewhere) == Fail
  {
    hide InUse, IsUnclear;
    if j, i :| j in d.interfaces && i in ports && IsSpare(d, i) && CouldBeUpFor(d.interfaces[j], VlanOf(d.vlans, i)) {
      more := d.(interfaces := d.interfaces[j := d.interfaces[j].(oper := Some(UP))]);
      FillsOne(d, j, Some(UP), d.vlans);
      SpareStays(d, more, i);
      assert IsUpFor(more.interfaces[j], VlanOf(d.vlans, i).value);
      UsedByRoute(ports, more, elsewhere, VlanOf(d.vlans, i).value);
      assert IsFound(ports, more, elsewhere, i);
    } else {
      var k :| k in ports && Linked(d, k) && VlanOf(d.vlans, k).None?;
      var i :| i in ports && IsSpare(d, i);
      assert IsRead(d, i);
      var v := VlanOf(d.vlans, i).value;
      more := d.(vlans := d.vlans[k := v]);
      FillsVlan(d, k, v);
      SpareStays(d, more, i);
      SpareStays(d, more, k);
      UsedByLink(ports, more, elsewhere, k, v);
      assert IsFound(ports, more, elsewhere, i);
    }
  }

  lemma FillsOne(d: Device, j: IfIndex, oper: Option<int>, vlans: map<IfIndex, nat>)
    requires j in d.interfaces && d.interfaces[j].oper.None?
    ensures DeviceFills(d, d.(interfaces := d.interfaces[j := d.interfaces[j].(oper := oper)]))
  {
  }

  lemma FillsVlan(d: Device, k: IfIndex, v: nat)
    requires VlanOf(d.vlans, k).None?
    ensures DeviceFills(d, d.(vlans := d.vlans[k := v]))
  {
  }

  lemma UsedByRoute(ports: set<IfIndex>, d: Device, elsewhere: set<nat>, v: nat)
    requires IsRouted(d, v)
    ensures InUse(ports, d, elsewhere, v)
  {
  }

  lemma UsedByLink(ports: set<IfIndex>, d: Device, elsewhere: set<nat>, k: IfIndex, v: nat)
    requires k in ports && Linked(d, k) && VlanOf(d.vlans, k) == Some(v)
    ensures InUse(ports, d, elsewhere, v)
  {
  }

  /** Port 1 has had no link and is in VLAN 20; port 2 is up, its VLAN not read. The check
      passes, and reading VLAN 20 for port 2 turns it into a fail. */
  lemma AnUnreadVlanPasses() returns (d: Device, more: Device)
    ensures d == Device(map[1 := Interface(Some(2), Some(0), None), 2 := Interface(Some(UP), Some(0), None)],
                        Some(9_000_000), map[1 := 20])
    ensures SpareCheck({1, 2}, d, {}) == Pass && !UseIsRead({1, 2}, d)
    ensures more == d.(vlans := map[1 := 20, 2 := 20]) && DeviceFills(d, more)
    ensures SpareCheck({1, 2}, more, {}) == Fail
  {
    d := Device(map[1 := Interface(Some(2), Some(0), None), 2 := Interface(Some(UP), Some(0), None)],
                Some(9_000_000), map[1 := 20]);
    more := d.(vlans := map[1 := 20, 2 := 20]);
    assert IsSpare(d, 1) && IsRead(d, 1) && IsRead(d, 2) && !HasLink({1, 2}, d, 20) && !IsRouted(d, 20);
    assert Linked(d, 2) && VlanOf(d.vlans, 2).None?;
    assert d.vlans[2 := 20] == more.vlans;
    UsedByLink({1, 2}, more, {}, 2, 20);
    assert IsFound({1, 2}, more, {}, 1);
  }

  // ---- what the check says of the device ---------------------------------------------------------

  /** The port has had no link since the device started: it is down (2), not present (6) or down
      below (7), and last changed within 300 seconds of the start, in hundredths of a second. */
  ghost predicate NeverLinked(d: Device, i: IfIndex) {
    && i in d.interfaces && d.interfaces[i].oper.Some? && d.interfaces[i].oper.value in {2, 6, 7}
    && d.uptime.Some? && d.interfaces[i].lastChange.Some?
    && d.interfaces[i].lastChange.value <= d.uptime.value && d.interfaces[i].lastChange.value <= 30_000
  }

  /** An access port of the VLAN is up (1), or an interface that is up carries its number. */
  ghost predicate IsCarried(ports: set<IfIndex>, d: Device, v: nat) {
    || (exists k :: && k in ports && k in d.interfaces && d.interfaces[k].oper == Some(1)
                    && k in d.vlans && d.vlans[k] == v)
    || (1 <= v <= 4094
        && exists k :: k in d.interfaces && d.interfaces[k].oper == Some(1) && d.interfaces[k].named == Some(v))
  }

  /** It fails exactly when an access port without a link since the start is in VLAN 1, a VLAN
      in use elsewhere, or one that some port or interface here carries. */
  lemma SpareCheckFailsExactlyWhen(ports: set<IfIndex>, d: Device, elsewhere: set<nat>)
    ensures SpareCheck(ports, d, elsewhere) == Fail
            <==> exists i :: && i in ports && NeverLinked(d, i) && i in d.vlans && d.vlans[i] > 0
                             && (d.vlans[i] == 1 || d.vlans[i] in elsewhere || IsCarried(ports, d, d.vlans[i]))
  {
    hide NoLink, IsUnclear;
    forall i ensures NeverLinked(d, i) <==> IsSpare(d, i) {
      NeverLinkedIsSpare(d, i);
    }
    forall v: nat | v > 0
      ensures InUse(ports, d, elsewhere, v) <==> v == 1 || v in elsewhere || IsCarried(ports, d, v)
    {
      CarriedIsInUse(ports, d, elsewhere, v);
    }
  }

  lemma NeverLinkedIsSpare(d: Device, i: IfIndex)
    ensures NeverLinked(d, i) <==> IsSpare(d, i)
  {
  }

  lemma CarriedIsInUse(ports: set<IfIndex>, d: Device, elsewhere: set<nat>, v: nat)
    requires v > 0
    ensures InUse(ports, d, elsewhere, v) <==> v == 1 || v in elsewhere || IsCarried(ports, d, v)
  {
    if k :| k in ports && Linked(d, k) && VlanOf(d.vlans, k) == Some(v) {
      assert d.vlans[k] == v;
    }
    if k :| k in d.interfaces && IsUpFor(d.interfaces[k], v) {
      assert d.interfaces[k].oper == Some(1) && d.interfaces[k].named == Some(v);
    }
    if k :| k in d.interfaces && d.interfaces[k].oper == Some(1) && d.interfaces[k].named == Some(v) && v <= 4094 {
      assert IsUpFor(d.interfaces[k], v);
    }
    if k :| k in ports && k in d.interfaces && d.interfaces[k].oper == Some(1) && k in d.vlans && d.vlans[k] == v {
      assert Linked(d, k) && VlanOf(d.vlans, k) == Some(v);
    }
  }

  /** It passes exactly when some VLAN was read, it does not fail, and of every access port the
      state was read, and of one without a link when that went, and of a spare one its VLAN. */
  lemma SpareCheckPassesExactlyWhen(ports: set<IfIndex>, d: Device, elsewhere: set<nat>)
    ensures SpareCheck(ports, d, elsewhere) == Pass
            <==> && d.vlans != map[] && SpareCheck(ports, d, elsewhere) != Fail
                 && forall i | i in ports ::
                      && i in d.interfaces && d.interfaces[i].oper.Some?
                      && (d.interfaces[i].oper.value in {2, 6, 7} ==>
                            && d.uptime.Some? && d.interfaces[i].lastChange.Some?
                            && d.interfaces[i].lastChange.value <= d.uptime.value)
                      && (NeverLinked(d, i) ==> i in d.vlans && d.vlans[i] > 0)
  {
    hide InUse, NeverLinked, IsSpare;
    forall i ensures NeverLinked(d, i) <==> IsSpare(d, i) {
      NeverLinkedIsSpare(d, i);
    }
  }

  /** The ports of a list that have no link. */
  function NotLinked(ports: seq<IfIndex>, d: Device): (down: set<IfIndex>)
    ensures forall i :: i in down <==>
              i in ports && i in d.interfaces && d.interfaces[i].oper in {Some(2), Some(6), Some(7)}
  {
    set i | i in ports && i in d.interfaces && d.interfaces[i].oper in {Some(2), Some(6), Some(7)}
  }

  lemma NoLinkIs(d: Device, i: IfIndex)
    ensures NoLink(d, i) <==> i in d.interfaces && d.interfaces[i].oper in {Some(2), Some(6), Some(7)}
  {
  }

  lemma OneMorePort(front: seq<IfIndex>, last: IfIndex, d: Device)
    requires last !in front
    ensures last !in NotLinked(front, d)
    ensures NotLinked(front + [last], d) == NotLinked(front, d) + if NoLink(d, last) then {last} else {}
  {
    NoLinkIs(d, last);
  }

  /** Each port without a link is counted once. */
  lemma {:induction false} NoLinkIsCounted(ports: seq<IfIndex>, d: Device)
    requires forall i, j | 0 <= i < j < |ports| :: ports[i] != ports[j]
    ensures CountNoLink(ports, d) == |NotLinked(ports, d)|
  {
    hide NoLink;
    if ports == [] {
      assert NotLinked(ports, d) == {};
    } else {
      var front, last := ports[..|ports| - 1], ports[|ports| - 1];
      NoLinkIsCounted(front, d);
      assert ports == front + [last] && last !in front;
      OneMorePort(front, last, d);
    }
  }
}
