/** The port checks on partly read tables: reading more overturns no verdict. */
module Checklist {
  import opened Wrappers

  datatype Result = Pass | Fail | Unknown

  type IfIndex = nat

  const DEFAULT_VLAN: nat := 1
  const UP: int := 1
  const NO_LINK: set<int> := {2, 6, 7}
  const BOOT_WINDOW_S: int := 300

  predicate IsVerdict(r: Result) {
    r == Pass || r == Fail
  }

  /** A value read stays what it is. */
  ghost predicate Kept<T>(before: Option<T>, after: Option<T>) {
    before.Some? ==> after == before
  }

  // ---- VLANs -----------------------------------------------------------------------------

  /** A port's VLAN; missing or 0 is not read. */
  function VlanOf(vlans: map<IfIndex, nat>, i: IfIndex): Option<nat> {
    if i in vlans && vlans[i] != 0 then Some(vlans[i]) else None
  }

  /** More of the VLAN table has been read. */
  ghost predicate VlansFill(before: map<IfIndex, nat>, after: map<IfIndex, nat>) {
    before.Keys <= after.Keys && forall i | i in before :: Kept(VlanOf(before, i), VlanOf(after, i))
  }

  function DefaultVlan(ports: set<IfIndex>, vlans: map<IfIndex, nat>): Result {
    if vlans == map[] then Unknown
    else if exists i :: i in ports && VlanOf(vlans, i) == Some(DEFAULT_VLAN) then Fail
    else if exists i :: i in ports && VlanOf(vlans, i).None? then Unknown
    else Pass
  }

  /** A verdict stands whatever else is read; and while there is none, and some port to
      ask about, what is not read could still make it either. */
  lemma DefaultVlanIsSettled(ports: set<IfIndex>, vlans: map<IfIndex, nat>)
    ensures IsVerdict(DefaultVlan(ports, vlans)) ==>
              forall more | VlansFill(vlans, more) :: DefaultVlan(ports, more) == DefaultVlan(ports, vlans)
    ensures DefaultVlan(ports, vlans) == Unknown && ports != {} ==>
              && (exists more :: VlansFill(vlans, more) && DefaultVlan(ports, more) == Fail)
              && exists more :: VlansFill(vlans, more) && DefaultVlan(ports, more) == Pass
  {
    if DefaultVlan(ports, vlans) == Unknown && ports != {} {
      var p :| p in ports && VlanOf(vlans, p).None?;
      FillsVlans(ports, vlans, 1);
      FillsVlans(ports, vlans, 2);
      assert VlanOf(FilledVlans(ports, vlans, 1), p) == Some(1);
      assert DefaultVlan(ports, FilledVlans(ports, vlans, 1)) == Fail;
      forall i | i in ports ensures VlanOf(FilledVlans(ports, vlans, 2),
                                           i).Some? && VlanOf(FilledVlans(ports, vlans, 2), i) != Some(1) {
      }
      assert p in FilledVlans(ports, vlans, 2);
      assert DefaultVlan(ports, FilledVlans(ports, vlans, 2)) == Pass;
    }
  }

  /** The table with every port not read put in one VLAN. */
  function FilledVlans(ports: set<IfIndex>, vlans: map<IfIndex, nat>, v: nat): map<IfIndex, nat> {
    map i | i in vlans.Keys + ports :: if VlanOf(vlans, i).Some? then vlans[i] else v
  }

  lemma FillsVlans(ports: set<IfIndex>, vlans: map<IfIndex, nat>, v: nat)
    ensures VlansFill(vlans, FilledVlans(ports, vlans, v))
  {
  }

  // ---- port security -----------------------------------------------------------------------

  datatype PortSecurity = PortSecurity(global: Option<bool>, ports: map<IfIndex, bool>)

  ghost predicate SecurityFills(before: PortSecurity, after: PortSecurity) {
    && Kept(before.global, after.global)
    && forall i | i in before.ports :: i in after.ports && after.ports[i] == before.ports[i]
  }

  function PortSecurityCheck(ports: set<IfIndex>, ps: Option<PortSecurity>): Result {
    if ps.None? || ps.value.global.None? then Unknown
    else if exists i :: i in ports && i in ps.value.ports && !(ps.value.global.value && ps.value.ports[i]) then Fail
    else if exists i :: i in ports && i !in ps.value.ports then Unknown
    else Pass
  }

  lemma PortSecurityIsSettled(ports: set<IfIndex>, ps: PortSecurity)
    ensures IsVerdict(PortSecurityCheck(ports, Some(ps))) ==>
              forall more | SecurityFills(ps, more) ::
                PortSecurityCheck(ports, Some(more)) == PortSecurityCheck(ports, Some(ps))
    ensures PortSecurityCheck(ports, Some(ps)) == Unknown && ports != {} ==>
              exists more :: SecurityFills(ps, more) && PortSecurityCheck(ports, Some(more)) == Fail
  {
    if IsVerdict(PortSecurityCheck(ports, Some(ps))) {
      forall more | SecurityFills(ps, more)
        ensures PortSecurityCheck(ports, Some(more)) == PortSecurityCheck(ports, Some(ps)) {
        if PortSecurityCheck(ports, Some(ps)) == Fail {
          var i :| i in ports && i in ps.ports && !(ps.global.value && ps.ports[i]);
          assert i in more.ports;
        }
      }
    } else if ports != {} {
      var off := PortSecurity(Some(if ps.global.Some? then ps.global.value else false),
                              map i | i in ps.ports.Keys + ports :: if i in ps.ports then ps.ports[i] else false);
      var p :| p in ports && (ps.global.Some? ==> p !in ps.ports);
      assert SecurityFills(ps, off) && p in off.ports;
      assert PortSecurityCheck(ports, Some(off)) == Fail;
    }
  }

  // ---- BPDU guard --------------------------------------------------------------------------

  datatype StpPort = StpPort(portfast: Option<int>, guard: Option<int>)

  datatype Bpdu = Bpdu(globalGuard: Option<bool>, globalPortfast: Option<int>, ports: map<nat, StpPort>)

  /** `bpdu_guard_on`: whether the guard is effective on a bridge port, if it can be told. */
  function GuardOn(b: Bpdu, bp: nat): Option<bool> {
    if bp !in b.ports || b.ports[bp].guard.None? then None
    else if b.ports[bp].guard.value == 1 then Some(true)
    else if b.ports[bp].guard.value == 2 then Some(false)
    else if b.globalGuard.None? then None
    else if !b.globalGuard.value then Some(false)
    else
      match b.ports[bp].portfast
      case None => None
      case Some(mode) =>
        if mode == 1 || mode == 3 then Some(true)
        else if mode != 4 then Some(false)
        else if b.globalPortfast.None? then None
        else Some(b.globalPortfast.value == 1)
  }

  /** More of the rows has been read, the rows being the same. */
  ghost predicate BpduFills(before: Bpdu, after: Bpdu) {
    && before.ports.Keys == after.ports.Keys && Kept(before.globalGuard, after.globalGuard)
    && Kept(before.globalPortfast, after.globalPortfast)
    && forall bp | bp in before.ports :: Kept(before.ports[bp].portfast, after.ports[bp].portfast)
                                          && Kept(before.ports[bp].guard, after.ports[bp].guard)
  }

  lemma GuardIsSettled(before: Bpdu, after: Bpdu, bp: nat)
    requires BpduFills(before, after)
    ensures Kept(GuardOn(before, bp), GuardOn(after, bp))
  {
  }

  /** All bridge ports have this one state. */
  predicate AllAlike(b: Bpdu, state: Option<bool>) {
    b.ports != map[] && forall bp | bp in b.ports :: GuardOn(b, bp) == state
  }

  /** A port's state: the common one, else its bridge port's. */
  function PortGuard(b: Bpdu, toBridge: map<IfIndex, nat>, i: IfIndex): Option<bool> {
    if AllAlike(b, Some(true)) then Some(true)
    else if AllAlike(b, Some(false)) then Some(false)
    else if AllAlike(b, None) then None
    else if i in toBridge then GuardOn(b, toBridge[i]) else None
  }

  function BpduGuardCheck(ports: set<IfIndex>, b: Option<Bpdu>, toBridge: map<IfIndex, nat>): Result {
    if b.None? then Unknown
    else if exists i :: i in ports && PortGuard(b.value, toBridge, i) == Some(false) then Fail
    else if exists i :: i in ports && PortGuard(b.value, toBridge, i) == None then Unknown
    else Pass
  }

  /** Reading more can make all ports alike, but only in the state already known. */
  lemma PortGuardIsSettled(before: Bpdu, after: Bpdu, toBridge: map<IfIndex, nat>, i: IfIndex)
    requires BpduFills(before, after)
    ensures Kept(PortGuard(before, toBridge, i), PortGuard(after, toBridge, i))
  {
    hide GuardOn;
    forall bp ensures Kept(GuardOn(before, bp), GuardOn(after, bp)) {
      GuardIsSettled(before, after, bp);
    }
    GuardNeedsARow(before);
    GuardNeedsARow(after);
    if AllAlike(before, Some(true)) {
      assert AllAlike(after, Some(true));
    } else if AllAlike(before, Some(false)) {
      var bp :| bp in before.ports;
      assert AllAlike(after, Some(false)) && GuardOn(after, bp) == Some(false);
    }
  }

  lemma GuardNeedsARow(b: Bpdu)
    ensures forall bp :: GuardOn(b, bp).Some? ==> bp in b.ports
  {
  }

  lemma BpduGuardIsSettled(ports: set<IfIndex>, before: Bpdu, after: Bpdu, toBridge: map<IfIndex, nat>)
    requires BpduFills(before, after) && IsVerdict(BpduGuardCheck(ports, Some(before), toBridge))
    ensures BpduGuardCheck(ports, Some(after), toBridge) == BpduGuardCheck(ports, Some(before), toBridge)
  {
    hide PortGuard, BpduFills;
    forall i ensures Kept(PortGuard(before, toBridge, i), PortGuard(after, toBridge, i)) {
      PortGuardIsSettled(before, after, toBridge, i);
    }
    if BpduGuardCheck(ports, Some(before), toBridge) == Fail {
      var i :| i in ports && PortGuard(before, toBridge, i) == Some(false);
      assert PortGuard(after, toBridge, i) == Some(false);
    }
  }

  // ---- what a verdict says of the device ------------------------------------------------------

  /** It fails exactly when an access port was read to be in VLAN 1, and passes exactly when
      each was read to be in another. */
  lemma DefaultVlanExactlyWhen(ports: set<IfIndex>, vlans: map<IfIndex, nat>)
    ensures DefaultVlan(ports, vlans) == Fail <==> exists i :: i in ports && i in vlans && vlans[i] == 1
    ensures DefaultVlan(ports, vlans) == Pass
            <==> vlans != map[] && forall i | i in ports :: i in vlans && vlans[i] > 1
  {
    if i :| i in ports && i in vlans && vlans[i] == 1 {
      assert VlanOf(vlans, i) == Some(1);
    }
  }

  /** It fails exactly when the global setting was read and a port was read with port security
      off, there or globally; and passes exactly when it is on globally and on every port. */
  lemma PortSecurityExactlyWhen(ports: set<IfIndex>, ps: PortSecurity)
    ensures PortSecurityCheck(ports, Some(ps)) == Fail
            <==> && ps.global.Some?
                 && exists i :: i in ports && i in ps.ports && (ps.global == Some(false) || !ps.ports[i])
    ensures PortSecurityCheck(ports, Some(ps)) == Pass
            <==> && ps.global.Some? && (forall i | i in ports :: i in ps.ports && ps.ports[i])
                 && (ports != {} ==> ps.global == Some(true))
    ensures PortSecurityCheck(ports, None) == Unknown
  {
    if ports != {} {
      var i :| i in ports;
    }
  }

  /** The guard is effective on a port, all settings known: it is enabled there (1), or left to
      the default (neither 1 nor disabled, 2) with the global guard on and port fast on: on the
      port (1), for a trunk (3), or by the default (4) that the global setting (1) turns on. */
  ghost predicate IsEffective(guard: int, globalGuard: bool, portfast: int, globalPortfast: int) {
    || guard == 1
    || (guard != 2 && globalGuard && (portfast in {1, 3} || (portfast == 4 && globalPortfast == 1)))
  }

  /** What was read of a port allows the guard to be on, or off. */
  ghost predicate CouldBe(b: Bpdu, bp: nat, on: bool)
    requires bp in b.ports
  {
    exists guard, globalGuard, portfast, globalPortfast ::
      && Kept(b.ports[bp].guard, Some(guard)) && Kept(b.globalGuard, Some(globalGuard))
      && Kept(b.ports[bp].portfast, Some(portfast)) && Kept(b.globalPortfast, Some(globalPortfast))
      && IsEffective(guard, globalGuard, portfast, globalPortfast) == on
  }

  lemma Possible(b: Bpdu, bp: nat, guard: int, globalGuard: bool, portfast: int, globalPortfast: int)
    requires bp in b.ports
    requires Kept(b.ports[bp].guard, Some(guard)) && Kept(b.globalGuard, Some(globalGuard))
    requires Kept(b.ports[bp].portfast, Some(portfast)) && Kept(b.globalPortfast, Some(globalPortfast))
    ensures CouldBe(b, bp, IsEffective(guard, globalGuard, portfast, globalPortfast))
  {
  }

  /** The guard is called on exactly when what was read leaves nothing else possible. It is
      called off exactly when it cannot be on and, unless it is disabled on the port, the
      global guard was read: without that it stays unknown even on a port that port fast
      leaves out. */
  lemma GuardIsToldExactlyWhen(b: Bpdu, bp: nat)
    ensures GuardOn(b, bp).Some? ==> bp in b.ports
    ensures bp in b.ports ==> (GuardOn(b, bp) == Some(true) <==> !CouldBe(b, bp, false))
    ensures bp in b.ports ==>
              (GuardOn(b, bp) == Some(false)
               <==> !CouldBe(b, bp, true) && (b.globalGuard.Some? || b.ports[bp].guard == Some(2)))
  {
    if bp in b.ports {
      var g, m := b.ports[bp].guard, b.ports[bp].portfast;
      var gg, gp := b.globalGuard, b.globalPortfast;
      Possible(b, bp, g.GetOr(1), gg.GetOr(true), m.GetOr(1), gp.GetOr(1));
      Possible(b, bp, g.GetOr(2), gg.GetOr(false), m.GetOr(2), gp.GetOr(2));
    }
  }

  /** All settings known, the port's guard is told as it is. */
  lemma KnownGuardIsEffective(b: Bpdu, bp: nat)
    requires bp in b.ports && b.ports[bp].guard.Some? && b.ports[bp].portfast.Some?
    requires b.globalGuard.Some? && b.globalPortfast.Some?
    ensures GuardOn(b, bp) == Some(IsEffective(b.ports[bp].guard.value, b.globalGuard.value,
                                               b.ports[bp].portfast.value, b.globalPortfast.value))
  {
  }

  /** The state of the port's row; of a port without a row, the one that every row has. */
  ghost predicate IsTold(b: Bpdu, toBridge: map<IfIndex, nat>, i: IfIndex, on: bool) {
    if i in toBridge && toBridge[i] in b.ports then GuardOn(b, toBridge[i]) == Some(on)
    else b.ports != map[] && forall bp | bp in b.ports :: GuardOn(b, bp) == Some(on)
  }

  /** The shortcut for ports all alike changes nothing for a port with a row. */
  lemma PortGuardIs(b: Bpdu, toBridge: map<IfIndex, nat>, i: IfIndex, on: bool)
    ensures PortGuard(b, toBridge, i) == Some(on) <==> IsTold(b, toBridge, i, on)
  {
    hide GuardOn;
    GuardNeedsARow(b);
    if b.ports != map[] {
      var bp :| bp in b.ports;
    }
  }

  /** It fails exactly when the guard is told to be off on some access port, and passes
      exactly when it is told to be on on each. */
  lemma BpduGuardExactlyWhen(ports: set<IfIndex>, b: Bpdu, toBridge: map<IfIndex, nat>)
    ensures BpduGuardCheck(ports, Some(b), toBridge) == Fail
            <==> exists i :: i in ports && IsTold(b, toBridge, i, false)
    ensures BpduGuardCheck(ports, Some(b), toBridge) == Pass
            <==> forall i | i in ports :: IsTold(b, toBridge, i, true)
    ensures BpduGuardCheck(ports, None, toBridge) == Unknown
  {
    hide IsTold, PortGuard;
    forall i | i in ports
      ensures IsTold(b, toBridge, i, true) <==> PortGuard(b, toBridge, i) == Some(true)
      ensures IsTold(b, toBridge, i, false) <==> PortGuard(b, toBridge, i) == Some(false)
      ensures PortGuard(b, toBridge, i) in {Some(true), Some(false), None}
    {
      PortGuardIs(b, toBridge, i, true);
      PortGuardIs(b, toBridge, i, false);
      assert var g := PortGuard(b, toBridge, i); g.None? || g.value == true || g.value == false;
    }
  }
}
