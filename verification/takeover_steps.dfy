/** How an asset is taken over: the best step of its CVEs and findings. */
module TakeoverSteps {
  import opened Wrappers

  datatype Vector = Network | Adjacent | OtherVector
  datatype Complexity = Low | Medium | High | OtherComplexity

  /** A CVE row that carries the four exploitability fields. */
  datatype Cve = Cve(id: string, vector: Vector, complexity: Complexity,
                     needsPrivileges: bool, needsInteraction: bool, cvss: Option<real>)

  /** A configuration finding, by its check's id: the four that give a step, in
      the order of their ids, and any other. */
  datatype Check =
    | MgmtHttpEnabled
    | MgmtTelnetEnabled
    | SnmpDefaultCommunity
    | SnmpNoAuth
    | OtherCheck(id: string)
  {
    /** The place of the id among the four, in string order. */
    function Place(): nat {
      match this
      case MgmtHttpEnabled => 0
      case MgmtTelnetEnabled => 1
      case SnmpDefaultCommunity => 2
      case SnmpNoAuth => 3
      case OtherCheck(_) => 4
    }
  }

  datatype Step =
    | Weakness(cve: Cve, value: real)
    | Misconfiguration(check: Check, value: real)

  /** NIST IR 7788 likelihood by attack complexity. */
  function StepValue(c: Complexity): (v: Option<real>)
    ensures v.Some? ==> 0.0 < v.value < 1.0
  {
    match c
    case Low => Some(0.9)
    case Medium => Some(0.6)
    case High => Some(0.2)
    case OtherComplexity => None
  }

  /** The CVSS v2 Access Complexity the catalogue quotes for a check. */
  function AccessComplexity(c: Check): Option<Complexity> {
    match c
    case SnmpDefaultCommunity => Some(Low)
    case MgmtTelnetEnabled | MgmtHttpEnabled | SnmpNoAuth => Some(High)
    case OtherCheck(_) => None
  }

  predicate Qualifies(c: Cve, crossRouter: bool) {
    && !c.needsPrivileges
    && !c.needsInteraction
    && (c.vector == Network || (c.vector == Adjacent && !crossRouter))
  }

  predicate Usable(c: Cve, crossRouter: bool) {
    Qualifies(c, crossRouter) && StepValue(c.complexity).Some?
  }

  /** Greater by value, then by score. */
  predicate Easier(c: Cve, d: Cve)
    requires StepValue(c.complexity).Some? && StepValue(d.complexity).Some?
  {
    var v, w := StepValue(c.complexity).value, StepValue(d.complexity).value;
    v > w || (v == w && c.cvss.GetOr(0.0) > d.cvss.GetOr(0.0))
  }

  /** Index of the easiest usable CVE among the first n, the earliest of its ties. */
  function BestIndex(rows: seq<Cve>, crossRouter: bool, n: nat): (best: Option<nat>)
    requires n <= |rows|
    ensures best.Some? ==> best.value < n && Usable(rows[best.value], crossRouter)
  {
    if n == 0 then None
    else
      var best := BestIndex(rows, crossRouter, n - 1);
      if Usable(rows[n - 1], crossRouter) && (best.None? || Easier(rows[n - 1], rows[best.value]))
      then Some(n - 1) else best
  }

  lemma {:induction false} BestIndexIsFirstEasiest(rows: seq<Cve>, crossRouter: bool, n: nat)
    requires n <= |rows|
    ensures var best := BestIndex(rows, crossRouter, n);
            && (best.None? <==> forall k | 0 <= k < n :: !Usable(rows[k], crossRouter))
            && (best.Some? ==> forall k | 0 <= k < n && Usable(rows[k], crossRouter) ::
                  && !Easier(rows[k], rows[best.value])
                  && (k < best.value ==> Easier(rows[best.value], rows[k])))
  {
    if n > 0 {
      BestIndexIsFirstEasiest(rows, crossRouter, n - 1);
    }
  }

  function BestWeakness(rows: seq<Cve>, crossRouter: bool): (step: Option<Step>) {
    var best := BestIndex(rows, crossRouter, |rows|);
    if best.None? then None
    else Some(Weakness(rows[best.value], StepValue(rows[best.value].complexity).value))
  }

  /** The loop of `_best_weakness`. */
  method FindBestWeakness(rows: seq<Cve>, crossRouter: bool) returns (step: Option<Step>)
    ensures step == BestWeakness(rows, crossRouter)
  {
    var best: Option<nat> := None;
    for i := 0 to |rows|
      invariant best == BestIndex(rows, crossRouter, i)
    {
      var r := rows[i];
      if Qualifies(r, crossRouter) {
        var value := StepValue(r.complexity);
        if value.Some? && (best.None? || Easier(r, rows[best.value])) {
          best := Some(i);
        }
      }
    }
    if best.None? {
      return None;
    }
    step := Some(Weakness(rows[best.value], StepValue(rows[best.value].complexity).value));
  }

  function FindingValue(f: Check): Option<real> {
    var complexity := AccessComplexity(f);
    if complexity.None? then None else StepValue(complexity.value)
  }

  /** Greater by value, then by check id. */
  predicate Outranks(f: Check, g: Check)
    requires FindingValue(f).Some? && FindingValue(g).Some?
  {
    var v, w := FindingValue(f).value, FindingValue(g).value;
    v > w || (v == w && g.Place() < f.Place())
  }

  function BestFinding(findings: seq<Check>, n: nat): (best: Option<nat>)
    requires n <= |findings|
    ensures best.Some? ==> best.value < n && FindingValue(findings[best.value]).Some?
  {
    if n == 0 then None
    else
      var best := BestFinding(findings, n - 1);
      if FindingValue(findings[n - 1]).Some? && (best.None? || Outranks(findings[n - 1], findings[best.value]))
      then Some(n - 1) else best
  }

  lemma {:induction false} BestFindingIsLargest(findings: seq<Check>, n: nat)
    requires n <= |findings|
    ensures var best := BestFinding(findings, n);
            && (best.None? <==> forall k | 0 <= k < n :: FindingValue(findings[k]).None?)
            && (best.Some? ==> forall k | 0 <= k < n && FindingValue(findings[k]).Some? ::
                  !Outranks(findings[k], findings[best.value]))
  {
    if n > 0 {
      BestFindingIsLargest(findings, n - 1);
    }
  }

  function BestMisconfig(findings: seq<Check>): (step: Option<Step>) {
    var best := BestFinding(findings, |findings|);
    if best.None? then None
    else Some(Misconfiguration(findings[best.value], FindingValue(findings[best.value]).value))
  }

  /** The loop of `_best_misconfig`: the easiest finding, ties to the last check id. */
  method FindBestMisconfig(findings: seq<Check>) returns (best: Option<Step>)
    ensures best == BestMisconfig(findings)
  {
    best := None;
    for i := 0 to |findings|
      invariant var k := BestFinding(findings, i);
                best == if k.None? then None
                        else Some(Misconfiguration(findings[k.value], FindingValue(findings[k.value]).value))
    {
      var f := findings[i];
      var complexity := AccessComplexity(f);
      if complexity.None? {
        continue;
      }
      var value := StepValue(complexity.value);
      if value.None? {
        continue;
      }
      if best.None? || value.value > best.value.value
         || (value.value == best.value.value && best.value.check.Place() < f.Place()) {
        best := Some(Misconfiguration(f, value.value));
      }
    }
  }

  /** `_takeover`: the best of the two, a CVE winning an exact tie. */
  function Takeover(findings: seq<Check>, rows: seq<Cve>, crossRouter: bool): (step: Option<Step>)
    ensures step.Some? ==> 0.0 < step.value.value < 1.0
  {
    var w := BestWeakness(rows, crossRouter);
    var m := if crossRouter then None else BestMisconfig(findings);
    if w.None? then m
    else if m.None? then w
    else if m.value.value > w.value.value then m else w
  }

  /** How easily an asset is taken over in one scope; 0 when it cannot be. */
  function Ease(step: Option<Step>): real {
    if step.Some? then step.value.value else 0.0
  }

  /** The values a scope offers: of its usable CVEs and, within a VLAN, its findings. */
  ghost predicate Offers(findings: seq<Check>, rows: seq<Cve>, crossRouter: bool, v: real) {
    || (exists c | c in rows :: Usable(c, crossRouter) && StepValue(c.complexity) == Some(v))
    || (!crossRouter && exists f | f in findings :: FindingValue(f) == Some(v))
  }

  /** The takeover value is the greatest value on offer, and there is a takeover
      exactly when something is on offer. */
  lemma TakeoverIsGreatestOffer(findings: seq<Check>, rows: seq<Cve>, crossRouter: bool)
    ensures var step := Takeover(findings, rows, crossRouter);
            && (step.Some? ==> Offers(findings, rows, crossRouter, step.value.value))
            && forall v :: Offers(findings, rows, crossRouter, v) ==> step.Some? && v <= step.value.value
  {
    var step := Takeover(findings, rows, crossRouter);
    BestIndexIsFirstEasiest(rows, crossRouter, |rows|);
    BestFindingIsLargest(findings, |findings|);
    var best := BestIndex(rows, crossRouter, |rows|);
    if best.Some? {
      assert rows[best.value] in rows;
    }
    var finding := BestFinding(findings, |findings|);
    if finding.Some? {
      assert findings[finding.value] in findings;
    }
    forall v | Offers(findings, rows, crossRouter, v)
      ensures step.Some? && v <= step.value.value
    {
      if c :| c in rows && Usable(c, crossRouter) && StepValue(c.complexity) == Some(v) {
        var k :| 0 <= k < |rows| && rows[k] == c;
        assert !Easier(rows[k], rows[best.value]);
      } else {
        var f :| f in findings && FindingValue(f) == Some(v);
        var k :| 0 <= k < |findings| && findings[k] == f;
        assert !Outranks(findings[k], findings[BestFinding(findings, |findings|).value]);
      }
    }
  }

  /** Crossing a router is never easier than being in the VLAN. */
  lemma CrossingIsNeverEasier(findings: seq<Check>, rows: seq<Cve>)
    ensures Ease(Takeover(findings, rows, true)) <= Ease(Takeover(findings, rows, false))
  {
    TakeoverIsGreatestOffer(findings, rows, true);
    TakeoverIsGreatestOffer(findings, rows, false);
    var across := Takeover(findings, rows, true);
    if across.Some? {
      assert Offers(findings, rows, false, across.value.value);
    }
  }

  /** More CVEs and more findings never make an asset harder to take over. */
  lemma MoreEvidenceIsNeverHarder(findings: seq<Check>, rows: seq<Cve>, findings': seq<Check>, rows': seq<Cve>,
                                  crossRouter: bool)
    requires forall c | c in rows :: c in rows'
    requires forall f | f in findings :: f in findings'
    ensures Ease(Takeover(findings, rows, crossRouter)) <= Ease(Takeover(findings', rows', crossRouter))
  {
    TakeoverIsGreatestOffer(findings, rows, crossRouter);
    TakeoverIsGreatestOffer(findings', rows', crossRouter);
    var step := Takeover(findings, rows, crossRouter);
    if step.Some? {
      assert Offers(findings', rows', crossRouter, step.value.value);
    }
  }

  /** Nothing that needs an account or a user's action, or reaches no further than the machine
      itself, offers a step; an adjacent attack offers none across a router. */
  predicate IsShut(c: Cve, crossRouter: bool) {
    || c.needsPrivileges || c.needsInteraction || c.vector == OtherVector || (crossRouter && c.vector == Adjacent)
    || c.complexity == OtherComplexity
  }

  /** A CVE that is not shut is of this complexity; or, within a VLAN, a finding is: a default
      community is of low complexity, telnet, http and SNMP without authentication of high. */
  ghost predicate OffersAt(findings: seq<Check>, rows: seq<Cve>, crossRouter: bool, complexity: Complexity) {
    || (exists c :: c in rows && !IsShut(c, crossRouter) && c.complexity == complexity)
    || (!crossRouter && complexity == Low && SnmpDefaultCommunity in findings)
    || (!crossRouter && complexity == High
        && (MgmtTelnetEnabled in findings || MgmtHttpEnabled in findings || SnmpNoAuth in findings))
  }

  /** As likely as the lowest complexity on offer makes it. */
  ghost predicate IsWorth(findings: seq<Check>, rows: seq<Cve>, crossRouter: bool, value: real) {
    if OffersAt(findings, rows, crossRouter, Low) then value == 0.9
    else if OffersAt(findings, rows, crossRouter, Medium) then value == 0.6
    else OffersAt(findings, rows, crossRouter, High) && value == 0.2
  }

  /** A takeover is worth 0.9 when something of low complexity is on offer, else 0.6 for medium,
      else 0.2 for high; any other complexity offers nothing. */
  lemma TakeoverByComplexity(findings: seq<Check>, rows: seq<Cve>, crossRouter: bool)
    ensures var step := Takeover(findings, rows, crossRouter);
            if step.Some? then IsWorth(findings, rows, crossRouter, step.value.value)
            else forall c | c in {Low, Medium, High} :: !OffersAt(findings, rows, crossRouter, c)
  {
    hide Takeover, OffersAt, Offers;
    TakeoverIsGreatestOffer(findings, rows, crossRouter);
    OffersByComplexity(findings, rows, crossRouter);
  }

  lemma OffersByComplexity(findings: seq<Check>, rows: seq<Cve>, crossRouter: bool)
    ensures Offers(findings, rows, crossRouter, 0.9) <==> OffersAt(findings, rows, crossRouter, Low)
    ensures Offers(findings, rows, crossRouter, 0.6) <==> OffersAt(findings, rows, crossRouter, Medium)
    ensures Offers(findings, rows, crossRouter, 0.2) <==> OffersAt(findings, rows, crossRouter, High)
    ensures forall v :: Offers(findings, rows, crossRouter, v) ==> v == 0.9 || v == 0.6 || v == 0.2
  {
    forall c | c in rows ensures Usable(c, crossRouter) <==> !IsShut(c, crossRouter) {
    }
    if SnmpDefaultCommunity in findings {
      assert FindingValue(SnmpDefaultCommunity) == Some(0.9);
    }
    if f :| f in {MgmtTelnetEnabled, MgmtHttpEnabled, SnmpNoAuth} && f in findings {
      assert FindingValue(f) == Some(0.2);
    }
  }

  /** The CVE is not shut, none of its complexity has a higher score, nor any before it as high. */
  ghost predicate IsChosen(rows: seq<Cve>, crossRouter: bool, k: int) {
    && 0 <= k < |rows| && !IsShut(rows[k], crossRouter)
    && forall j | 0 <= j < |rows| && !IsShut(rows[j], crossRouter) && rows[j].complexity == rows[k].complexity ::
         && rows[j].cvss.GetOr(0.0) <= rows[k].cvss.GetOr(0.0)
         && (rows[j].cvss.GetOr(0.0) == rows[k].cvss.GetOr(0.0) ==> k <= j)
  }

  /** The step is by the first of the CVEs of its complexity with the highest score; or, within
      a VLAN, by a finding that no CVE comes up to, a default community before SNMP without
      authentication, that before telnet, and that before http. */
  ghost predicate NamesEvidence(findings: seq<Check>, rows: seq<Cve>, crossRouter: bool, step: Step) {
    match step
    case Weakness(c, _) => exists k :: IsChosen(rows, crossRouter, k) && rows[k] == c
    case Misconfiguration(f, _) =>
      && !crossRouter && f in findings && !f.OtherCheck?
      && (f != SnmpDefaultCommunity ==> SnmpDefaultCommunity !in findings)
      && (f in {MgmtTelnetEnabled, MgmtHttpEnabled} ==> SnmpNoAuth !in findings)
      && (f == MgmtHttpEnabled ==> MgmtTelnetEnabled !in findings)
      && forall c | c in rows && !IsShut(c, crossRouter) :: f == SnmpDefaultCommunity && c.complexity in {Medium, High}
  }

  lemma StepNamesItsEvidence(findings: seq<Check>, rows: seq<Cve>, crossRouter: bool)
    ensures var step := Takeover(findings, rows, crossRouter);
            step.Some? ==> NamesEvidence(findings, rows, crossRouter, step.value)
  {
    BestIndexIsFirstEasiest(rows, crossRouter, |rows|);
    BestFindingIsLargest(findings, |findings|);
    var best, found := BestIndex(rows, crossRouter, |rows|), BestFinding(findings, |findings|);
    if best.Some? {
      ChosenIs(rows, crossRouter, best.value);
      forall c | c in rows && !IsShut(c, crossRouter) ensures !Easier(c, rows[best.value]) {
        var k :| 0 <= k < |rows| && rows[k] == c;
      }
    } else {
      forall c | c in rows ensures IsShut(c, crossRouter) {
        var k :| 0 <= k < |rows| && rows[k] == c;
      }
    }
    if found.Some? {
      forall g | g in findings && FindingValue(g).Some? ensures !Outranks(g, findings[found.value]) {
        var k :| 0 <= k < |findings| && findings[k] == g;
      }
      assert forall g | g in findings && !g.OtherCheck? :: !Outranks(g, findings[found.value]);
    }
  }

  lemma ChosenIs(rows: seq<Cve>, crossRouter: bool, k: nat)
    requires k < |rows| && Usable(rows[k], crossRouter)
    requires forall j | 0 <= j < |rows| && Usable(rows[j], crossRouter) ::
               !Easier(rows[j], rows[k]) && (j < k ==> Easier(rows[k], rows[j]))
    ensures IsChosen(rows, crossRouter, k)
  {
  }

  /** Some CVE is not shut, or, within the VLAN, there is a default community, telnet, http or
      SNMP without authentication. */
  ghost predicate IsOpen(findings: seq<Check>, rows: seq<Cve>, crossRouter: bool) {
    || (exists c :: c in rows && !IsShut(c, crossRouter))
    || (!crossRouter && exists f :: f in findings && !f.OtherCheck?)
  }

  lemma TakenOverExactlyWhen(findings: seq<Check>, rows: seq<Cve>, crossRouter: bool)
    ensures Takeover(findings, rows, crossRouter).Some? <==> IsOpen(findings, rows, crossRouter)
  {
    hide Takeover;
    TakeoverIsGreatestOffer(findings, rows, crossRouter);
    if c :| c in rows && !IsShut(c, crossRouter) {
      assert Usable(c, crossRouter) && Offers(findings, rows, crossRouter, StepValue(c.complexity).value);
    }
    if f :| !crossRouter && f in findings && !f.OtherCheck? {
      assert Offers(findings, rows, crossRouter, FindingValue(f).value);
    }
  }
}
