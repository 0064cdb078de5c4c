/** OVSS: one score per finding (`scoring/ovss.py`), in exact reals. */
module Ovss {
  import opened Wrappers

  const EPSS_SATURATION: real := 0.1
  const EXPOSURE_EGRESS: real := 1.0
  const EXPOSURE_INTERNAL: real := 0.5
  const EXPOSURE_ISOLATED: real := 0.3

  datatype Tier = P0 | P1 | P2 | P3 | Unrated

  datatype Importance = Unmarked | LowImportance | Moderate | High

  /** Lower is worse for the node. */
  function Rank(t: Tier): nat {
    match t
    case P0 => 0
    case P1 => 1
    case P2 => 2
    case P3 => 3
    case Unrated => 4
  }

  function Min(a: real, b: real): real {
    if a < b then a else b
  }

  function Max(a: real, b: real): real {
    if a < b then b else a
  }

  function Threat(kev: bool, epss: Option<real>): real {
    if kev then 1.0 else Min(epss.GetOr(0.0) / EPSS_SATURATION, 1.0)
  }

  function Context(exposure: real, dependency: real): real {
    0.5 + 0.5 * (exposure + dependency) / 2.0
  }

  function Score(cvss: real, exposure: real, dependency: real, kev: bool, epss: Option<real>): real {
    cvss * Context(exposure, dependency) * (0.5 + 0.5 * Threat(kev, epss))
  }

  /** `round(x, 3)`, exactly: to the nearest thousandth, ties to the even one. */
  function Thousandths(x: real): int {
    var n := (x * 1000.0).Floor;
    var rest := x * 1000.0 - n as real;
    if rest < 0.5 || (rest == 0.5 && n % 2 == 0) then n else n + 1
  }

  function Round3(x: real): real {
    Thousandths(x) as real / 1000.0
  }

  function BaseTier(score: real): Tier {
    if score >= 6.75 then P0 else if score >= 4.5 then P1 else if score >= 2.5 then P2 else P3
  }

  function TierOf(score: real, kev: bool, potential: bool, exposure: real): Tier {
    var base := BaseTier(score);
    var capped := if potential && !kev && base == P0 then P1 else base;
    if kev && exposure == EXPOSURE_EGRESS then P0
    else if kev && (capped == P2 || capped == P3) then P1
    else capped
  }

  /** `exposure_of`: where a node sits, from its role and its VLANs. */
  function ExposureOf(isRouter: bool, vlans: Option<set<nat>>, routed: set<nat>): (e: real)
    ensures 0.0 <= e <= 1.0
  {
    if isRouter then EXPOSURE_EGRESS
    else if vlans.None? then EXPOSURE_INTERNAL
    else if vlans.value * routed == {} then EXPOSURE_ISOLATED
    else EXPOSURE_INTERNAL
  }

  function Weight(i: Importance): (w: real)
    ensures 0.0 <= w <= 1.0
  {
    match i
    case High => 1.0
    case Moderate => 0.5
    case LowImportance => 0.25
    case Unmarked => 0.0
  }

  function DependencyOf(dependants: nat, nodes: nat, i: Importance): (d: real)
    ensures 0.0 <= d <= 1.0 && Weight(i) <= d
  {
    var others: int := if nodes > 2 then nodes - 1 else 1;
    var share := dependants as real / others as real;
    Max(Min(share, 1.0), Weight(i))
  }

  // ---- bounds and monotony -------------------------------------------------------------------

  predicate IsShare(x: real) {
    0.0 <= x <= 1.0
  }

  predicate IsEpss(epss: Option<real>) {
    epss.Some? ==> epss.value >= 0.0
  }

  lemma FactorsAreHalfToOne(exposure: real, dependency: real, kev: bool, epss: Option<real>)
    requires IsShare(exposure) && IsShare(dependency) && IsEpss(epss)
    ensures 0.5 <= Context(exposure, dependency) <= 1.0
    ensures 0.5 <= 0.5 + 0.5 * Threat(kev, epss) <= 1.0
  {
  }

  lemma ProductGrows(a: real, b: real, c: real, d: real)
    requires 0.0 <= a <= b && 0.0 <= c <= d
    ensures a * c <= b * d
  {
    assert a * c <= b * c;
    assert b * c <= b * d;
  }

  /** The score lies between a quarter of the CVSS score and the CVSS score. */
  lemma ScoreIsBounded(cvss: real, exposure: real, dependency: real, kev: bool, epss: Option<real>)
    requires cvss >= 0.0 && IsShare(exposure) && IsShare(dependency) && IsEpss(epss)
    ensures cvss / 4.0 <= Score(cvss, exposure, dependency, kev, epss) <= cvss
  {
    hide Context, Threat;
    FactorsAreHalfToOne(exposure, dependency, kev, epss);
    var y := cvss * Context(exposure, dependency);
    HalfToWhole(cvss, Context(exposure, dependency), y);
    HalfToWhole(y, 0.5 + 0.5 * Threat(kev, epss), Score(cvss, exposure, dependency, kev, epss));
  }

  lemma HalfToWhole(x: real, c: real, product: real)
    requires x >= 0.0 && 0.5 <= c <= 1.0 && product == x * c
    ensures x / 2.0 <= product <= x
  {
    assert x * (c - 0.5) >= 0.0;
    assert x * (1.0 - c) >= 0.0;
  }

  datatype Finding = Finding(cvss: real, exposure: real, dependency: real, kev: bool, epss: Option<real>,
                             potential: bool)

  ghost predicate IsFinding(f: Finding) {
    f.cvss >= 0.0 && IsShare(f.exposure) && IsShare(f.dependency) && IsEpss(f.epss)
  }

  /** Nothing about g is better than about f. */
  ghost predicate NoBetter(f: Finding, g: Finding) {
    && f.cvss <= g.cvss && f.exposure <= g.exposure && f.dependency <= g.dependency
    && (f.kev ==> g.kev) && f.epss.GetOr(0.0) <= g.epss.GetOr(0.0) && (g.potential ==> f.potential)
  }

  function ScoreOf(f: Finding): real {
    Score(f.cvss, f.exposure, f.dependency, f.kev, f.epss)
  }

  /** The tier is taken from the score as published. */
  function FindingTier(f: Finding): Tier {
    TierOf(Round3(ScoreOf(f)), f.kev, f.potential, f.exposure)
  }

  lemma FactorsGrow(f: Finding, g: Finding)
    requires IsFinding(f) && IsFinding(g) && NoBetter(f, g)
    ensures Context(f.exposure, f.dependency) <= Context(g.exposure, g.dependency)
    ensures Threat(f.kev, f.epss) <= Threat(g.kev, g.epss)
  {
  }

  /** Raising the CVSS score, exposure, dependency, EPSS or KEV membership never lowers
      the score. */
  lemma ScoreGrows(f: Finding, g: Finding)
    requires IsFinding(f) && IsFinding(g) && NoBetter(f, g)
    ensures 0.0 <= ScoreOf(f) <= ScoreOf(g)
  {
    hide Context, Threat;
    FactorsGrow(f, g);
    FactorsAreHalfToOne(f.exposure, f.dependency, f.kev, f.epss);
    var cf, cg := Context(f.exposure, f.dependency), Context(g.exposure, g.dependency);
    ProductGrows(f.cvss, g.cvss, cf, cg);
    ProductGrows(0.0, f.cvss, 0.0, cf);
    var tf, tg := 0.5 + 0.5 * Threat(f.kev, f.epss), 0.5 + 0.5 * Threat(g.kev, g.epss);
    ProductGrows(f.cvss * cf, g.cvss * cg, tf, tg);
    ProductGrows(0.0, f.cvss * cf, 0.0, tf);
  }

  lemma RoundingGrows(x: real, y: real)
    requires x <= y
    ensures Thousandths(x) <= Thousandths(y) && Round3(x) <= Round3(y)
  {
    assert x * 1000.0 <= y * 1000.0;
    var m, n := (x * 1000.0).Floor, (y * 1000.0).Floor;
    assert m <= n;
  }

  /** Nor does it ever give a less urgent tier. */
  lemma TierNeverImproves(f: Finding, g: Finding)
    requires IsFinding(f) && IsFinding(g) && NoBetter(f, g)
    ensures Rank(FindingTier(g)) <= Rank(FindingTier(f))
  {
    hide ScoreOf, Round3;
    ScoreGrows(f, g);
    RoundingGrows(ScoreOf(f), ScoreOf(g));
  }

  /** Marking an asset as more important never lowers what depends on it. */
  lemma ImportanceGrows(dependants: nat, nodes: nat, i: Importance, j: Importance)
    requires Weight(i) <= Weight(j)
    ensures DependencyOf(dependants, nodes, i) <= DependencyOf(dependants, nodes, j)
  {
  }

  /** Routing more VLANs never puts a node further out of reach. */
  lemma ExposureGrows(isRouter: bool, vlans: Option<set<nat>>, routed: set<nat>, routed': set<nat>)
    requires routed <= routed'
    ensures ExposureOf(isRouter, vlans, routed) <= ExposureOf(isRouter, vlans, routed')
  {
    if vlans.Some? && vlans.value * routed != {} {
      var v :| v in vlans.value * routed;
      assert v in vlans.value * routed';
    }
  }

  lemma DependantsGrow(dependants: nat, more: nat, nodes: nat, i: Importance)
    requires dependants <= more
    ensures DependencyOf(dependants, nodes, i) <= DependencyOf(more, nodes, i)
  {
    var others: int := if nodes > 2 then nodes - 1 else 1;
    SharesGrow(dependants as real, more as real, others as real);
  }

  lemma Divides(x: real, y: real, n: real)
    requires x * n <= y * n && n > 0.0
    ensures x <= y
  {
    assert (y - x) * n >= 0.0;
  }

  lemma SharesGrow(a: real, b: real, n: real)
    requires a <= b && n > 0.0
    ensures a / n <= b / n
  {
    Divides(a / n, b / n, n);
  }

  /** A finding on a node, its context worked out from the node's place and dependants. */
  function Placed(f: Finding, isRouter: bool, vlans: Option<set<nat>>, routed: set<nat>, dependants: nat, nodes: nat,
                  i: Importance): Finding {
    f.(exposure := ExposureOf(isRouter, vlans, routed), dependency := DependencyOf(dependants, nodes, i))
  }

  /** Routing more VLANs, gaining dependants or being marked as more important never
      lowers the score of anything found on a node, nor makes it less urgent. */
  lemma MoreReachIsNoLessUrgent(f: Finding, isRouter: bool, vlans: Option<set<nat>>, routed: set<nat>,
                                routed': set<nat>, dependants: nat, more: nat, nodes: nat, i: Importance,
                                j: Importance)
    requires f.cvss >= 0.0 && IsEpss(f.epss)
    requires routed <= routed' && dependants <= more && Weight(i) <= Weight(j)
    ensures var before := Placed(f, isRouter, vlans, routed, dependants, nodes, i);
            var after := Placed(f, isRouter, vlans, routed', more, nodes, j);
            ScoreOf(before) <= ScoreOf(after) && Rank(FindingTier(after)) <= Rank(FindingTier(before))
  {
    hide ExposureOf, DependencyOf, ScoreOf, FindingTier;
    ExposureGrows(isRouter, vlans, routed, routed');
    DependantsGrow(dependants, more, nodes, i);
    ImportanceGrows(more, nodes, i, j);
    var before := Placed(f, isRouter, vlans, routed, dependants, nodes, i);
    var after := Placed(f, isRouter, vlans, routed', more, nodes, j);
    ScoreGrows(before, after);
    TierNeverImproves(before, after);
  }

  /** A KEV finding is at least P1, and P0 on the egress device; a potential one that is
      not in KEV is at most P1. */
  lemma Overrides(score: real, kev: bool, potential: bool, exposure: real)
    ensures kev ==> Rank(TierOf(score, kev, potential, exposure)) <= 1
    ensures kev && exposure == EXPOSURE_EGRESS ==> TierOf(score, kev, potential, exposure) == P0
    ensures potential && !kev ==> Rank(TierOf(score, kev, potential, exposure)) >= 1
  {
  }

  // ---- what the numbers are -------------------------------------------------------------------

  /** Twice a factor of two: the CVSS score counts in full only at full exposure and dependency
      and under full threat, which KEV or a tenth of EPSS means; without any it counts a quarter. */
  lemma ScoreByParts(cvss: real, exposure: real, dependency: real, kev: bool, epss: Option<real>)
    requires IsEpss(epss)
    ensures var threat := if kev then 1.0 else if epss.None? then 0.0
                          else if epss.value >= 0.1 then 1.0 else 10.0 * epss.value;
            8.0 * Score(cvss, exposure, dependency, kev, epss)
            == cvss * (2.0 + exposure + dependency) * (1.0 + threat)
  {
    var t := Threat(kev, epss);
    var c := Context(exposure, dependency);
    assert 4.0 * c == 2.0 + exposure + dependency;
    assert 8.0 * (cvss * c * (0.5 + 0.5 * t)) == cvss * (4.0 * c) * (1.0 + t);
  }

  lemma ProductIsMore(a: real, b: real, c: real)
    requires a < b && c > 0.0
    ensures a * c < b * c && c * a < c * b
  {
    assert (b - a) * c > 0.0;
  }

  /** Exposure and dependency each count, and alike. */
  lemma ContextCounts(cvss: real, exposure: real, more: real, dependency: real, kev: bool, epss: Option<real>)
    requires cvss > 0.0 && IsShare(dependency) && 0.0 <= exposure < more <= 1.0 && IsEpss(epss)
    ensures Score(cvss, exposure, dependency, kev, epss) < Score(cvss, more, dependency, kev, epss)
    ensures Score(cvss, exposure, dependency, kev, epss) == Score(cvss, dependency, exposure, kev, epss)
  {
    hide Threat;
    FactorsAreHalfToOne(exposure, dependency, kev, epss);
    var f := 0.5 + 0.5 * Threat(kev, epss);
    var a, b := Context(exposure, dependency), Context(more, dependency);
    assert Context(dependency, exposure) == a;
    ProductIsMore(cvss * a, cvss * b, f) by { ProductIsMore(a, b, cvss); }
  }

  /** The published score is the nearest thousandth, the even one when two are as near. */
  lemma RoundingIsNearest(x: real)
    ensures Round3(x) * 1000.0 == Thousandths(x) as real
    ensures -0.0005 <= x - Round3(x) <= 0.0005
    ensures x - Round3(x) in {-0.0005, 0.0005} ==> Thousandths(x) % 2 == 0
  {
    var n, r := Thousandths(x) as real, Round3(x);
    assert r * 1000.0 == n;
    assert (x - r) * 1000.0 == x * 1000.0 - n;
  }

  /** Exactly when a finding is at each tier or worse; every one has a tier. */
  lemma TiersExactlyWhen(score: real, kev: bool, potential: bool, exposure: real)
    ensures var t := TierOf(score, kev, potential, exposure);
            && (t == P0 <==> (kev && exposure == 1.0) || (score >= 6.75 && (kev || !potential)))
            && (t in {P0, P1} <==> kev || score >= 4.5)
            && (t in {P0, P1, P2} <==> kev || score >= 2.5)
            && (t == P3 <==> !kev && score < 2.5)
  {
  }

  /** The router is fully exposed whatever its VLANs; a node in VLANs that nothing routes the
      least; any other, placed or not, half. */
  lemma ExposureExactlyWhen(isRouter: bool, vlans: Option<set<nat>>, routed: set<nat>)
    ensures var e := ExposureOf(isRouter, vlans, routed);
            && (e == 1.0 <==> isRouter)
            && (e == 0.3 <==> !isRouter && vlans.Some? && forall v | v in vlans.value :: v !in routed)
            && (e in {0.3, 0.5, 1.0})
  {
    if vlans.Some? && vlans.value * routed != {} {
      var v :| v in vlans.value * routed;
      assert v in vlans.value && v in routed;
    } else if vlans.Some? {
      forall v | v in vlans.value ensures v !in routed {
        assert v !in vlans.value * routed;
      }
    }
  }

  lemma ShareIs(a: real, n: real)
    requires n > 0.0
    ensures a / n * n == a && (a >= n <==> a / n >= 1.0)
  {
    if a >= n {
      Divides(1.0, a / n, n);
    } else {
      SharesGrow(a, n, n);
    }
  }

  lemma TimesGrows(a: real, b: real, n: real)
    requires a <= b && n >= 0.0
    ensures a * n <= b * n
  {
    assert (b - a) * n >= 0.0;
  }

  /** Dependency is the share of the other nodes, or the owner's mark when that is more; all
      the others, or any at all in a graph of one node, make it whole. */
  lemma DependencyExactly(dependants: nat, nodes: nat, i: Importance)
    ensures var d, w := DependencyOf(dependants, nodes, i),
                        match i case High => 1.0 case Moderate => 0.5 case LowImportance => 0.25 case Unmarked => 0.0;
            && (dependants >= 1 && dependants >= nodes - 1 ==> d == 1.0)
            && (dependants == 0 ==> d == w)
            && (0 < dependants < nodes - 1 ==>
                  && w <= d && dependants as real <= d * (nodes - 1) as real
                  && (d == w || d * (nodes - 1) as real == dependants as real))
  {
    var others: int := if nodes > 2 then nodes - 1 else 1;
    var share := dependants as real / others as real;
    ShareIs(dependants as real, others as real);
    if dependants < others {
      TimesGrows(share, DependencyOf(dependants, nodes, i), others as real);
    }
  }
}
