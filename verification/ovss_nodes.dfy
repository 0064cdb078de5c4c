/** A node's roll-up and the CVEs it lists (`scoring/stage.py`). */
module OvssNodes {
  import opened Ordering
  import opened Ovss
  import opened Wrappers

  const TOP_CVES: nat := 10

  /** A finding row of a node: its CVE, and whether it is an OSV match. */
  datatype Row = Row(cve: string, osv: bool)

  /** The OVSS fields of one CVE on the node; a CVE without a CVSS score is unrated. */
  datatype Record = Record(cve: string, score: Option<real>, tier: Tier) {
    ghost predicate Valid() {
      score.None? <==> tier == Unrated
    }
  }

  // ---- one record per CVE ------------------------------------------------------------------

  /** The first row of each CVE decides its record, in row order. */
  function PerCve(rows: seq<Row>, rate: Row -> Record): seq<Record>
  {
    if rows == [] then []
    else
      var front, last := rows[..|rows| - 1], rows[|rows| - 1];
      if HasCve(front, last.cve) then PerCve(front, rate) else PerCve(front, rate) + [rate(last)]
  }

  predicate HasCve(rows: seq<Row>, cve: string) {
    exists r :: r in rows && r.cve == cve
  }

  /** The dictionary holds a record of every CVE met, as listed. */
  ghost predicate Grouped(rows: seq<Row>, perCve: map<string, Record>, records: seq<Record>) {
    && (forall c :: c in perCve <==> HasCve(rows, c))
    && forall c | c in perCve :: perCve[c] in records
  }

  lemma GroupedGrows(front: seq<Row>, row: Row, perCve: map<string, Record>, records: seq<Record>, r: Record)
    requires Grouped(front, perCve, records)
    ensures row.cve in perCve ==> Grouped(front + [row], perCve, records)
    ensures row.cve !in perCve ==> Grouped(front + [row], perCve[row.cve := r], records + [r])
  {
    hide HasCve;
    OneMoreCve(front, row);
    assert forall x | x in records :: x in records + [r];
  }

  /** Each row gets its CVE's record. */
  method GroupByCve(rows: seq<Row>,
                    rate: Row -> Record) returns (records: seq<Record>, perCve: map<string, Record>, given: seq<Record>)
    requires forall r :: rate(r).cve == r.cve
    ensures records == PerCve(rows, rate) && |given| == |rows| && Grouped(rows, perCve, records)
    ensures forall i | 0 <= i < |rows| :: rows[i].cve in perCve && given[i] == perCve[rows[i].cve]
  {
    hide HasCve, Grouped;
    records, perCve, given := [], map[], [];
    NothingGrouped(rows[..0]);
    for i := 0 to |rows|
      invariant records == PerCve(rows[..i], rate) && |given| == i && Grouped(rows[..i], perCve, records)
      invariant forall k | 0 <= k < i :: rows[k].cve in perCve && given[k] == perCve[rows[k].cve]
    {
      var row := rows[i];
      assert rows[..i + 1][..i] == rows[..i] && rows[..i + 1] == rows[..i] + [row];
      GroupedGrows(rows[..i], row, perCve, records, rate(row));
      IsGrouped(rows[..i], perCve, records, row.cve);
      if row.cve !in perCve {
        perCve := perCve[row.cve := rate(row)];
        records := records + [rate(row)];
      }
      given := given + [perCve[row.cve]];
    }
    assert rows[..|rows|] == rows;
  }

  lemma NothingGrouped(rows: seq<Row>)
    requires rows == []
    ensures Grouped(rows, map[], [])
  {
  }

  lemma IsGrouped(rows: seq<Row>, perCve: map<string, Record>, records: seq<Record>, c: string)
    requires Grouped(rows, perCve, records)
    ensures c in perCve <==> HasCve(rows, c)
  {
  }

  lemma OneMoreCve(front: seq<Row>, row: Row)
    ensures forall c :: HasCve(front + [row], c) <==> HasCve(front, c) || c == row.cve
  {
    forall c ensures HasCve(front + [row], c) <==> HasCve(front, c) || c == row.cve {
      if r :| r in front && r.cve == c {
        assert r in front + [row];
      }
      assert row in front + [row];
    }
  }

  /** The CVEs of the records are those of the rows, each once. */
  lemma {:induction false} OneRecordPerCve(rows: seq<Row>, rate: Row -> Record)
    requires forall r :: rate(r).cve == r.cve
    ensures forall i, j | 0 <= i < j < |PerCve(rows, rate)| :: PerCve(rows, rate)[i].cve != PerCve(rows, rate)[j].cve
    ensures forall c :: HasCve(rows, c) <==> exists x :: x in PerCve(rows, rate) && x.cve == c
  {
    if rows != [] {
      var front, last := rows[..|rows| - 1], rows[|rows| - 1];
      OneRecordPerCve(front, rate);
      assert rows == front + [last];
      OneMoreCve(front, last);
      var before, records := PerCve(front, rate), PerCve(rows, rate);
      if !HasCve(front, last.cve) {
        assert records == before + [rate(last)];
        forall i | 0 <= i < |before| ensures before[i].cve != last.cve {
          assert before[i] in before;
        }
        assert rate(last) in records;
      }
      forall c ensures HasCve(rows, c) <==> exists x :: x in records && x.cve == c {
        if x :| x in before && x.cve == c {
          assert x in records;
        }
      }
    }
  }

  // ---- the roll-up -------------------------------------------------------------------------

  datatype Status = Assessed | NoneRated | Unassessed

  datatype NodeRecord = NodeRecord(riskScore: Option<real>, nodeTier: Option<Tier>, hist: map<Tier, nat>,
                                   status: Status)

  function Count(records: seq<Record>, t: Tier): nat {
    if records == [] then 0 else Count(records[..|records| - 1], t) + if records[|records| - 1].tier == t then 1 else 0
  }

  ghost predicate IsHist(records: seq<Record>, hist: map<Tier, nat>) {
    hist.Keys == {P0, P1, P2, P3, Unrated} && forall t | t in hist :: hist[t] == Count(records, t)
  }

  /** The best tier any finding has, Unrated aside. */
  ghost predicate IsNodeTier(records: seq<Record>, t: Option<Tier>) {
    match t
    case None => forall r | r in records :: r.tier == Unrated
    case Some(best) => best != Unrated && (exists r :: r in records && r.tier == best)
                       && forall r | r in records :: Rank(best) <= Rank(r.tier)
  }

  ghost predicate IsRiskScore(records: seq<Record>, s: Option<real>) {
    match s
    case None => forall r | r in records :: r.score.None?
    case Some(max) => (exists r :: r in records && r.score == Some(max))
                      && forall r | r in records && r.score.Some? :: r.score.value <= max
  }

  lemma {:induction false} CountIsPresence(records: seq<Record>, t: Tier)
    ensures Count(records, t) > 0 <==> exists r :: r in records && r.tier == t
  {
    if records != [] {
      var front, last := records[..|records| - 1], records[|records| - 1];
      CountIsPresence(front, t);
      assert records == front + [last];
    }
  }

  /** The histogram adds up to the number of distinct CVEs. */
  lemma {:induction false} HistogramAddsUp(records: seq<Record>)
    ensures |records| == Count(records, P0) + Count(records, P1) + Count(records, P2) + Count(records, P3)
                         + Count(records, Unrated)
  {
    if records != [] {
      HistogramAddsUp(records[..|records| - 1]);
    }
  }

  lemma EveryTier(t: Tier)
    ensures t in {P0, P1, P2, P3, Unrated}
  {
    match t
    case P0 =>
    case P1 =>
    case P2 =>
    case P3 =>
    case Unrated =>
  }

  /** `node_record`. */
  method RollUp(records: seq<Record>) returns (n: NodeRecord)
    requires forall r | r in records :: r.Valid()
    ensures IsHist(records, n.hist) && IsNodeTier(records, n.nodeTier) && IsRiskScore(records, n.riskScore)
    ensures n.hist[P0] + n.hist[P1] + n.hist[P2] + n.hist[P3] + n.hist[Unrated] == |records|
    ensures n.status == (if records == [] then Unassessed else if n.nodeTier.None? then NoneRated else Assessed)
    ensures n.nodeTier.None? <==> n.riskScore.None?
  {
    hide IsNodeTier, IsHist, IsRiskScore, Count;
    var hist := map[P0 := 0, P1 := 0, P2 := 0, P3 := 0, Unrated := 0];
    var max: Option<real> := None;
    NothingRolledUp(records);
    for i := 0 to |records|
      invariant IsHist(records[..i], hist) && IsRiskScore(records[..i], max)
    {
      assert records[..i + 1] == records[..i] + [records[i]];
      var r := records[i];
      HistGrows(records[..i], hist, r);
      RiskGrows(records[..i], max, r);
      hist := hist[r.tier := hist[r.tier] + 1];
      if r.score.Some? && (max.None? || max.value < r.score.value) {
        max := r.score;
      }
    }
    assert records[..|records|] == records;
    HistogramAddsUp(records);
    HistIs(records, hist);
    var best := BestOf(hist);
    BestIsNodeTier(records, hist, best);
    n := NodeRecord(max, best, hist, if max.Some? then Assessed else if records != [] then NoneRated else Unassessed);
    RatedIsScored(records, best, max);
  }

  lemma NothingRolledUp(records: seq<Record>)
    ensures IsHist(records[..0], map[P0 := 0, P1 := 0, P2 := 0, P3 := 0, Unrated := 0])
    ensures IsRiskScore(records[..0], None)
  {
  }

  lemma HistIs(records: seq<Record>, hist: map<Tier, nat>)
    requires IsHist(records, hist)
    ensures hist.Keys == {P0, P1, P2, P3, Unrated} && forall t | t in hist :: hist[t] == Count(records, t)
  {
  }

  lemma HistGrows(front: seq<Record>, hist: map<Tier, nat>, r: Record)
    requires IsHist(front, hist)
    ensures r.tier in hist && IsHist(front + [r], hist[r.tier := hist[r.tier] + 1])
  {
    EveryTier(r.tier);
    assert (front + [r])[..|front|] == front;
  }

  lemma RiskGrows(front: seq<Record>, max: Option<real>, r: Record)
    requires IsRiskScore(front, max)
    ensures IsRiskScore(front + [r], if r.score.Some? && (max.None? || max.value < r.score.value) then r.score else max)
  {
    assert r in front + [r] && forall x | x in front :: x in front + [r];
  }

  /** The most urgent tier that some CVE of the node has. */
  function BestOf(hist: map<Tier, nat>): Option<Tier>
    requires hist.Keys == {P0, P1, P2, P3, Unrated}
  {
    if hist[P0] > 0 then Some(P0) else if hist[P1] > 0 then Some(P1)
    else if hist[P2] > 0 then Some(P2) else if hist[P3] > 0 then Some(P3) else None
  }

  lemma BestIsNodeTier(records: seq<Record>, hist: map<Tier, nat>, best: Option<Tier>)
    requires IsHist(records, hist) && best == BestOf(hist)
    ensures IsNodeTier(records, best)
  {
    hide Count;
    forall t: Tier ensures t in hist && (hist[t] > 0 <==> exists r :: r in records && r.tier == t) {
      EveryTier(t);
      CountIsPresence(records, t);
    }
  }

  lemma RatedIsScored(records: seq<Record>, t: Option<Tier>, s: Option<real>)
    requires forall r | r in records :: r.Valid()
    requires IsNodeTier(records, t) && IsRiskScore(records, s)
    ensures t.None? <==> s.None?
  {
    if t.Some? {
      var r :| r in records && r.tier == t.value;
      assert r.Valid();
    }
    if s.Some? {
      var r :| r in records && r.score == s;
      assert r.Valid();
    }
  }

  // ---- the CVEs listed ------------------------------------------------------------------------

  /** `ovss_order`: the worst tier, then the highest score, then the CVE id. */
  predicate Before(a: Record, b: Record) {
    if Rank(a.tier) != Rank(b.tier) then Rank(a.tier) < Rank(b.tier)
    else if a.score.None? != b.score.None? then b.score.None?
    else if a.score.Some? && a.score != b.score then a.score.value > b.score.value
    else Below(a.cve, b.cve)
  }

  lemma BeforeIsAnOrder(a: Record, b: Record, c: Record)
    ensures !Before(a, a) && !(Before(a, b) && Before(b, a))
    ensures Before(a, b) && Before(b, c) ==> Before(a, c)
    ensures a.cve != b.cve ==> Before(a, b) || Before(b, a)
  {
    Trichotomy(a.cve, a.cve);
    Trichotomy(a.cve, b.cve);
    Trichotomy(b.cve, c.cve);
    Trichotomy(a.cve, c.cve);
    if Below(a.cve, b.cve) && Below(b.cve, c.cve) {
      Transitive(a.cve, b.cve, c.cve);
    }
  }

  /** The rows in OVSS order: the same rows, none before one that should precede it. */
  ghost predicate IsSorted(rows: seq<Record>, sorted: seq<Record>) {
    multiset(sorted) == multiset(rows) && forall i, j | 0 <= i < j < |sorted| :: !Before(sorted[j], sorted[i])
  }

  function TopCves(sorted: seq<Record>): seq<Record> {
    if |sorted| <= TOP_CVES then sorted else sorted[..TOP_CVES]
  }

  /** The first CVE listed for a rated node carries the node's tier, and among those of
      that tier the highest score. */
  lemma FirstListedCarriesTheNodeTier(records: seq<Record>, sorted: seq<Record>, t: Tier)
    requires IsSorted(records, sorted) && IsNodeTier(records, Some(t)) && forall r | r in records :: r.Valid()
    ensures TopCves(sorted) != [] && TopCves(sorted)[0].tier == t && TopCves(sorted)[0] in records
    ensures forall r | r in records && r.tier == t ::
              r.score.Some? && r.score.value <= TopCves(sorted)[0].score.GetOr(0.0)
  {
    hide Before, Rank, IsSorted;
    SameRecords(records, sorted);
    var best :| best in records && best.tier == t;
    assert best in sorted;
    var first := sorted[0];
    assert first in records && first.Valid();
    forall r | r in records ensures r == first || !Before(r, first) {
      if r != first {
        NothingComesFirst(records, sorted, r);
      }
    }
    BestComesFirst(best, first);
    SameRank(first.tier, t);
    forall r | r in records && r.tier == t ensures r.score.Some? && r.score.value <= first.score.GetOr(0.0) {
      assert r.Valid();
      BestComesFirst(r, first);
    }
  }

  lemma SameRecords(records: seq<Record>, sorted: seq<Record>)
    requires IsSorted(records, sorted)
    ensures forall r :: r in records <==> r in sorted
  {
    assert forall r :: r in records <==> r in multiset(records);
    assert forall r :: r in sorted <==> r in multiset(sorted);
  }

  lemma NothingComesFirst(records: seq<Record>, sorted: seq<Record>, r: Record)
    requires IsSorted(records, sorted) && r in sorted && r != sorted[0]
    ensures !Before(r, sorted[0])
  {
    var i :| 0 <= i < |sorted| && sorted[i] == r;
  }

  lemma BestComesFirst(r: Record, first: Record)
    requires r == first || !Before(r, first)
    ensures Rank(first.tier) <= Rank(r.tier)
    ensures r.tier == first.tier && r.score.Some? && first.score.Some? ==> r.score.value <= first.score.value
  {
    hide Below;
  }

  lemma SameRank(a: Tier, b: Tier)
    ensures Rank(a) == Rank(b) <==> a == b
  {
  }

  /** Ten CVEs are listed, or all of them when there are no more. */
  lemma TenAreListed(records: seq<Record>, sorted: seq<Record>)
    requires IsSorted(records, sorted)
    ensures TopCves(sorted) <= sorted && |TopCves(sorted)| == if |records| < 10 then |records| else 10
  {
    hide Before;
    assert |sorted| == |multiset(sorted)| && |records| == |multiset(records)|;
  }

  /** What is listed is the front of the order: no record left out comes before one kept. */
  lemma ListedComeFirst(records: seq<Record>, sorted: seq<Record>, kept: Record, left: nat)
    requires IsSorted(records, sorted) && kept in TopCves(sorted) && TOP_CVES <= left < |sorted|
    ensures !Before(sorted[left], kept)
  {
    var i :| 0 <= i < |TopCves(sorted)| && TopCves(sorted)[i] == kept;
    assert sorted[i] == kept && i < left;
  }

  lemma FirstsAgree(records: seq<Record>, a: seq<Record>, b: seq<Record>)
    requires IsSorted(records, a) && IsSorted(records, b) && a != [] && b != []
    requires forall i, j | 0 <= i < j < |a| :: a[i].cve != a[j].cve
    ensures a[0] == b[0]
  {
    hide Before;
    assert a[0] in multiset(b) && b[0] in multiset(a);
    var j :| 0 <= j < |b| && b[j] == a[0];
    var i :| 0 <= i < |a| && a[i] == b[0];
    BeforeIsAnOrder(a[0], b[0], a[0]);
  }

  lemma TailIsSorted(records: seq<Record>, a: seq<Record>)
    requires IsSorted(records, a) && a != []
    ensures IsSorted(a[1..], a[1..]) && multiset(a[1..]) == multiset(a) - multiset{a[0]} && a == [a[0]] + a[1..]
  {
    hide Before;
    assert a == [a[0]] + a[1..];
  }

  /** The listing is one and the same however the rows came: the order is total on
      distinct CVEs. */
  lemma {:induction false} SortedIsUnique(records: seq<Record>, a: seq<Record>, b: seq<Record>)
    requires IsSorted(records, a) && IsSorted(records, b)
    requires forall i, j | 0 <= i < j < |a| :: a[i].cve != a[j].cve
    ensures a == b
    decreases |a|
  {
    hide Before;
    assert |a| == |multiset(a)| && |b| == |multiset(b)|;
    if a != [] {
      FirstsAgree(records, a, b);
      TailIsSorted(records, a);
      TailIsSorted(records, b);
      SortedIsUnique(a[1..], a[1..], b[1..]);
    }
  }

  /** Down the listing the tier only becomes less urgent; within one tier the score falls, the
      CVEs without a score last; equal ones are listed by name. */
  lemma ListedInOrder(records: seq<Record>, sorted: seq<Record>, i: nat, j: nat)
    requires IsSorted(records, sorted) && i < j < |sorted|
    ensures Rank(sorted[i].tier) <= Rank(sorted[j].tier)
    ensures sorted[i].tier == sorted[j].tier && sorted[j].score.Some? ==>
              sorted[i].score.Some? && sorted[j].score.value <= sorted[i].score.value
    ensures sorted[i].tier == sorted[j].tier && sorted[i].score == sorted[j].score ==>
              !Below(sorted[j].cve, sorted[i].cve)
  {
    assert !Before(sorted[j], sorted[i]);
  }
}
