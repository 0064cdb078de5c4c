/** An asset's most easily reached CVE: `devicecves/vectors.py`. */
module Vectors {
  import opened NvdClients
  import opened NvdLookups
  import opened Wrappers

  datatype AttackVector = Network | Adjacent | OtherVector
  datatype Complexity = Low | Medium | High | OtherComplexity

  datatype Fields = Fields(vector: AttackVector, complexity: Complexity, noPrivileges: bool, noInteraction: bool)

  /** What `fields_of` gives for a row: its fields, no record, or no answer. */
  datatype Reading = Has(f: Fields) | NoRecord | NotRead

  datatype Summary = Reachable(row: nat) | NoneFound | Unverified

  function Rank(c: Complexity): nat {
    match c
    case Low => 0
    case Medium => 1
    case High => 2
    case OtherComplexity => 3
  }

  predicate IsReachable(r: Reading) {
    r.Has? && (r.f.vector == Network || r.f.vector == Adjacent) && r.f.noPrivileges && r.f.noInteraction
  }

  /** Nothing can rank above it: the search stops. */
  predicate IsTop(r: Reading) {
    IsReachable(r) && r.f.vector == Network && r.f.complexity == Low
  }

  /** The row is reachable, none is of lower complexity, and none as low comes before. */
  ghost predicate IsEasiest(rs: seq<Reading>, k: nat) {
    && k < |rs| && IsReachable(rs[k])
    && forall j | 0 <= j < |rs| && IsReachable(rs[j]) ::
         Rank(rs[k].f.complexity) <= Rank(rs[j].f.complexity)
         && (Rank(rs[k].f.complexity) == Rank(rs[j].f.complexity) ==> k <= j)
  }

  /** The search has looked at these rows and not stopped. */
  ghost predicate GoesOn(rs: seq<Reading>) {
    forall j | 0 <= j < |rs| :: rs[j] != NotRead && !IsTop(rs[j])
  }

  /** The search ends with these rows: the last one stops it, or they are all there are. */
  ghost predicate Ends(rs: seq<Reading>, rows: nat) {
    && |rs| <= rows
    && (|| (GoesOn(rs) && |rs| == rows)
        || (rs != [] && GoesOn(rs[..|rs| - 1]) && (rs[|rs| - 1] == NotRead || IsTop(rs[|rs| - 1]))))
  }

  /** The summary of the rows looked at. */
  ghost predicate IsSummary(rs: seq<Reading>, s: Summary) {
    match s
    case Unverified => rs != [] && rs[|rs| - 1] == NotRead
    case NoneFound => forall j | 0 <= j < |rs| :: rs[j] != NotRead && !IsReachable(rs[j])
    case Reachable(k) => IsEasiest(rs, k) && forall j | 0 <= j < |rs| :: rs[j] != NotRead
  }

  /** The easiest of the rows looked at is the easiest of all: what the rest would have
      read cannot matter. */
  lemma UnreadRowsCannotMatter(rs: seq<Reading>, all: seq<Reading>, s: Summary)
    requires Ends(rs, |all|) && rs <= all && IsSummary(rs, s)
    ensures s.Reachable? ==> IsEasiest(all, s.row)
    ensures s.NoneFound? ==> forall j | 0 <= j < |all| :: !IsReachable(all[j])
    ensures s.Unverified? <==> exists i :: 0 <= i < |all| && all[i] == NotRead && GoesOn(all[..i])
  {
    if GoesOn(rs) && |rs| == |all| {
      assert rs == all;
      forall i | 0 <= i < |all| ensures !(all[i] == NotRead) {
        assert rs[i] != NotRead;
      }
    } else {
      var n := |rs| - 1;
      assert all[n] == rs[n] && all[..n] == rs[..n];
      if s.Unverified? {
        assert GoesOn(all[..n]);
      } else {
        TopIsEasiest(rs, all, n);
      }
    }
  }

  lemma TopIsEasiest(rs: seq<Reading>, all: seq<Reading>, n: nat)
    requires rs <= all && n == |rs| - 1 && IsTop(rs[n])
    requires forall j | 0 <= j < |rs| :: rs[j] != NotRead
    ensures forall k: nat | IsEasiest(rs, k) :: IsEasiest(all, k)
    ensures forall i | 0 <= i < |all| && all[i] == NotRead :: !GoesOn(all[..i])
  {
    forall k: nat | IsEasiest(rs, k) ensures IsEasiest(all, k) {
      assert Rank(rs[k].f.complexity) == 0;
      assert all[k] == rs[k];
      forall j | 0 <= j < |all| && IsReachable(all[j])
        ensures Rank(all[k].f.complexity) <= Rank(all[j].f.complexity)
                && (Rank(all[k].f.complexity) == Rank(all[j].f.complexity) ==> k <= j) {
        if j < |rs| {
          assert all[j] == rs[j];
        }
      }
    }
    assert forall j | 0 <= j < |rs| :: all[j] == rs[j];
    forall i | 0 <= i < |all| && all[i] == NotRead ensures !GoesOn(all[..i]) {
      assert all[..i][n] == rs[n];
    }
  }

  lemma EasiestIsUnique(rs: seq<Reading>, a: nat, b: nat)
    requires IsEasiest(rs, a) && IsEasiest(rs, b)
    ensures a == b
  {
  }

  /** With the highest score first, the tie goes to the highest score. */
  lemma TiesGoToTheHigherScore(rs: seq<Reading>, scores: seq<real>, k: nat, j: nat)
    requires |scores| == |rs| && forall a, b | 0 <= a < b < |scores| :: scores[a] >= scores[b]
    requires IsEasiest(rs, k) && j < |rs| && IsReachable(rs[j]) && rs[j].f.complexity == rs[k].f.complexity
    ensures scores[k] >= scores[j]
  {
  }

  // ---- the stage: each CVE looked up once for all assets -----------------------------------

  /** `run_stage`'s memo. `parse` reads the four fields of a record. */
  class VectorStage {
    const parse: Cve -> Fields
    var known: map<Cve, Option<Fields>>
    var asked: set<Cve>

    constructor (parse: Cve -> Fields, known: map<Cve, Option<Fields>>)
      ensures this.parse == parse && this.known == known && asked == {}
    {
      this.parse, this.known, asked := parse, known, {};
    }

    /** `fields_of`. */
    method FieldsOf(client: NvdClient<Item>, cache: Cache, cve: Cve) returns (r: Reading)
      requires client.Valid()
      modifies this, client, cache
      ensures client.Valid()
      ensures cve in old(known) ==> known == old(known) && client.requests == old(client.requests)
      ensures r != NotRead <==> cve in known
      ensures r != NotRead ==> r == match known[cve] case Some(f) => Has(f) case None => NoRecord
      ensures forall c | c in old(known) :: c in known && known[c] == old(known)[c]
      ensures asked == old(asked) + if cve in old(known) then {} else {cve}
    {
      hide NvdClient.Valid, Tells, KeepsOthers;
      if cve !in known {
        asked := asked + {cve};
        var a := NvdLookups.Answer(client, cache, ById(cve));
        match a {
          case Unanswered(_) => return NotRead;
          case NotAQuery => known := known[cve := None];
          case Is(e, _) =>
            known := known[cve := if e.data.One? && e.data.cve.Some? then Some(parse(e.data.cve.value)) else None];
        }
      }
      r := match known[cve] case Some(f) => Has(f) case None => NoRecord;
    }

    /** `assess`: stops at the first row nothing can rank above. */
    method Assess(client: NvdClient<Item>, cache: Cache, rows: seq<Cve>) returns (s: Summary, ghost rs: seq<Reading>)
      requires client.Valid()
      modifies this, client, cache
      ensures client.Valid()
      ensures Ends(rs, |rows|) && IsSummary(rs, s) && AsKnown(known, rows, rs)
      ensures forall c | c in old(known) :: c in known && known[c] == old(known)[c]
    {
      hide NvdClient.Valid, Rank, BestSoFar, AsKnown;
      var best: Option<(nat, Fields)> := None;
      rs := [];
      NothingRead(known, rows);
      for i := 0 to |rows|
        invariant client.Valid() && |rs| == i && GoesOn(rs) && BestSoFar(rs, best) && AsKnown(known, rows, rs)
        invariant forall c | c in old(known) :: c in known && known[c] == old(known)[c]
      {
        ghost var before, knew := rs, known;
        var r := FieldsOf(client, cache, rows[i]);
        OneMoreKnown(knew, known, rows, before, r);
        rs := rs + [r];
        assert rs[..i] == before;
        if r.NotRead? {
          return Unverified, rs;
        }
        if !IsReachable(r) {
          StaysEasiest(before, r, best);
          continue;
        }
        if best.None? || Rank(r.f.complexity) < Rank(best.value.1.complexity) {
          BecomesEasiest(before, r, best);
          best := Some((i, r.f));
        } else {
          StaysEasiest(before, r, best);
        }
        if r.f.vector == Network && r.f.complexity == Low {
          BestIs(rs, best);
          return Reachable(best.value.0), rs;
        }
      }
      BestIs(rs, best);
      s := if best.Some? then Reachable(best.value.0) else NoneFound;
    }
  }

  /** What was read is what is known of the rows' CVEs. */
  ghost predicate AsKnown(known: map<Cve, Option<Fields>>, rows: seq<Cve>, rs: seq<Reading>) {
    |rs| <= |rows| && forall i | 0 <= i < |rs| && rs[i] != NotRead ::
      rows[i] in known && rs[i] == match known[rows[i]] case Some(f) => Has(f) case None => NoRecord
  }

  ghost predicate BestSoFar(rs: seq<Reading>, best: Option<(nat, Fields)>) {
    match best
    case None => forall j | 0 <= j < |rs| :: !IsReachable(rs[j])
    case Some((k, f)) => IsEasiest(rs, k) && rs[k] == Has(f)
  }

  lemma NothingRead(known: map<Cve, Option<Fields>>, rows: seq<Cve>)
    ensures BestSoFar([], None) && AsKnown(known, rows, [])
  {
  }

  lemma OneMoreKnown(knew: map<Cve, Option<Fields>>, known: map<Cve, Option<Fields>>, rows: seq<Cve>,
                     rs: seq<Reading>, r: Reading)
    requires AsKnown(knew, rows, rs) && |rs| < |rows| && forall c | c in knew :: c in known && known[c] == knew[c]
    requires r != NotRead ==>
               rows[|rs|] in known && r == match known[rows[|rs|]] case Some(f) => Has(f) case None => NoRecord
    ensures AsKnown(known, rows, rs + [r])
  {
  }

  lemma BestIs(rs: seq<Reading>, best: Option<(nat, Fields)>)
    requires BestSoFar(rs, best)
    ensures best.Some? ==> IsEasiest(rs, best.value.0)
    ensures best.None? ==> forall j | 0 <= j < |rs| :: !IsReachable(rs[j])
  {
  }

  lemma StaysEasiest(before: seq<Reading>, r: Reading, best: Option<(nat, Fields)>)
    requires BestSoFar(before, best) && (best.None? ==> !IsReachable(r))
    requires best.Some? && IsReachable(r) ==> Rank(best.value.1.complexity) <= Rank(r.f.complexity)
    ensures BestSoFar(before + [r], best)
  {
  }

  lemma BecomesEasiest(before: seq<Reading>, r: Reading, best: Option<(nat, Fields)>)
    requires BestSoFar(before, best) && IsReachable(r)
    requires best.Some? ==> Rank(r.f.complexity) < Rank(best.value.1.complexity)
    ensures BestSoFar(before + [r], Some((|before|, r.f)))
  {
  }

  // ---- what the summary says of the rows themselves ------------------------------------------

  /** The CVE is exploited over the network or from the same segment, by anyone, unaided. */
  ghost predicate IsOpen(r: Reading) {
    r.Has? && r.f.vector in {Network, Adjacent} && r.f.noPrivileges && r.f.noInteraction
  }

  /** a is of lower complexity than b. */
  ghost predicate IsEasier(a: Complexity, b: Complexity) {
    match b
    case Low => false
    case Medium => a == Low
    case High => a in {Low, Medium}
    case OtherComplexity => a in {Low, Medium, High}
  }

  /** The row found is open and no open row is easier, nor any before it as easy; none is
      found only if none is open; and rows are left unread only behind a row without an
      answer or an open one over the network that could not be easier. */
  lemma SummaryIsOfTheRows(rs: seq<Reading>, all: seq<Reading>, s: Summary)
    requires Ends(rs, |all|) && rs <= all && IsSummary(rs, s)
    ensures s.Reachable? ==>
              && s.row < |all| && IsOpen(all[s.row])
              && forall j | 0 <= j < |all| && IsOpen(all[j]) ::
                   && !IsEasier(all[j].f.complexity, all[s.row].f.complexity)
                   && (j < s.row ==> IsEasier(all[s.row].f.complexity, all[j].f.complexity))
    ensures s.NoneFound? ==> forall j | 0 <= j < |all| :: !IsOpen(all[j])
    ensures |rs| < |all| ==> rs != [] && (s.Unverified? || EndsTheSearch(all[|rs| - 1]))
    ensures forall j | 0 <= j < |rs| - 1 :: all[j] != NotRead && !EndsTheSearch(all[j])
  {
    hide Ends, IsSummary;
    UnreadRowsCannotMatter(rs, all, s);
    forall j | 0 <= j < |all| ensures IsOpen(all[j]) <==> IsReachable(all[j]) {
    }
    EndsWhere(rs, all, s);
  }

  ghost predicate EndsTheSearch(r: Reading) {
    IsOpen(r) && r.f.vector == Network && r.f.complexity == Low
  }

  lemma EndsWhere(rs: seq<Reading>, all: seq<Reading>, s: Summary)
    requires Ends(rs, |all|) && rs <= all && IsSummary(rs, s)
    ensures |rs| < |all| ==> rs != [] && (s.Unverified? || EndsTheSearch(all[|rs| - 1]))
    ensures forall j | 0 <= j < |rs| - 1 :: all[j] != NotRead && !EndsTheSearch(all[j])
  {
    forall j | 0 <= j < |rs| - 1 ensures all[j] != NotRead && !EndsTheSearch(all[j]) {
      assert rs[..|rs| - 1][j] == rs[j] == all[j];
    }
    if |rs| < |all| {
      assert all[|rs| - 1] == rs[|rs| - 1];
    }
  }
}
