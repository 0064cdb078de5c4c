/** The SNMP walk of several table columns at once: GETBULK while the device
    takes it, GETNEXT from the first failure on. */
module SnmpWalk {
  import opened Sequences
  import opened Wrappers

  type Oid = seq<nat>

  datatype Row = Row(oid: Oid, value: string)

  /** A deterministic agent: the row it gives after each OID it is asked about,
      in whatever order it likes; nothing where it says endOfMibView. */
  type Agent = map<Oid, Row>

  function Oids(agent: Agent): set<Oid> {
    set o | o in agent :: agent[o].oid
  }

  function Follow(agent: Agent, o: Oid): (row: Option<Row>)
    ensures row.Some? ==> row.value.oid in Oids(agent)
  {
    if o in agent then Some(agent[o]) else None
  }

  predicate InSubtree(root: Oid, o: Oid) {
    |root| < |o| && o[..|root|] == root
  }

  /** Whether a column goes on with a row: in its subtree and not returned before. */
  predicate Continues(root: Oid, seen: set<Oid>, row: Option<Row>) {
    row.Some? && InSubtree(root, row.value.oid) && row.value.oid !in seen
  }

  predicate Full(got: nat, maxRows: Option<nat>) {
    maxRows.Some? && got >= maxRows.value
  }

  /** The rest of a one-column GETNEXT walk, from the last OID returned. */
  function Rest(agent: Agent, root: Oid, at: Oid, seen: set<Oid>, got: nat, maxRows: Option<nat>): seq<Row>
    decreases Oids(agent) - seen
  {
    var row := Follow(agent, at);
    if !Continues(root, seen, row) then []
    else if Full(got + 1, maxRows) then [row.value]
    else [row.value] + Rest(agent, root, row.value.oid, seen + {row.value.oid}, got + 1, maxRows)
  }

  /** The simple form: one column, one GETNEXT at a time. */
  function Walk(agent: Agent, root: Oid, maxRows: Option<nat>): seq<Row> {
    Rest(agent, root, root, {}, 0, maxRows)
  }

  /** A cap cuts the walk off: its first n rows, all of them when there are no more. As it is
      looked at after a row is kept, the first row comes in any case. */
  lemma CapCutsTheWalk(agent: Agent, root: Oid, n: nat)
    ensures var all, most := Walk(agent, root, None), if n == 0 then 1 else n;
            Walk(agent, root, Some(n)) == if |all| <= most then all else all[..most]
  {
    CapCutsTheRest(agent, root, root, {}, 0, n);
  }

  lemma {:induction false} CapCutsTheRest(agent: Agent, root: Oid, at: Oid, seen: set<Oid>, got: nat, n: nat)
    requires got == 0 || got < n
    ensures var all, most := Rest(agent, root, at, seen, got, None), if got < n then n - got else 1;
            Rest(agent, root, at, seen, got, Some(n)) == if |all| <= most then all else all[..most]
    decreases Oids(agent) - seen
  {
    var row := Follow(agent, at);
    if Continues(root, seen, row) && got + 1 < n {
      CapCutsTheRest(agent, root, row.value.oid, seen + {row.value.oid}, got + 1, n);
    }
  }

  /** Row k comes right after the row before it (the first after `at`), is of the subtree, and
      its OID has not been returned before. */
  ghost predicate IsNextRow(agent: Agent, root: Oid, at: Oid, seen: set<Oid>, rows: seq<Row>, k: nat)
    requires k < |rows|
  {
    && Follow(agent, if k == 0 then at else rows[k - 1].oid) == Some(rows[k])
    && InSubtree(root, rows[k].oid) && rows[k].oid !in seen
    && forall j | 0 <= j < k :: rows[j].oid != rows[k].oid
  }

  ghost predicate IsCourse(agent: Agent, root: Oid, at: Oid, seen: set<Oid>, rows: seq<Row>) {
    forall k | 0 <= k < |rows| :: IsNextRow(agent, root, at, seen, rows, k)
  }

  /** The walk is the longest course there is from the root: every course is a front of it, and
      every front a course. */
  lemma WalkIsTheLongestCourse(agent: Agent, root: Oid, rows: seq<Row>)
    ensures IsCourse(agent, root, root, {}, rows) <==> rows <= Walk(agent, root, None)
  {
    RestIsTheLongestCourse(agent, root, root, {}, 0, rows);
  }

  lemma {:induction false} RestIsTheLongestCourse(agent: Agent, root: Oid, at: Oid, seen: set<Oid>, got: nat,
                                                  rows: seq<Row>)
    ensures IsCourse(agent, root, at, seen, rows) <==> rows <= Rest(agent, root, at, seen, got, None)
    decreases |rows|
  {
    hide IsCourse;
    if rows == [] {
      NoRowsAreACourse(agent, root, at, seen);
    } else {
      CourseByHead(agent, root, at, seen, rows);
      RestIsTheLongestCourse(agent, root, rows[0].oid, seen + {rows[0].oid}, got + 1, rows[1..]);
      assert rows == [rows[0]] + rows[1..];
    }
  }

  lemma NoRowsAreACourse(agent: Agent, root: Oid, at: Oid, seen: set<Oid>)
    ensures IsCourse(agent, root, at, seen, [])
  {
  }

  lemma CourseByHead(agent: Agent, root: Oid, at: Oid, seen: set<Oid>, rows: seq<Row>)
    requires rows != []
    ensures IsCourse(agent, root, at, seen, rows)
            <==> && Follow(agent, at) == Some(rows[0]) && InSubtree(root, rows[0].oid) && rows[0].oid !in seen
                 && IsCourse(agent, root, rows[0].oid, seen + {rows[0].oid}, rows[1..])
  {
    hide Follow, InSubtree;
    var rest, more := rows[1..], seen + {rows[0].oid};
    forall k: nat | k < |rest|
      ensures IsNextRow(agent, root, at, seen, rows, k + 1)
              <==> IsNextRow(agent, root, rows[0].oid, more, rest, k)
    {
      assert forall j | 0 <= j < k :: rest[j] == rows[j + 1];
    }
    if IsCourse(agent, root, at, seen, rows) {
      assert IsNextRow(agent, root, at, seen, rows, 0);
      forall k: nat | k < |rest| ensures IsNextRow(agent, root, rows[0].oid, more, rest, k) {
        assert IsNextRow(agent, root, at, seen, rows, k + 1);
      }
    }
    if Follow(agent, at) == Some(rows[0]) && InSubtree(root, rows[0].oid) && rows[0].oid !in seen
       && IsCourse(agent, root, rows[0].oid, more, rest) {
      forall k: nat | k < |rows| ensures IsNextRow(agent, root, at, seen, rows, k) {
        if k > 0 {
          assert IsNextRow(agent, root, rows[0].oid, more, rest, k - 1);
        }
      }
    }
  }

  // ---- one request and its answer ------------------------------------------------

  /** The row i places after `at` (0: the one right after it). */
  function Ahead(agent: Agent, at: Oid, i: nat): Option<Row> {
    if i == 0 then Follow(agent, at)
    else
      var row := Ahead(agent, at, i - 1);
      if row.None? then None else Follow(agent, row.value.oid)
  }

  /** An answer's bindings: the columns in request order, repetition after
      repetition (section 4.2.3 of RFC 3416), cut off anywhere. */
  function Bindings(agent: Agent, objects: seq<Oid>, size: nat): (bindings: seq<Option<Row>>)
    requires |objects| > 0
    ensures |bindings| == size
  {
    seq(size, k requires 0 <= k => Ahead(agent, objects[k % |objects|], k / |objects|))
  }

  /** One column under way: the rows so far, the last OID, the OIDs returned. */
  datatype Column = Column(rows: seq<Row>, at: Oid, seen: set<Oid>)

  predicate Complete(agent: Agent, root: Oid, c: Column, maxRows: Option<nat>) {
    c.rows == Walk(agent, root, maxRows)
  }

  predicate OnCourse(agent: Agent, root: Oid, c: Column, maxRows: Option<nat>) {
    c.rows + Rest(agent, root, c.at, c.seen, |c.rows|, maxRows) == Walk(agent, root, maxRows)
  }

  /** One binding of a column that is not done. */
  function Absorb(root: Oid, c: Column, row: Option<Row>, maxRows: Option<nat>): (r: (Column, bool)) {
    if !Continues(root, c.seen, row) then (c, true)
    else
      var c' := Column(c.rows + [row.value], row.value.oid, c.seen + {row.value.oid});
      (c', Full(|c'.rows|, maxRows))
  }

  /** A binding that is what follows the column's last OID keeps it on course. */
  lemma AbsorbKeepsCourse(agent: Agent, root: Oid, c: Column, maxRows: Option<nat>)
    requires OnCourse(agent, root, c, maxRows)
    ensures var (c', done) := Absorb(root, c, Follow(agent, c.at), maxRows);
            && (if done then Complete(agent, root, c', maxRows) else OnCourse(agent, root, c', maxRows))
            && (done || c'.at == Follow(agent, c.at).value.oid)
            && c.seen <= c'.seen && (c' == c ==> done)
            && (c' != c ==> exists o :: o in Oids(agent) - c.seen && o in c'.seen)
  {
    var row := Follow(agent, c.at);
    if Continues(root, c.seen, row) {
      var c' := Absorb(root, c, row, maxRows).0;
      assert row.value.oid in Oids(agent) - c.seen && row.value.oid in c'.seen;
      assert |c'.rows| > |c.rows|;
      var rest := Rest(agent, root, c'.at, c'.seen, |c'.rows|, maxRows);
      assert c.rows + ([row.value] + rest) == c'.rows + rest;
      assert c.rows + [row.value] == c'.rows + [];
    } else {
      assert c.rows + [] == c.rows;
    }
  }

  // ---- how far each column has been taken through an answer ------------------------

  /** How many of the first k bindings belong to column j of n. */
  function Taken(k: nat, n: nat, j: nat): nat
    requires j < n
  {
    k / n + if j < k % n then 1 else 0
  }

  lemma NextTaken(k: nat, n: nat)
    requires n > 0
    ensures Taken(k, n, k % n) == k / n
    ensures forall j | 0 <= j < n :: Taken(k + 1, n, j) == Taken(k, n, j) + if j == k % n then 1 else 0
  {
    var q, r := k / n, k % n;
    if r + 1 < n {
      Division(k + 1, n, q, r + 1);
    } else {
      assert n * (q + 1) == n * q + n;
      Division(k + 1, n, q + 1, 0);
    }
  }

  lemma {:induction false} Multiples(n: nat, a: nat, b: nat)
    ensures a < b ==> n * a + n <= n * b
  {
    if a < b {
      Multiples(n, a, b - 1);
      assert n * b == n * (b - 1) + n;
    }
  }

  lemma Division(k: nat, n: nat, q: nat, r: nat)
    requires 0 <= r < n && k == n * q + r
    ensures k / n == q && k % n == r
  {
    Multiples(n, q, k / n);
    Multiples(n, k / n, q);
  }

  /** The OID m places after `at`, itself for 0. */
  function Place(agent: Agent, at: Oid, m: nat): Option<Oid> {
    if m == 0 then Some(at)
    else
      var row := Ahead(agent, at, m - 1);
      if row.None? then None else Some(row.value.oid)
  }

  type Columns = map<Oid, Column>

  /** Column j, k bindings into an answer to a request that went on from `from`. */
  ghost predicate ColumnAt(agent: Agent, root: Oid, from: Column, c: Column, done: bool, maxRows: Option<nat>, m: nat) {
    && from.seen <= c.seen
    && if done then Complete(agent, root, c, maxRows)
       else OnCourse(agent, root, c, maxRows) && Place(agent, from.at, m) == Some(c.at)
            && (m > 0 ==> exists o :: o in Oids(agent) - from.seen && o in c.seen)
  }

  lemma AbsorbMovesOn(agent: Agent, root: Oid, from: Column, c: Column, maxRows: Option<nat>, m: nat)
    requires ColumnAt(agent, root, from, c, false, maxRows, m)
    ensures var (c', done) := Absorb(root, c, Ahead(agent, from.at, m), maxRows);
            ColumnAt(agent, root, from, c', done, maxRows, m + 1)
  {
    assert Ahead(agent, from.at, m) == Follow(agent, c.at);
    AbsorbKeepsCourse(agent, root, c, maxRows);
  }

  lemma ColumnTakes(agent: Agent, root: Oid, from: Column, c: Column, done: bool, maxRows: Option<nat>, m: nat)
    requires ColumnAt(agent, root, from, c, done, maxRows, m)
    ensures from.seen <= c.seen
    ensures if done then Complete(agent, root, c, maxRows) else OnCourse(agent, root, c, maxRows)
    ensures m > 0 && !done ==> exists o :: o in Oids(agent) - from.seen && o in c.seen
  {
  }

  /** k bindings into an answer to a request for the active columns of `from`. */
  ghost predicate Midway(agent: Agent, active: seq<Oid>, from: Columns, columns: Columns, done: set<Oid>,
                         maxRows: Option<nat>, k: nat) {
    && columns.Keys == from.Keys && done <= (set b | b in active)
    && (forall b | b in from && b !in active :: columns[b] == from[b])
    && (forall b | b in active :: b in from)
    && forall j | 0 <= j < |active| ::
         ColumnAt(agent, active[j], from[active[j]], columns[active[j]], active[j] in done, maxRows,
                  Taken(k, |active|, j))
  }

  lemma AtFirst(agent: Agent, active: seq<Oid>, from: Columns, maxRows: Option<nat>)
    requires forall b | b in active :: b in from && OnCourse(agent, b, from[b], maxRows)
    ensures Midway(agent, active, from, from, {}, maxRows, 0)
  {
    forall j | 0 <= j < |active|
      ensures Taken(0, |active|, j) == 0
      ensures ColumnAt(agent, active[j], from[active[j]], from[active[j]], false, maxRows, 0)
    {
    }
  }

  method TakeBinding(agent: Agent, active: seq<Oid>, ghost from: Columns, columns: Columns, done: set<Oid>,
                     maxRows: Option<nat>, k: nat, row: Option<Row>)
    returns (columns': Columns, done': set<Oid>)
    requires active != [] && NoRepeats(active) && Midway(agent, active, from, columns, done, maxRows, k)
    requires row == Ahead(agent, from[active[k % |active|]].at, k / |active|)
    ensures Midway(agent, active, from, columns', done', maxRows, k + 1)
  {
    hide ColumnAt, Absorb, Ahead, Taken, NoRepeats;
    NextTaken(k, |active|);
    var n, b := |active|, active[k % |active|];
    if b in done {
      DoneStaysDone(agent, b, from[b], columns[b], maxRows, k / n);
      OneBindingOn(agent, active, from, columns, done, columns, done, maxRows, k);
      return columns, done;
    }
    AbsorbMovesOn(agent, b, from[b], columns[b], maxRows, k / n);
    var (c, ended) := Absorb(b, columns[b], row, maxRows);
    columns', done' := columns[b := c], if ended then done + {b} else done;
    OneBindingOn(agent, active, from, columns, done, columns', done', maxRows, k);
  }

  lemma OneBindingOn(agent: Agent, active: seq<Oid>, from: Columns, columns: Columns, done: set<Oid>,
                     columns': Columns, done': set<Oid>, maxRows: Option<nat>, k: nat)
    requires active != [] && NoRepeats(active) && Midway(agent, active, from, columns, done, maxRows, k)
    requires columns'.Keys == columns.Keys && done <= done' <= done + {active[k % |active|]}
    requires forall b | b in columns && b != active[k % |active|] :: columns'[b] == columns[b]
    requires var b := active[k % |active|];
             b in from && b in columns'
             && ColumnAt(agent, b, from[b], columns'[b], b in done', maxRows, k / |active| + 1)
    ensures Midway(agent, active, from, columns', done', maxRows, k + 1)
  {
    hide ColumnAt, Taken;
    NextTaken(k, |active|);
  }

  /** What an answer leaves of the active columns: some done and complete, the
      rest on course, the first of them further than before. */
  ghost predicate AnswerTaken(agent: Agent, active: seq<Oid>, from: Columns, columns: Columns, done: set<Oid>,
                              maxRows: Option<nat>)
    requires active != []
  {
    && columns.Keys == from.Keys && done <= (set b | b in active)
    && (forall b | b in from && b !in active :: columns[b] == from[b])
    && (forall b | b in active ::
          && b in from && from[b].seen <= columns[b].seen
          && if b in done then Complete(agent, b, columns[b], maxRows) else OnCourse(agent, b, columns[b], maxRows))
    && (active[0] in done || exists o :: o in Oids(agent) - from[active[0]].seen && o in columns[active[0]].seen)
  }

  lemma AtLast(agent: Agent, active: seq<Oid>, from: Columns, columns: Columns, done: set<Oid>, maxRows: Option<nat>,
               size: nat)
    requires active != [] && size > 0 && Midway(agent, active, from, columns, done, maxRows, size)
    ensures AnswerTaken(agent, active, from, columns, done, maxRows)
  {
    forall b | b in active
      ensures b in from && from[b].seen <= columns[b].seen
      ensures if b in done then Complete(agent, b, columns[b], maxRows) else OnCourse(agent, b, columns[b], maxRows)
    {
      var j :| 0 <= j < |active| && active[j] == b;
      ColumnTakes(agent, b, from[b], columns[b], b in done, maxRows, Taken(size, |active|, j));
    }
    var b := active[0];
    FirstIsTaken(size, |active|);
    ColumnTakes(agent, b, from[b], columns[b], b in done, maxRows, Taken(size, |active|, 0));
  }

  /** The request: every active column from the last OID it returned. */
  method Request(agent: Agent, active: seq<Oid>, columns: Columns, size: nat) returns (bindings: seq<Option<Row>>)
    requires active != [] && forall b | b in active :: b in columns
    ensures |bindings| == size
    ensures forall k | 0 <= k < size :: bindings[k] == Ahead(agent, columns[active[k % |active|]].at, k / |active|)
  {
    var objects := seq(|active|, i requires 0 <= i < |active| && active[i] in columns => columns[active[i]].at);
    bindings := Bindings(agent, objects, size);
  }

  /** The loop over an answer's bindings. */
  method TakeAnswer(agent: Agent, active: seq<Oid>, columns: Columns, size: nat, maxRows: Option<nat>)
    returns (columns': Columns, done: set<Oid>)
    requires active != [] && NoRepeats(active) && size > 0
    requires forall b | b in active :: b in columns && OnCourse(agent, b, columns[b], maxRows)
    ensures AnswerTaken(agent, active, columns, columns', done, maxRows)
  {
    hide Midway, AnswerTaken, Ahead, OnCourse;
    var bindings := Request(agent, active, columns, size);
    columns', done := columns, {};
    AtFirst(agent, active, columns, maxRows);
    for k := 0 to size
      invariant Midway(agent, active, columns, columns', done, maxRows, k)
    {
      columns', done := TakeBinding(agent, active, columns, columns', done, maxRows, k, bindings[k]);
    }
    AtLast(agent, active, columns, columns', done, maxRows, size);
  }

  lemma DoneStaysDone(agent: Agent, root: Oid, from: Column, c: Column, maxRows: Option<nat>, m: nat)
    requires ColumnAt(agent, root, from, c, true, maxRows, m)
    ensures ColumnAt(agent, root, from, c, true, maxRows, m + 1)
  {
  }

  lemma FirstIsTaken(k: nat, n: nat)
    requires n > 0
    ensures k > 0 ==> Taken(k, n, 0) > 0
  {
    if 0 < k && k / n == 0 {
      assert k == n * (k / n) + k % n;
    }
  }

  // ---- whole walks -----------------------------------------------------------------

  /** What a request gets: an agent or network error, or an answer of some size
      (at most one binding per column asked about and repetition). */
  datatype Reply = Failed | Answered(size: nat)

  /** The bindings in an answer of that size to a request for so many columns. */
  function AnswerSize(size: nat, columns: nat, repetitions: nat): (n: nat)
    requires size > 0 && columns > 0 && repetitions > 0
    ensures n > 0
  {
    if size <= columns * repetitions then size
    else
      assert columns * repetitions >= columns * 1;
      columns * repetitions
  }

  /** How the requests of one walk fare, by their number among their kind. */
  datatype Fate = Fate(bulk: nat -> Reply, next: nat -> Reply)

  /** No GETNEXT fails and no answer is empty; GETBULK may fail at any point. */
  ghost predicate Answers(f: Fate) {
    && (forall i :: f.bulk(i) == Failed || f.bulk(i).size > 0)
    && (forall i :: f.next(i) != Failed && f.next(i).size > 0)
  }

  function Distinctly(roots: seq<Oid>): (active: seq<Oid>)
    ensures NoRepeats(active) && forall b :: b in active <==> b in roots
  {
    if roots == [] then []
    else
      var front, last := Distinctly(roots[..|roots| - 1]), roots[|roots| - 1];
      assert roots == roots[..|roots| - 1] + [last];
      if last in front then front else front + [last]
  }

  function StillActive(active: seq<Oid>, done: set<Oid>): (left: seq<Oid>)
    requires NoRepeats(active)
    ensures NoRepeats(left) && |left| <= |active|
    ensures forall b :: b in left <==> b in active && b !in done
    ensures active != [] && active[0] in done ==> |left| < |active|
  {
    if active == [] then []
    else
      var front, last := active[..|active| - 1], active[|active| - 1];
      assert active == front + [last];
      var left := StillActive(front, done);
      if last in done then left else left + [last]
  }

  /** What is left to return: the OIDs not yet seen, column by column. */
  ghost function Unseen(agent: Agent, active: seq<Oid>, columns: Columns): set<(Oid, Oid)>
    requires forall b | b in active :: b in columns
  {
    set b, o | b in active && o in Oids(agent) - columns[b].seen :: (b, o)
  }

  /** Every column asked about is complete, or under way and on course. */
  ghost predicate UnderWay(agent: Agent, roots: seq<Oid>, active: seq<Oid>, columns: Columns, maxRows: Option<nat>) {
    && NoRepeats(active)
    && (forall b | b in roots :: b in columns)
    && (forall b | b in active :: b in columns && OnCourse(agent, b, columns[b], maxRows))
    && (forall b | b in roots && b !in active :: Complete(agent, b, columns[b], maxRows))
  }

  lemma TakingProgresses(agent: Agent, roots: seq<Oid>, active: seq<Oid>, columns: Columns, columns': Columns,
                         done: set<Oid>, maxRows: Option<nat>)
    requires active != [] && UnderWay(agent, roots, active, columns, maxRows)
    requires AnswerTaken(agent, active, columns, columns', done, maxRows)
    ensures UnderWay(agent, roots, StillActive(active, done), columns', maxRows) && columns'.Keys == columns.Keys
    ensures var left, unseen := StillActive(active, done), Unseen(agent, active, columns);
            var unseen' := Unseen(agent, left, columns');
            unseen' < unseen || (unseen' == unseen && |left| < |active|)
  {
    var left, unseen := StillActive(active, done), Unseen(agent, active, columns);
    var unseen' := Unseen(agent, left, columns');
    assert unseen' <= unseen;
    if active[0] !in done {
      var o :| o in Oids(agent) - columns[active[0]].seen && o in columns'[active[0]].seen;
      assert (active[0], o) in unseen && (active[0], o) !in unseen';
    }
  }

  lemma StartsOnCourse(agent: Agent, root: Oid, maxRows: Option<nat>)
    ensures OnCourse(agent, root, Column([], root, {}), maxRows)
  {
  }

  lemma RowsSoFar(agent: Agent, root: Oid, c: Column, maxRows: Option<nat>)
    requires OnCourse(agent, root, c, maxRows) || Complete(agent, root, c, maxRows)
    ensures c.rows <= Walk(agent, root, maxRows)
    ensures Complete(agent, root, c, maxRows) ==> c.rows == Walk(agent, root, maxRows)
  {
  }

  class SnmpClient {
    /** Devices that have failed a GETBULK; later walks of them use GETNEXT only. */
    var bulkFailed: set<string>

    constructor ()
      ensures bulkFailed == {}
    {
      bulkFailed := {};
    }

    /** `_walk_columns`: each column gets a prefix of what the one-column GETNEXT walk
        would give it, and all of it unless a GETNEXT failed or an answer was empty. */
    method WalkColumns(agent: Agent, ip: string, roots: seq<Oid>, maxRepetitions: nat, maxRows: Option<nat>, fate: Fate)
      returns (rows: map<Oid, seq<Row>>, bulkRequests: nat, bulkFailures: nat)
      requires maxRepetitions >= 1
      modifies this
      ensures forall b :: b in rows <==> b in roots
      ensures forall b | b in rows :: rows[b] <= Walk(agent, b, maxRows)
      ensures Answers(fate) ==> forall b | b in rows :: rows[b] == Walk(agent, b, maxRows)
      ensures maxRows.Some? ==> forall b | b in rows :: |rows[b]| <= if maxRows.value == 0 then 1 else maxRows.value
      ensures bulkFailures <= 1 && bulkFailed == old(bulkFailed) + if bulkFailures == 1 then {ip} else {}
      ensures ip in old(bulkFailed) ==> bulkRequests == 0
    {
      hide OnCourse, Complete, Walk, Rest, Unseen, AnswerTaken, NoRepeats, AnswerSize;
      var active := Distinctly(roots);
      var columns: Columns := map b | b in roots :: Column([], b, {});
      forall b | b in roots ensures OnCourse(agent, b, columns[b], maxRows) {
        StartsOnCourse(agent, b, maxRows);
      }
      var nextRequests := 0;
      bulkRequests, bulkFailures := 0, 0;
      while active != []
        invariant UnderWay(agent, roots, active, columns, maxRows) && columns.Keys == set b | b in roots
        invariant bulkFailures <= 1 && bulkFailed == old(bulkFailed) + if bulkFailures == 1 then {ip} else {}
        invariant bulkFailures == 1 ==> ip !in old(bulkFailed)
        invariant ip in old(bulkFailed) ==> bulkRequests == 0
        decreases ip !in bulkFailed, Unseen(agent, active, columns), |active|
      {
        var reply, repetitions := Failed, 1;
        if ip !in bulkFailed {
          reply, repetitions := fate.bulk(bulkRequests), maxRepetitions;
          bulkRequests := bulkRequests + 1;
          if reply == Failed {
            bulkFailures := bulkFailures + 1;
            bulkFailed := bulkFailed + {ip};
            continue;
          }
        } else {
          reply := fate.next(nextRequests);
          nextRequests := nextRequests + 1;
        }
        if reply == Failed || reply.size == 0 {
          break;
        }
        var columns',
          done := TakeAnswer(agent, active, columns, AnswerSize(reply.size, |active|, repetitions), maxRows);
        TakingProgresses(agent, roots, active, columns, columns', done, maxRows);
        active, columns := StillActive(active, done), columns';
      }
      forall b | b in roots
        ensures columns[b].rows <= Walk(agent, b, maxRows)
        ensures b !in active ==> columns[b].rows == Walk(agent, b, maxRows)
        ensures maxRows.Some? ==> |columns[b].rows| <= if maxRows.value == 0 then 1 else maxRows.value
      {
        RowsSoFar(agent, b, columns[b], maxRows);
        if maxRows.Some? {
          CapCutsTheWalk(agent, b, maxRows.value);
        }
      }
      rows := map b | b in columns :: columns[b].rows;
    }
  }
}
