/** What the simple walk returns of an agent that keeps its OIDs in order: the
    whole subtree, in order. */
module SnmpTable {
  import opened Wrappers
  import opened SnmpWalk

  /** Lexicographic order of OIDs (section 4.2.2 of RFC 3416). */
  predicate Before(a: Oid, b: Oid) {
    b != [] && (a == [] || a[0] < b[0] || (a[0] == b[0] && Before(a[1..], b[1..])))
  }

  lemma SameStart(a: Oid, b: Oid)
    ensures forall i | 0 < i <= |a| && i <= |b| && a[..i] == b[..i] :: a[0] == b[0]
  {
    forall i | 0 < i <= |a| && i <= |b| && a[..i] == b[..i] ensures a[0] == b[0] {
      assert a[..i][0] == b[..i][0];
    }
  }

  /** The first number that differs decides; an OID comes before those it begins. */
  lemma {:induction false} BeforeIsLexicographic(a: Oid, b: Oid)
    ensures Before(a, b) <==>
              exists i :: && 0 <= i <= |a| && i < |b| && a[..i] == b[..i] && (i == |a| || a[i] < b[i])
  {
    if a != [] && b != [] && a[0] == b[0] {
      var a', b' := a[1..], b[1..];
      BeforeIsLexicographic(a', b');
      if i :| 0 <= i <= |a'| && i < |b'| && a'[..i] == b'[..i] && (i == |a'| || a'[i] < b'[i]) {
        assert a[..i + 1] == [a[0]] + a'[..i] && b[..i + 1] == [b[0]] + b'[..i];
      }
      if i :| 0 <= i <= |a| && i < |b| && a[..i] == b[..i] && (i == |a| || a[i] < b[i]) {
        assert i > 0 && a'[..i - 1] == a[..i][1..] && b'[..i - 1] == b[..i][1..];
      }
    } else if b != [] {
      assert a[..0] == b[..0];
      SameStart(a, b);
    }
  }

  lemma BeforeIsStrict(a: Oid, b: Oid, c: Oid)
    ensures !(Before(a, b) && Before(b, a))
    ensures Before(a, b) && Before(b, c) ==> Before(a, c)
  {
    if a != [] && b != [] {
      BeforeIsStrict(a[1..], b[1..], if c == [] then [] else c[1..]);
    }
  }

  lemma SubtreeByHead(root: Oid, o: Oid)
    requires root != [] && o != []
    ensures InSubtree(root, o) <==> root[0] == o[0] && InSubtree(root[1..], o[1..])
  {
    if |root| < |o| {
      assert o[..|root|] == [o[0]] + o[1..][..|root| - 1];
      assert root == [root[0]] + root[1..];
    }
  }

  lemma {:induction false} SubtreeIsAfterRoot(root: Oid, o: Oid)
    requires InSubtree(root, o)
    ensures Before(root, o)
  {
    if root != [] {
      SubtreeByHead(root, o);
      SubtreeIsAfterRoot(root[1..], o[1..]);
    }
  }

  /** Past the end of a subtree nothing belongs to it any more. */
  lemma {:induction false} SubtreeIsContiguous(root: Oid, a: Oid, b: Oid)
    requires Before(root, a) && !InSubtree(root, a) && Before(a, b)
    ensures !InSubtree(root, b)
  {
    if root != [] {
      SubtreeByHead(root, a);
      SubtreeByHead(root, b);
      if root[0] == a[0] == b[0] {
        SubtreeIsContiguous(root[1..], a[1..], b[1..]);
      }
    }
  }

  ghost predicate Ordered(mib: seq<Row>) {
    forall i, j | 0 <= i < j < |mib| :: Before(mib[i].oid, mib[j].oid)
  }

  /** The row at i, if there is one. */
  function RowAt(mib: seq<Row>, i: nat): Option<Row> {
    if i < |mib| then Some(mib[i]) else None
  }

  /** The agent holds the rows of mib in order: after each comes the next, and
      after the root, wherever it falls, the first row past it. */
  ghost predicate Serves(agent: Agent, mib: seq<Row>, root: Oid, first: nat) {
    && Ordered(mib) && first <= |mib|
    && (forall k | 0 <= k < |mib| :: Follow(agent, mib[k].oid) == RowAt(mib, k + 1))
    && (forall k | 0 <= k < first :: !Before(root, mib[k].oid))
    && (forall k | first <= k < |mib| :: Before(root, mib[k].oid))
    && Follow(agent, root) == RowAt(mib, first)
  }

  function SubtreeRows(mib: seq<Row>, root: Oid): seq<Row> {
    if mib == [] then []
    else (if InSubtree(root, mib[0].oid) then [mib[0]] else []) + SubtreeRows(mib[1..], root)
  }

  lemma {:induction false} NothingLeft(mib: seq<Row>, root: Oid)
    requires forall r | r in mib :: !InSubtree(root, r.oid)
    ensures SubtreeRows(mib, root) == []
  {
    if mib != [] {
      NothingLeft(mib[1..], root);
    }
  }

  lemma {:induction false} NothingBefore(mib: seq<Row>, root: Oid, i: nat)
    requires i <= |mib| && forall k | 0 <= k < i :: !Before(root, mib[k].oid)
    ensures SubtreeRows(mib, root) == SubtreeRows(mib[i..], root)
  {
    if i > 0 {
      if InSubtree(root, mib[0].oid) {
        SubtreeIsAfterRoot(root, mib[0].oid);
      }
      NothingBefore(mib[1..], root, i - 1);
      assert mib[1..][i - 1..] == mib[i..];
    } else {
      assert mib[0..] == mib;
    }
  }

  lemma OutsideFromHere(mib: seq<Row>, root: Oid, i: nat)
    requires Ordered(mib) && i < |mib| && Before(root, mib[i].oid) && !InSubtree(root, mib[i].oid)
    ensures SubtreeRows(mib[i..], root) == []
  {
    forall r | r in mib[i..] ensures !InSubtree(root, r.oid) {
      var k :| i <= k < |mib| && mib[k] == r;
      if k > i {
        SubtreeIsContiguous(root, mib[i].oid, r.oid);
      }
    }
    NothingLeft(mib[i..], root);
  }

  lemma {:induction false} RestIsSubtree(agent: Agent, mib: seq<Row>, root: Oid, first: nat, at: Oid, seen: set<Oid>,
                                         got: nat, i: nat)
    requires Serves(agent, mib, root, first) && first <= i <= |mib| && Follow(agent, at) == RowAt(mib, i)
    requires forall k | i <= k < |mib| :: mib[k].oid !in seen
    ensures Rest(agent, root, at, seen, got, None) == SubtreeRows(mib[i..], root)
    decreases |mib| - i
  {
    if i < |mib| {
      var o := mib[i].oid;
      if InSubtree(root, o) {
        assert mib[i..][1..] == mib[i + 1..];
        forall k | i + 1 <= k < |mib| ensures mib[k].oid !in seen + {o} {
          BeforeIsStrict(o, mib[k].oid, o);
        }
        RestIsSubtree(agent, mib, root, first, o, seen + {o}, got + 1, i + 1);
      } else {
        OutsideFromHere(mib, root, i);
      }
    }
  }

  /** An agent in OID order has the subtree read whole and in order, nothing else. */
  lemma WalkReadsTheSubtree(agent: Agent, mib: seq<Row>, root: Oid, first: nat)
    requires Serves(agent, mib, root, first)
    ensures Walk(agent, root, None) == SubtreeRows(mib, root)
  {
    RestIsSubtree(agent, mib, root, first, root, {}, 0, first);
    NothingBefore(mib, root, first);
  }

  /** With a cap, its first n rows. */
  lemma CappedWalkReadsTheFront(agent: Agent, mib: seq<Row>, root: Oid, first: nat, n: nat)
    requires Serves(agent, mib, root, first) && n > 0
    ensures var all := SubtreeRows(mib, root); Walk(agent, root, Some(n)) == if |all| <= n then all else all[..n]
  {
    WalkReadsTheSubtree(agent, mib, root, first);
    CapCutsTheWalk(agent, root, n);
  }

  /** The rows of a subtree: those of the table whose OID goes on past the root, in order. */
  lemma {:induction false} SubtreeRowsAre(mib: seq<Row>, root: Oid, r: Row)
    ensures r in SubtreeRows(mib, root) <==> r in mib && exists rest :: rest != [] && r.oid == root + rest
  {
    if mib != [] {
      SubtreeRowsAre(mib[1..], root, r);
      assert mib == [mib[0]] + mib[1..];
      if InSubtree(root, mib[0].oid) {
        assert mib[0].oid == root + mib[0].oid[|root|..];
      }
      if rest :| rest != [] && mib[0].oid == root + rest {
        assert mib[0].oid[..|root|] == root;
      }
    }
  }
}
