/** Which of a target's routes are kept: the first `keep` by `_order_key`. */
module RouteRanking {
  import opened Ordering

  /** What routes are compared by, in the order of the fields; greater first for the two
      reals, smaller first for the rest. */
  datatype Key = Key(likelihood: real, highestOvss: real, steps: nat, start: string, tos: seq<string>)

  predicate TosBelow(a: seq<string>, b: seq<string>) {
    b != [] && (a == [] || Below(a[0], b[0]) || (a[0] == b[0] && TosBelow(a[1..], b[1..])))
  }

  predicate Before(a: Key, b: Key) {
    if a.likelihood != b.likelihood then a.likelihood > b.likelihood
    else if a.highestOvss != b.highestOvss then a.highestOvss > b.highestOvss
    else if a.steps != b.steps then a.steps < b.steps
    else if a.start != b.start then Below(a.start, b.start)
    else TosBelow(a.tos, b.tos)
  }

  lemma TosTotal(a: seq<string>, b: seq<string>)
    ensures TosBelow(a, b) || a == b || TosBelow(b, a)
    ensures !(TosBelow(a, b) && TosBelow(b, a))
  {
    if a != [] && b != [] {
      Trichotomy(a[0], b[0]);
      TosTotal(a[1..], b[1..]);
      assert a == [a[0]] + a[1..] && b == [b[0]] + b[1..];
    }
  }

  lemma TosTransitive(a: seq<string>, b: seq<string>, c: seq<string>)
    requires TosBelow(a, b) && TosBelow(b, c)
    ensures TosBelow(a, c)
  {
    if a != [] {
      Trichotomy(a[0], b[0]);
      Trichotomy(b[0], c[0]);
      if a[0] == b[0] == c[0] {
        TosTransitive(a[1..], b[1..], c[1..]);
      } else if Below(a[0], b[0]) && Below(b[0], c[0]) {
        Transitive(a[0], b[0], c[0]);
      }
    }
  }

  /** The key is a total order: nothing is left to chance when routes tie. */
  lemma BeforeIsTotalOrder(a: Key, b: Key, c: Key)
    ensures Before(a, b) || a == b || Before(b, a)
    ensures !(Before(a, b) && Before(b, a))
    ensures Before(a, b) && Before(b, c) ==> Before(a, c)
  {
    Trichotomy(a.start, b.start);
    TosTotal(a.tos, b.tos);
    if Before(a, b) && Before(b, c) {
      Trichotomy(a.start, c.start);
      if Below(a.start, b.start) && Below(b.start, c.start) {
        Transitive(a.start, b.start, c.start);
      }
      if TosBelow(a.tos, b.tos) && TosBelow(b.tos, c.tos) {
        TosTransitive(a.tos, b.tos, c.tos);
      }
    }
  }

  function Insert(k: Key, s: seq<Key>): seq<Key> {
    if s == [] || !Before(s[0], k) then [k] + s else [s[0]] + Insert(k, s[1..])
  }

  function Sorted(s: seq<Key>): seq<Key> {
    if s == [] then [] else Insert(s[0], Sorted(s[1..]))
  }

  ghost predicate InOrder(s: seq<Key>) {
    forall i, j | 0 <= i < j < |s| :: !Before(s[j], s[i])
  }

  lemma {:induction false} InsertKeepsOrder(k: Key, s: seq<Key>)
    requires InOrder(s)
    ensures InOrder(Insert(k, s)) && multiset(Insert(k, s)) == multiset(s) + multiset{k}
  {
    hide Before;
    if s != [] && Before(s[0], k) {
      var rest := Insert(k, s[1..]);
      InsertKeepsOrder(k, s[1..]);
      assert s == [s[0]] + s[1..];
      forall j | 0 <= j < |rest| ensures !Before(rest[j], s[0]) {
        assert rest[j] in multiset(rest);
        BeforeIsTotalOrder(s[0], k, k);
        assert rest[j] == k || rest[j] in s[1..];
      }
    } else {
      forall j | 0 <= j < |s| ensures !Before(s[j], k) {
        BeforeIsTotalOrder(s[j], k, s[0]);
        if j > 0 {
          BeforeIsTotalOrder(s[0], s[j], k);
        }
        NotBeforeChains(s[0], s[j], k);
      }
    }
  }

  lemma NotBeforeChains(a: Key, b: Key, k: Key)
    requires (a == b || !Before(b, a)) && !Before(a, k)
    ensures !Before(b, k)
  {
    BeforeIsTotalOrder(a, b, k);
    BeforeIsTotalOrder(b, k, a);
  }

  lemma {:induction false} SortedIsOrderedPermutation(s: seq<Key>)
    ensures InOrder(Sorted(s)) && multiset(Sorted(s)) == multiset(s)
  {
    if s != [] {
      SortedIsOrderedPermutation(s[1..]);
      InsertKeepsOrder(s[0], Sorted(s[1..]));
      assert s == [s[0]] + s[1..];
    }
  }

  function Kept(routes: seq<Key>, keep: nat): seq<Key> {
    var ranked := Sorted(routes);
    if |ranked| <= keep then ranked else ranked[..keep]
  }

  function Dropped(routes: seq<Key>, keep: nat): seq<Key> {
    Sorted(routes)[|Kept(routes, keep)|..]
  }

  lemma SplitInOrder(a: seq<Key>, b: seq<Key>)
    requires InOrder(a + b)
    ensures InOrder(a) && forall d, k | d in b && k in a :: !Before(d, k)
  {
    var s := a + b;
    assert forall i | 0 <= i < |a| :: a[i] == s[i];
    assert forall i | 0 <= i < |b| :: b[i] == s[|a| + i];
  }

  /** The kept routes are ranked, none is lost or made up, as many are kept as
      asked for, and no dropped route comes before a kept one. */
  lemma KeptAreTheBest(routes: seq<Key>, keep: nat)
    ensures InOrder(Kept(routes, keep))
    ensures |Kept(routes, keep)| == if |routes| <= keep then |routes| else keep
    ensures multiset(Kept(routes, keep)) + multiset(Dropped(routes, keep)) == multiset(routes)
    ensures forall d, k | d in Dropped(routes, keep) && k in Kept(routes, keep) :: !Before(d, k)
  {
    SortedIsOrderedPermutation(routes);
    assert |multiset(Sorted(routes))| == |multiset(routes)|;
    assert Sorted(routes) == Kept(routes, keep) + Dropped(routes, keep);
    SplitInOrder(Kept(routes, keep), Dropped(routes, keep));
  }

  /** Up to the nth node the lists agree; there the first ends or has the lower node. */
  ghost predicate SplitAt(a: seq<string>, b: seq<string>, n: int) {
    0 <= n <= |a| && n < |b| && a[..n] == b[..n] && (n == |a| || Below(a[n], b[n]))
  }

  lemma {:induction false} TosAreComparedLikeWords(a: seq<string>, b: seq<string>)
    ensures TosBelow(a, b) <==> exists n :: SplitAt(a, b, n)
  {
    if a != [] && b != [] && a[0] == b[0] {
      TosAreComparedLikeWords(a[1..], b[1..]);
      Trichotomy(a[0], b[0]);
      if n :| SplitAt(a[1..], b[1..], n) {
        assert a[..n + 1] == [a[0]] + a[1..][..n] && b[..n + 1] == [b[0]] + b[1..][..n];
        assert SplitAt(a, b, n + 1);
      }
      if n :| SplitAt(a, b, n) {
        assert a[1..][..n - 1] == a[..n][1..] && b[1..][..n - 1] == b[..n][1..];
        assert SplitAt(a[1..], b[1..], n - 1);
      }
    } else {
      assert TosBelow(a, b) ==> SplitAt(a, b, 0);
      if n :| SplitAt(a, b, n) && n > 0 {
        assert a[..n][0] == b[..n][0];
      }
    }
  }

  /** The first of two routes is the likelier; on a tie the one through the higher score, then
      the shorter, then the one from the lower start, then the one by the lower nodes. */
  ghost predicate RanksFirst(a: Key, b: Key) {
    && b.likelihood <= a.likelihood
    && (a.likelihood == b.likelihood ==> b.highestOvss <= a.highestOvss)
    && (a.likelihood == b.likelihood && a.highestOvss == b.highestOvss ==> a.steps <= b.steps)
    && (a.(start := "", tos := []) == b.(start := "", tos := []) ==> !Below(b.start, a.start))
    && (a.(tos := []) == b.(tos := []) ==> !TosBelow(b.tos, a.tos))
  }

  /** Down the kept routes the likelihood only falls, and no dropped route is likelier. */
  lemma KeptByLikelihood(routes: seq<Key>, keep: nat)
    ensures forall i, j | 0 <= i < j < |Kept(routes, keep)| :: RanksFirst(Kept(routes, keep)[i], Kept(routes, keep)[j])
    ensures forall d, k | d in Dropped(routes, keep) && k in Kept(routes, keep) :: RanksFirst(k, d)
  {
    hide Kept, Dropped, Before, RanksFirst;
    KeptAreTheBest(routes, keep);
    forall a, b | !Before(b, a) ensures RanksFirst(a, b) {
      NotBeforeRanks(a, b);
    }
  }

  lemma NotBeforeRanks(a: Key, b: Key)
    requires !Before(b, a)
    ensures RanksFirst(a, b)
  {
    Trichotomy(a.start, b.start);
  }
}
