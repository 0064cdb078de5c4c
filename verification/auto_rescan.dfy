/** Automatic rescans that do not loop: `plugin/server/autoRescan.ts`. */
module AutoRescans {
  import opened Wrappers

  const MAX_BACKOFF_SECONDS: nat := 3600
  const SUGGESTED := "suggested by the liveness pass"

  datatype Status = Running | Failed | Ended

  /** What one liveness pass finds: the scan's state, the reasons it lists, the clock
      (milliseconds), and whether the scan lock would be given. */
  datatype Pass = Pass(status: Status, startedAt: Option<int>, suggested: bool, listed: seq<string>, now: int,
                       lockFree: bool)

  datatype Settings = Settings(enabled: bool, minIntervalSeconds: nat)

  datatype State = State(lastAutoStart: Option<int>, pending: Option<set<string>>, settled: set<string>, failures: nat)

  const FIRST := State(None, None, {}, 0)

  function Reasons(p: Pass): seq<string> {
    if !p.suggested then [] else if p.listed != [] then p.listed else [SUGGESTED]
  }

  function ReasonSet(p: Pass): (reasons: set<string>)
    ensures forall r :: r in reasons <==> r in Reasons(p)
  {
    set r | r in Reasons(p)
  }

  function Pow2(n: nat): nat {
    if n == 0 then 1 else 2 * Pow2(n - 1)
  }

  function Min(a: int, b: int): int {
    if a < b then a else b
  }

  function Max(a: int, b: int): int {
    if a < b then b else a
  }

  /** The back-off: doubled for each failure, up to the larger of the limits. */
  function IntervalSeconds(o: Settings, failures: nat): int {
    Min(o.minIntervalSeconds * Pow2(failures), Max(MAX_BACKOFF_SECONDS, o.minIntervalSeconds))
  }

  /** Too soon after the last scan's start, automatic or manual. */
  predicate TooSoon(o: Settings, s: State, p: Pass) {
    || (s.lastAutoStart.Some? && p.now - s.lastAutoStart.value < IntervalSeconds(o, s.failures) * 1000)
    || (p.startedAt.Some? && p.now - p.startedAt.value < IntervalSeconds(o, s.failures) * 1000)
  }

  /** The pass looks at the reasons: it is on, and no scan runs. */
  predicate Looks(o: Settings, p: Pass) {
    o.enabled && !p.status.Running?
  }

  /** Seeing the outcome of the automatic scan, and the reasons that are gone. */
  function Outcome(s: State, p: Pass): State {
    var reasons := ReasonSet(p);
    var s' :=
      if s.pending.None? then s
      else if p.status.Failed? then s.(failures := s.failures + 1, pending := None)
      else s.(failures := 0, pending := None, settled := s.settled + reasons * s.pending.value);
    s'.(settled := s'.settled * reasons)
  }

  predicate Starts(o: Settings, s: State, p: Pass) {
    && Looks(o, p)
    && (exists r :: r in ReasonSet(p) && r !in Outcome(s, p).settled)
    && !TooSoon(o, Outcome(s, p), p) && p.lockFree
  }

  function Next(o: Settings, s: State, p: Pass): State {
    if !Looks(o, p) then s
    else if Starts(o, s, p) then Outcome(s, p).(lastAutoStart := Some(p.now), pending := Some(ReasonSet(p)))
    else Outcome(s, p)
  }

  /** `createAutoRescan`'s closure. */
  class AutoRescan {
    const o: Settings
    var lastAutoStart: Option<int>
    var pending: Option<set<string>>
    var settled: set<string>
    var failures: nat

    ghost function View(): State
      reads this
    {
      State(lastAutoStart, pending, settled, failures)
    }

    constructor (o: Settings)
      ensures this.o == o && View() == FIRST
    {
      this.o := o;
      lastAutoStart, pending, settled, failures := None, None, {}, 0;
    }

    /** The hook of a pass: whether it started a scan. */
    method OnPass(p: Pass) returns (started: bool)
      modifies this
      ensures View() == Next(o, old(View()), p) && started == Starts(o, old(View()), p)
    {
      if !o.enabled || p.status.Running? {
        return false;
      }
      var reasons := Reasons(p);
      var listed := ReasonSet(p);
      if pending.Some? {
        if p.status.Failed? {
          failures := failures + 1;
        } else {
          failures := 0;
          settled := settled + listed * pending.value;
        }
        pending := None;
      }
      settled := settled * listed;
      assert View() == Outcome(old(View()), p);
      var i := 0;
      while i < |reasons| && reasons[i] in settled
        invariant i <= |reasons| && forall k | 0 <= k < i :: reasons[k] in settled
      {
        i := i + 1;
      }
      if i == |reasons| {
        return false;
      }
      assert reasons[i] in reasons;
      var wait := Min(o.minIntervalSeconds * Pow2(failures), Max(MAX_BACKOFF_SECONDS, o.minIntervalSeconds)) * 1000;
      if || (lastAutoStart.Some? && p.now - lastAutoStart.value < wait)
         || (p.startedAt.Some? && p.now - p.startedAt.value < wait)
      {
        return false;
      }
      if !p.lockFree {
        return false;
      }
      lastAutoStart, pending := Some(p.now), Some(listed);
      return true;
    }
  }

  // ---- whole histories of passes -----------------------------------------------------------

  function After(o: Settings, h: seq<Pass>): State {
    if h == [] then FIRST else Next(o, After(o, h[..|h| - 1]), h[|h| - 1])
  }

  /** The pass sees the outcome of an automatic scan that completed. */
  predicate Completes(o: Settings, s: State, p: Pass) {
    Looks(o, p) && s.pending.Some? && !p.status.Failed?
  }

  function Completed(o: Settings, h: seq<Pass>): nat {
    if h == [] then 0
    else Completed(o, h[..|h| - 1]) + if Completes(o, After(o, h[..|h| - 1]), h[|h| - 1]) then 1 else 0
  }

  /** The reasons listed so far, and those the last pass that looked listed. */
  function Listed(o: Settings, h: seq<Pass>): set<string> {
    if h == [] then {}
    else Listed(o, h[..|h| - 1]) + if Looks(o, h[|h| - 1]) then ReasonSet(h[|h| - 1]) else {}
  }

  function Current(o: Settings, h: seq<Pass>): set<string> {
    if h == [] then {}
    else if Looks(o, h[|h| - 1]) then ReasonSet(h[|h| - 1]) else Current(o, h[..|h| - 1])
  }

  /** No reason comes back once a pass that looked has seen it gone. */
  ghost predicate NoReturns(o: Settings, h: seq<Pass>) {
    forall k, r | 0 <= k < |h| && Looks(o, h[k]) && r in Reasons(h[k]) && r in Listed(o, h[..k]) ::
      r in Current(o, h[..k])
  }

  /** Every completed scan has used up a reason: settled it, or seen it gone; and one
      is pending only for a reason that is listed and not used up. */
  ghost predicate Balances(listed: set<string>, current: set<string>, s: State, completed: nat) {
    && s.settled <= current <= listed && completed <= |s.settled + (listed - current)|
    && (s.pending.Some? ==> exists r :: r in s.pending.value && r in current && r !in s.settled)
  }

  ghost predicate Accounts(o: Settings, h: seq<Pass>) {
    Balances(Listed(o, h), Current(o, h), After(o, h), Completed(o, h))
  }

  lemma NoReturnsBefore(o: Settings, h: seq<Pass>)
    requires NoReturns(o, h) && h != []
    ensures NoReturns(o, h[..|h| - 1])
  {
    var front := h[..|h| - 1];
    forall k, r | 0 <= k < |front| && Looks(o, front[k]) && r in Reasons(front[k]) && r in Listed(o, front[..k])
      ensures r in Current(o, front[..k])
    {
      assert front[..k] == h[..k] && front[k] == h[k];
    }
  }

  lemma SubsetIsNoLarger(a: set<string>, b: set<string>)
    requires a <= b
    ensures |a| <= |b|
  {
    assert b == a + (b - a);
  }

  /** One pass that looks: nothing used up is lost, and a completed scan uses up the
      reason it was started for. */
  lemma UsesUp(listed: set<string>, current: set<string>, settled: set<string>, reasons: set<string>,
               more: set<string>, r: string)
    requires settled <= current <= listed && reasons * listed <= current
    ensures var used, used' := settled + (listed - current), (settled + more) * reasons + (listed + reasons - reasons);
            used <= used' && |used| <= |used'|
            && (r in current && r !in settled && (r in reasons ==> r in more) ==> |used| + 1 <= |used'|)
  {
    var used, used' := settled + (listed - current), (settled + more) * reasons + (listed + reasons - reasons);
    SubsetIsNoLarger(used, used');
    if r in current && r !in settled && (r in reasons ==> r in more) {
      assert r in used' && r !in used;
      SubsetIsNoLarger(used + {r}, used');
    }
  }

  lemma NothingReturns(o: Settings, front: seq<Pass>, p: Pass)
    requires NoReturns(o, front + [p]) && Looks(o, p)
    ensures ReasonSet(p) * Listed(o, front) <= Current(o, front)
  {
    hide Listed, Current;
    assert (front + [p])[..|front|] == front && (front + [p])[|front|] == p;
  }

  lemma BalanceKept(listed: set<string>, current: set<string>, s: State, completed: nat, reasons: set<string>,
                    s': State, completes: bool)
    requires Balances(listed, current, s, completed) && reasons * listed <= current && (completes ==> s.pending.Some?)
    requires s'.settled == (s.settled + if completes then reasons * s.pending.value else {}) * reasons
    requires s'.pending.Some? ==> s'.pending.value == reasons && exists r :: r in reasons && r !in s'.settled
    ensures Balances(listed + reasons, reasons, s', completed + if completes then 1 else 0)
  {
    if completes {
      var r :| r in s.pending.value && r in current && r !in s.settled;
      UsesUp(listed, current, s.settled, reasons, reasons * s.pending.value, r);
    } else {
      UsesUp(listed, current, s.settled, reasons, {}, "");
    }
  }

  lemma AccountsStep(o: Settings, front: seq<Pass>, p: Pass)
    requires Accounts(o, front) && NoReturns(o, front + [p]) && Looks(o, p)
    ensures Accounts(o, front + [p])
  {
    NothingReturns(o, front, p);
    Looked(o, front, p);
    BalanceKept(Listed(o, front), Current(o, front), After(o, front), Completed(o, front), ReasonSet(p),
                After(o, front + [p]),
                Completes(o, After(o, front), p));
  }

  lemma Overlooked(o: Settings, front: seq<Pass>, p: Pass)
    requires Accounts(o, front) && !Looks(o, p)
    ensures Accounts(o, front + [p])
  {
    assert (front + [p])[..|front|] == front;
  }

  lemma Looked(o: Settings, front: seq<Pass>, p: Pass)
    requires Looks(o, p)
    ensures var h, s := front + [p], After(o, front);
            var more := if Completes(o, s, p) then ReasonSet(p) * s.pending.value else {};
            && After(o, h).settled == (s.settled + more) * ReasonSet(p)
            && Listed(o, h) == Listed(o, front) + ReasonSet(p) && Current(o, h) == ReasonSet(p)
            && Completed(o, h) == Completed(o, front) + (if Completes(o, s, p) then 1 else 0)
            && (After(o, h).pending.Some? ==> (After(o, h).pending.value == ReasonSet(p)
                                               && exists r :: r in ReasonSet(p) && r !in After(o, h).settled))
  {
    assert (front + [p])[..|front|] == front;
  }

  lemma {:induction false} AccountsAlways(o: Settings, h: seq<Pass>)
    requires NoReturns(o, h)
    ensures Accounts(o, h)
  {
    if h != [] {
      NoReturnsBefore(o, h);
      AccountsAlways(o, h[..|h| - 1]);
      assert h == h[..|h| - 1] + [h[|h| - 1]];
      if Looks(o, h[|h| - 1]) {
        AccountsStep(o, h[..|h| - 1], h[|h| - 1]);
      } else {
        Overlooked(o, h[..|h| - 1], h[|h| - 1]);
      }
    }
  }

  /** Unless reasons come back, automatic scans complete at most once per reason. */
  lemma CompletedScansAreBounded(o: Settings, h: seq<Pass>)
    requires NoReturns(o, h)
    ensures Completed(o, h) <= |Listed(o, h)|
  {
    AccountsAlways(o, h);
    SubsetIsNoLarger(After(o, h).settled + (Listed(o, h) - Current(o, h)), Listed(o, h));
  }

  // ---- spacing ---------------------------------------------------------------------------

  predicate StartsAt(o: Settings, h: seq<Pass>, k: nat)
    requires k < |h|
  {
    Starts(o, After(o, h[..k]), h[k])
  }

  lemma {:induction false} IntervalIsNonNegative(o: Settings, failures: nat)
    ensures 0 <= IntervalSeconds(o, failures)
  {
  }

  /** The last automatic start is no earlier than any before it. */
  lemma {:induction false} LastStartIsLatest(o: Settings, h: seq<Pass>, i: nat)
    requires i < |h| && StartsAt(o, h, i)
    ensures After(o, h).lastAutoStart.Some? && h[i].now <= After(o, h).lastAutoStart.value
  {
    hide Outcome, IntervalSeconds;
    var front, p := h[..|h| - 1], h[|h| - 1];
    if i < |front| {
      assert front[..i] == h[..i] && front[i] == h[i];
      LastStartIsLatest(o, front, i);
      OutcomeKeepsStart(After(o, front), p);
      IntervalIsNonNegative(o, Outcome(After(o, front), p).failures);
    } else {
      assert h[..i] == front;
    }
  }

  lemma OutcomeKeepsStart(s: State, p: Pass)
    ensures Outcome(s, p).lastAutoStart == s.lastAutoStart
  {
  }

  /** Any two automatic starts are at least the back-off apart, with the failures
      counted at the later one. */
  lemma StartsAreSpaced(o: Settings, h: seq<Pass>, i: nat, j: nat)
    requires i < j < |h| && StartsAt(o, h, i) && StartsAt(o, h, j)
    ensures h[j].now - h[i].now >= IntervalSeconds(o, Outcome(After(o, h[..j]), h[j]).failures) * 1000
  {
    hide Outcome, IntervalSeconds;
    assert h[..j][..i] == h[..i] && h[..j][i] == h[i];
    LastStartIsLatest(o, h[..j], i);
    OutcomeKeepsStart(After(o, h[..j]), h[j]);
  }

  // ---- the failures counted --------------------------------------------------------------------

  /** The outcomes of the automatic scans seen so far: true for a completed one. */
  function Outcomes(o: Settings, h: seq<Pass>): seq<bool> {
    if h == [] then []
    else
      var before, p := Outcomes(o, h[..|h| - 1]), h[|h| - 1];
      if Looks(o, p) && After(o, h[..|h| - 1]).pending.Some? then before + [!p.status.Failed?] else before
  }

  function FailuresAtTheEnd(outcomes: seq<bool>): nat {
    if outcomes == [] || outcomes[|outcomes| - 1] then 0 else 1 + FailuresAtTheEnd(outcomes[..|outcomes| - 1])
  }

  /** The count that doubles the interval is of the failures since the last completed
      automatic scan. */
  lemma {:induction false} FailuresAreConsecutive(o: Settings, h: seq<Pass>)
    ensures After(o, h).failures == FailuresAtTheEnd(Outcomes(o, h))
  {
    if h != [] {
      var front, p := h[..|h| - 1], h[|h| - 1];
      FailuresAreConsecutive(o, front);
      if Looks(o, p) && After(o, front).pending.Some? {
        assert Outcomes(o, h)[..|Outcomes(o, front)|] == Outcomes(o, front);
      }
    }
  }

  /** The interval never falls as failures add up, and stays within its limits. */
  lemma {:induction false} IntervalGrows(o: Settings, failures: nat)
    ensures o.minIntervalSeconds <= IntervalSeconds(o, failures) <= IntervalSeconds(o, failures + 1)
    ensures IntervalSeconds(o, failures) <= Max(MAX_BACKOFF_SECONDS, o.minIntervalSeconds)
  {
    Pow2IsPositive(failures);
    Doubles(o.minIntervalSeconds, Pow2(failures));
  }

  lemma {:induction false} Pow2IsPositive(n: nat)
    ensures Pow2(n) >= 1
  {
    if n > 0 {
      Pow2IsPositive(n - 1);
    }
  }

  lemma Doubles(m: nat, k: nat)
    requires k >= 1
    ensures m <= m * k <= m * (2 * k)
  {
    assert m * (2 * k) == m * k + m * k;
  }

  /** Without failures the interval is the configured one; each failure doubles it, up to an
      hour or the configured interval, whichever is longer. */
  lemma {:induction false} IntervalDoubles(o: Settings, failures: nat)
    ensures IntervalSeconds(o, 0) == o.minIntervalSeconds
    ensures var cap, twice := if o.minIntervalSeconds < 3600 then 3600 else o.minIntervalSeconds,
                              2 * IntervalSeconds(o, failures);
            IntervalSeconds(o, failures + 1) == if twice < cap then twice else cap
  {
    assert Pow2(0) == 1 && Pow2(failures + 1) == 2 * Pow2(failures);
    assert o.minIntervalSeconds * (2 * Pow2(failures)) == 2 * (o.minIntervalSeconds * Pow2(failures));
  }

  // ---- when a pass starts a scan ---------------------------------------------------------------

  /** The pass gives r as a reason for a rescan; one that lists none gives the standard one. */
  ghost predicate Gives(p: Pass, r: string) {
    p.suggested && (r in p.listed || (|p.listed| == 0 && r == "suggested by the liveness pass"))
  }

  /** Pass k, the first to look after the scan that pass j started, saw that it had completed. */
  ghost predicate SawItComplete(o: Settings, h: seq<Pass>, j: int, k: int) {
    && 0 <= j < k < |h| && StartsAt(o, h, j) && Looks(o, h[k]) && h[k].status != Failed
    && forall m | j < m < k :: !Looks(o, h[m])
  }

  /** A completed automatic scan started for r did not clear it, and r has been given since. */
  ghost predicate IsUsedUp(o: Settings, h: seq<Pass>, r: string) {
    exists j, k :: && SawItComplete(o, h, j, k) && Gives(h[j], r)
                   && forall m | k <= m < |h| && Looks(o, h[m]) :: Gives(h[m], r)
  }

  /** Pass j started a scan, and no pass has looked since. */
  ghost predicate IsAwaited(o: Settings, h: seq<Pass>, j: int) {
    0 <= j < |h| && StartsAt(o, h, j) && forall m | j < m < |h| :: !Looks(o, h[m])
  }

  lemma StartsAtStays(o: Settings, front: seq<Pass>, p: Pass, j: nat)
    requires j < |front|
    ensures StartsAt(o, front + [p], j) == StartsAt(o, front, j)
  {
    assert (front + [p])[..j] == front[..j];
  }

  lemma StartsLast(o: Settings, front: seq<Pass>, p: Pass)
    ensures StartsAt(o, front + [p], |front|) == Starts(o, After(o, front), p)
    ensures After(o, front + [p]) == Next(o, After(o, front), p)
  {
    assert (front + [p])[..|front|] == front;
  }

  lemma AwaitedStays(o: Settings, front: seq<Pass>, p: Pass)
    ensures forall j | 0 <= j < |front| :: IsAwaited(o, front + [p], j) == (!Looks(o, p) && IsAwaited(o, front, j))
  {
    hide StartsAt, Looks;
    var h := front + [p];
    forall j | 0 <= j < |front| ensures IsAwaited(o, h, j) == (!Looks(o, p) && IsAwaited(o, front, j)) {
      StartsAtStays(o, front, p, j);
      assert h[|front|] == p && forall m | 0 <= m < |front| :: h[m] == front[m];
    }
  }

  lemma LastIsAwaited(o: Settings, front: seq<Pass>, p: Pass)
    ensures IsAwaited(o, front + [p], |front|) == Starts(o, After(o, front), p)
    ensures forall j :: IsAwaited(o, front + [p], j) ==> 0 <= j <= |front|
  {
    hide Starts, Looks, After;
    StartsLast(o, front, p);
  }

  lemma NextPending(o: Settings, s: State, p: Pass)
    ensures Next(o, s, p).pending
            == if Starts(o, s, p) then Some(ReasonSet(p)) else if Looks(o, p) then None else s.pending
    ensures Next(o, s, p).lastAutoStart == if Starts(o, s, p) then Some(p.now) else s.lastAutoStart
    ensures Starts(o, s, p) ==> Looks(o, p)
    ensures var more := if s.pending.Some? && !p.status.Failed? then s.pending.value else {};
            Next(o, s, p).settled == if Looks(o, p) then (s.settled + more) * ReasonSet(p) else s.settled
  {
    hide TooSoon, ReasonSet;
  }

  /** What is pending are the reasons of the scan whose outcome no pass has looked at. */
  lemma {:induction false} PendingIsAwaited(o: Settings, h: seq<Pass>)
    ensures After(o, h).pending.Some? <==> exists j :: IsAwaited(o, h, j)
    ensures forall j | IsAwaited(o, h, j) :: After(o, h).pending == Some(ReasonSet(h[j]))
  {
    hide StartsAt, Looks, Starts, Next, ReasonSet;
    if h != [] {
      var front, p := h[..|h| - 1], h[|h| - 1];
      assert h == front + [p];
      PendingIsAwaited(o, front);
      AwaitedStays(o, front, p);
      LastIsAwaited(o, front, p);
      NextPending(o, After(o, front), p);
      PendingStep(o, front, p, After(o, front), After(o, h));
    }
  }

  lemma PendingStep(o: Settings, front: seq<Pass>, p: Pass, s: State, s': State)
    requires s.pending.Some? <==> exists j :: IsAwaited(o, front, j)
    requires forall j | IsAwaited(o, front, j) :: s.pending == Some(ReasonSet(front[j]))
    requires s'.pending == if Starts(o, s, p) then Some(ReasonSet(p)) else if Looks(o, p) then None else s.pending
    requires Starts(o, s, p) ==> Looks(o, p)
    requires forall j | 0 <= j < |front| :: IsAwaited(o, front + [p], j) == (!Looks(o, p) && IsAwaited(o, front, j))
    requires IsAwaited(o, front + [p], |front|) == Starts(o, s, p)
    requires forall j :: IsAwaited(o, front + [p], j) ==> 0 <= j <= |front|
    ensures s'.pending.Some? <==> exists j :: IsAwaited(o, front + [p], j)
    ensures forall j | IsAwaited(o, front + [p], j) :: s'.pending == Some(ReasonSet((front + [p])[j]))
  {
    hide Looks, Starts, ReasonSet;
    var h := front + [p];
    forall j | IsAwaited(o, h, j) ensures s'.pending == Some(ReasonSet(h[j])) {
      if j < |front| {
        assert IsAwaited(o, front, j);
      }
    }
    if s'.pending.Some? && !Starts(o, s, p) {
      var j :| IsAwaited(o, front, j);
      assert IsAwaited(o, h, j);
    }
  }

  lemma GivesIsReason(p: Pass, r: string)
    ensures Gives(p, r) <==> r in ReasonSet(p)
  {
  }

  /** What one more pass does to what is used up. */
  lemma UsedUpStep(o: Settings, front: seq<Pass>, p: Pass, r: string)
    ensures var saw := exists j :: IsAwaited(o, front, j) && Gives(front[j], r);
            IsUsedUp(o, front + [p], r)
            <==> if Looks(o, p) then Gives(p, r) && (IsUsedUp(o, front, r) || (p.status != Failed && saw))
                 else IsUsedUp(o, front, r)
  {
    hide StartsAt, Looks, Gives;
    var h := front + [p];
    assert h[|front|] == p && forall m | 0 <= m < |front| :: h[m] == front[m];
    forall j | 0 <= j < |front| ensures StartsAt(o, h, j) == StartsAt(o, front, j) {
      StartsAtStays(o, front, p, j);
    }
    if IsUsedUp(o, h, r) {
      var j, k :| && SawItComplete(o, h, j, k) && Gives(h[j], r)
                  && forall m | k <= m < |h| && Looks(o, h[m]) :: Gives(h[m], r);
      if k < |front| {
        assert SawItComplete(o, front, j, k);
      } else {
        assert IsAwaited(o, front, j);
      }
    }
    if IsUsedUp(o, front, r) && (Looks(o, p) ==> Gives(p, r)) {
      var j, k :| && SawItComplete(o, front, j, k) && Gives(front[j], r)
                  && forall m | k <= m < |front| && Looks(o, front[m]) :: Gives(front[m], r);
      assert SawItComplete(o, h, j, k);
    }
    if Looks(o, p) && p.status != Failed && Gives(p, r) {
      if j :| IsAwaited(o, front, j) && Gives(front[j], r) {
        assert SawItComplete(o, h, j, |front|);
      }
    }
  }

  /** What the closure calls settled is what a completed scan was started for and left standing. */
  lemma {:induction false} SettledIsUsedUp(o: Settings, h: seq<Pass>, r: string)
    ensures r in After(o, h).settled <==> IsUsedUp(o, h, r)
  {
    hide Looks, Starts, Next, ReasonSet, Gives;
    if h != [] {
      var front, p := h[..|h| - 1], h[|h| - 1];
      assert h == front + [p];
      var s := After(o, front);
      SettledIsUsedUp(o, front, r);
      PendingIsAwaited(o, front);
      NextPending(o, s, p);
      UsedUpStep(o, front, p, r);
      GivesIsReason(p, r);
      forall j | IsAwaited(o, front, j) ensures Gives(front[j], r) <==> r in s.pending.value {
        GivesIsReason(front[j], r);
      }
      if s.pending.Some? {
        var j :| IsAwaited(o, front, j);
        assert (exists i :: IsAwaited(o, front, i) && Gives(front[i], r)) <==> r in s.pending.value;
      }
      assert After(o, h) == Next(o, s, p) && h[|front|] == p;
    }
  }

  lemma {:induction false} LastStartWasAStart(o: Settings, h: seq<Pass>)
    ensures After(o, h).lastAutoStart.Some? ==>
              exists i :: 0 <= i < |h| && StartsAt(o, h, i) && h[i].now == After(o, h).lastAutoStart.value
  {
    hide Looks, Starts, Next, ReasonSet, StartsAt;
    if h != [] {
      var front, p := h[..|h| - 1], h[|h| - 1];
      assert h == front + [p];
      LastStartWasAStart(o, front);
      NextPending(o, After(o, front), p);
      StartsLast(o, front, p);
      if !Starts(o, After(o, front), p) && After(o, front).lastAutoStart.Some? {
        var i :| 0 <= i < |front| && StartsAt(o, front, i) && front[i].now == After(o, front).lastAutoStart.value;
        StartsAtStays(o, front, p, i);
      }
    }
  }

  /** No scan started less than the interval ago: none of the earlier passes', and not the
      one the server tells of, which may be manual. */
  ghost predicate IsLongEnoughAgo(o: Settings, h: seq<Pass>, p: Pass, seconds: int) {
    && (forall i | 0 <= i < |h| && StartsAt(o, h, i) :: p.now - h[i].now >= seconds * 1000)
    && (p.startedAt.Some? ==> p.now - p.startedAt.value >= seconds * 1000)
  }

  /** Exactly when a pass starts a scan: automatic rescans are on, no scan runs, the lock is
      given, some reason of the pass is not used up, and no scan started less than the
      interval ago, doubled for each automatic scan that failed since the last completed one. */
  lemma StartsExactlyWhen(o: Settings, h: seq<Pass>, p: Pass)
    ensures StartsAt(o, h + [p], |h|)
            <==> && o.enabled && p.status != Running && p.lockFree
                 && (exists r :: Gives(p, r) && !IsUsedUp(o, h + [p], r))
                 && IsLongEnoughAgo(o, h, p, IntervalSeconds(o, FailuresAtTheEnd(Outcomes(o, h + [p]))))
  {
    hide StartsAt, Gives, IsUsedUp, After, Outcome, IntervalSeconds, Outcomes, FailuresAtTheEnd, ReasonSet;
    StartsLast(o, h, p);
    if Looks(o, p) {
      var s := After(o, h);
      NextIsOutcome(o, s, p);
      FailuresAreConsecutive(o, h + [p]);
      SoonIs(o, h, p, Outcome(s, p));
      forall r ensures Gives(p, r) && !IsUsedUp(o, h + [p], r) <==> r in ReasonSet(p) && r !in Outcome(s, p).settled {
        SettledIsUsedUp(o, h + [p], r);
        GivesIsReason(p, r);
      }
      assert (exists r :: Gives(p, r) && !IsUsedUp(o, h + [p], r))
        <==> exists r :: r in ReasonSet(p) && r !in Outcome(s, p).settled;
    }
  }

  lemma NextIsOutcome(o: Settings, s: State, p: Pass)
    requires Looks(o, p)
    ensures Next(o, s, p).settled == Outcome(s, p).settled && Next(o, s, p).failures == Outcome(s, p).failures
    ensures Outcome(s, p).lastAutoStart == s.lastAutoStart
  {
    hide Starts;
  }

  lemma SoonIs(o: Settings, h: seq<Pass>, p: Pass, s: State)
    requires s.lastAutoStart == After(o, h).lastAutoStart
    ensures TooSoon(o, s, p) <==> !IsLongEnoughAgo(o, h, p, IntervalSeconds(o, s.failures))
  {
    hide StartsAt, After, IntervalSeconds;
    LastStartWasAStart(o, h);
    forall i | 0 <= i < |h| && StartsAt(o, h, i)
      ensures s.lastAutoStart.Some? && h[i].now <= s.lastAutoStart.value
    {
      LastStartIsLatest(o, h, i);
    }
  }
}
