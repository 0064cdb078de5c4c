/** The NVD client: spaced requests within a time budget (`devicecves/nvd.py`). Seconds
    are exact reals. */
module NvdClients {
  import opened Wrappers

  const SPACING_KEY_S: real := 0.8
  const SPACING_NO_KEY_S: real := 6.0
  const RETRY_WAITS_S: seq<real> := [10.0, 30.0]
  const RETRY_STATUSES: set<int> := {403, 429, 500, 502, 503, 504}
  const MAX_PAGES: nat := 10

  /** A page of a reply: what it lists and how many there are in all. */
  datatype Doc<T> = Doc(items: seq<T>, total: nat)

  /** What the transport gives: nothing, or a status with a body when it is JSON. */
  datatype Reply<T> = NoAnswer | Answer(status: int, body: Option<Doc<T>>)

  /** How a query ends. */
  datatype Outcome<D> = Found(data: D) | Unavailable | InvalidQuery | BudgetExceeded

  /** Requests have started at these times, each checked against the budget just before. */
  ghost predicate AreSpaced(spacing: real, started: real, budget: real, checks: seq<real>, starts: seq<real>) {
    && |checks| == |starts|
    && (forall i | 0 <= i < |starts| :: started <= checks[i] <= starts[i] && checks[i] < started + budget)
    && forall i, j | 0 <= i && j == i + 1 && j < |starts| :: starts[i] + spacing <= checks[j]
  }

  /** Each request starts the clock's move since its check after that check. */
  ghost predicate AreApart(checks: seq<real>, gaps: seq<real>, starts: seq<real>) {
    |checks| == |gaps| == |starts| && forall i | 0 <= i < |starts| :: starts[i] == checks[i] + gaps[i]
  }

  lemma OneMoreStart(spacing: real, started: real, budget: real, checks: seq<real>, starts: seq<real>, check: real,
                     t: real)
    requires AreSpaced(spacing, started, budget, checks, starts)
    requires started <= check <= t && check < started + budget
    requires starts != [] ==> starts[|starts| - 1] + spacing <= check
    ensures AreSpaced(spacing, started, budget, checks + [check], starts + [t])
  {
  }

  lemma OneMoreGap(checks: seq<real>, gaps: seq<real>, starts: seq<real>, check: real, gap: real)
    requires AreApart(checks, gaps, starts)
    ensures AreApart(checks + [check], gaps + [gap], starts + [check + gap])
  {
  }

  /** All but the last request got an answer, and the last one did not when this is set. */
  ghost predicate AllButLast(answered: seq<bool>, unreachable: bool) {
    && (forall i | 0 <= i < |answered| - 1 :: answered[i])
    && (unreachable <==> answered != [] && !answered[|answered| - 1])
  }

  lemma OneMoreAnswer(answered: seq<bool>, yes: bool)
    requires AllButLast(answered, false)
    ensures AllButLast(answered + [yes], !yes)
  {
  }

  /** The log of the requests so far agrees with the client's own account of them. */
  ghost predicate IsLog(spacing: real, started: real, budget: real, checks: seq<real>, gaps: seq<real>,
                        starts: seq<real>, answered: seq<bool>, requests: nat, last: Option<real>,
                        unreachable: bool) {
    && spacing > 0.0 && AreSpaced(spacing, started, budget, checks, starts) && AreApart(checks, gaps, starts)
    && requests == |starts| == |answered| && AllButLast(answered, unreachable)
    && last == (if starts == [] then None else Some(starts[|starts| - 1]))
  }

  lemma OneMoreRequest(spacing: real, started: real, budget: real, checks: seq<real>, gaps: seq<real>,
                       starts: seq<real>, answered: seq<bool>, requests: nat, last: Option<real>, check: real,
                       t: real, yes: bool)
    requires IsLog(spacing, started, budget, checks, gaps, starts, answered, requests, last, false)
    requires started <= check <= t && check < started + budget && (last.Some? ==> last.value + spacing <= check)
    ensures IsLog(spacing, started, budget, checks + [check], gaps + [t - check], starts + [t], answered + [yes],
                  requests + 1, Some(t), !yes)
  {
    hide AreSpaced, AreApart, AllButLast;
    OneMoreStart(spacing, started, budget, checks, starts, check, t);
    OneMoreGap(checks, gaps, starts, check, t - check);
    OneMoreAnswer(answered, yes);
  }

  /** k spacings, one after the other. */
  function Spacings(k: nat, spacing: real): real {
    if k == 0 then 0.0 else Spacings(k - 1, spacing) + spacing
  }

  lemma {:induction false} StartsSpread(spacing: real, started: real, budget: real, checks: seq<real>,
                                        starts: seq<real>, i: nat, j: nat)
    requires AreSpaced(spacing, started, budget, checks, starts) && i <= j < |starts|
    ensures starts[i] + Spacings(j - i, spacing) <= starts[j]
    ensures checks[i] + Spacings(j - i, spacing) <= checks[j]
    decreases j - i
  {
    if i < j {
      StartsSpread(spacing, started, budget, checks, starts, i, j - 1);
      assert starts[j - 1] + spacing <= checks[j] <= starts[j] && checks[j - 1] <= starts[j - 1];
    }
  }

  lemma {:induction false} SpacingsAre(k: nat, spacing: real)
    ensures Spacings(k, spacing) == k as real * spacing
  {
    if k > 0 {
      SpacingsAre(k - 1, spacing);
      OneMoreSpacing(k as real, spacing);
    }
  }

  lemma OneMoreSpacing(k: real, spacing: real)
    ensures (k - 1.0) * spacing + spacing == k * spacing
  {
  }

  /** At most ceil(budget / spacing) requests are ever sent: no more than any number of
      spacings that fill the budget. */
  lemma RequestsFitTheBudget(spacing: real, started: real, budget: real, checks: seq<real>, starts: seq<real>, k: nat)
    requires AreSpaced(spacing, started, budget, checks, starts) && spacing > 0.0
    requires k as real * spacing >= budget
    ensures |starts| <= k
  {
    var n := |starts|;
    if n > k {
      StartsSpread(spacing, started, budget, checks, starts, 0, n - 1);
      MoreSpacings(k, n - 1, spacing);
      SpacingsAre(k, spacing);
      assert false;
    }
  }

  /** Without a key, no half-open window of 30 seconds holds more than five starts. */
  lemma AtMostFiveInThirtySeconds(started: real, budget: real, checks: seq<real>, starts: seq<real>, i: nat, j: nat,
                                  from: real)
    requires AreSpaced(SPACING_NO_KEY_S, started, budget, checks, starts) && i <= j < |starts|
    requires from <= starts[i] && starts[j] < from + 30.0
    ensures j - i + 1 <= 5
  {
    StartsSpread(SPACING_NO_KEY_S, started, budget, checks, starts, i, j);
    if j - i >= 5 {
      MoreSpacings(5, j - i, SPACING_NO_KEY_S);
      FiveSpacings();
    }
  }

  /** With a key none holds more than thirty-eight, within the fifty that NVD allows. */
  lemma AtMostFiftyWithAKey(started: real, budget: real, checks: seq<real>, starts: seq<real>, i: nat, j: nat,
                            from: real)
    requires AreSpaced(SPACING_KEY_S, started, budget, checks, starts) && i <= j < |starts|
    requires from <= starts[i] && starts[j] < from + 30.0
    ensures j - i + 1 <= 38
  {
    StartsSpread(SPACING_KEY_S, started, budget, checks, starts, i, j);
    if j - i >= 38 {
      MoreSpacings(38, j - i, SPACING_KEY_S);
      SpacingsAre(38, SPACING_KEY_S);
    }
  }

  lemma FiveSpacings()
    ensures Spacings(5, SPACING_NO_KEY_S) == 30.0
  {
    assert Spacings(2, SPACING_NO_KEY_S) == 12.0;
    assert Spacings(3, SPACING_NO_KEY_S) == 18.0;
    assert Spacings(4, SPACING_NO_KEY_S) == 24.0;
  }

  lemma {:induction false} MoreSpacings(k: nat, m: nat, spacing: real)
    requires k <= m && spacing >= 0.0
    ensures Spacings(k, spacing) <= Spacings(m, spacing)
    decreases m
  {
    if k < m {
      MoreSpacings(k, m - 1, spacing);
    }
  }

  /** A request is started at a later reading of the clock than its check: the clock moved
      by the gap in between. Exactly the starts whose gap is shorter than the budget left
      at the check are within it, and every start but the last is. */
  lemma StartIsWithinTheBudgetExactlyWhen(spacing: real, started: real, budget: real, checks: seq<real>,
                                          gaps: seq<real>, starts: seq<real>, i: nat)
    requires AreSpaced(spacing, started, budget, checks, starts) && spacing > 0.0 && i < |starts|
    requires AreApart(checks, gaps, starts)
    ensures starts[i] < started + budget <==> gaps[i] < started + budget - checks[i]
    ensures i + 1 < |starts| ==> starts[i] + spacing < started + budget
  {
    if i + 1 < |starts| {
      assert starts[i + 1 - 1] + spacing <= checks[i + 1];
    }
  }

  /** How far the clock moves by its k-th next reading, and the moves after that many. */
  function Tick(ticks: seq<real>, k: nat): real {
    if k < |ticks| then ticks[k] else 0.0
  }

  function Past<X>(s: seq<X>, k: nat): seq<X> {
    if k < |s| then s[k..] else []
  }

  lemma TicksGoForward(ticks: seq<real>, k: nat)
    requires forall t | t in ticks :: t >= 0.0
    ensures Tick(ticks, k) >= 0.0
  {
    if k < |ticks| {
      assert ticks[k] in ticks;
    }
  }

  lemma PastPast<X>(s: seq<X>, j: nat, k: nat)
    ensures Past(Past(s, j), k) == Past(s, j + k)
  {
  }

  lemma PastNone<X>(s: seq<X>)
    ensures Past(s, 0) == s
  {
  }

  lemma TickPast(ticks: seq<real>, j: nat)
    ensures Tick(Past(ticks, j), 0) == Tick(ticks, j)
  {
  }

  /** The next request's start waits for the spacing after the last one. */
  predicate MustWait(now: real, ticks: seq<real>, last: Option<real>, spacing: real) {
    last.Some? && now + Tick(ticks, 0) < last.value + spacing
  }

  /** When the next request is checked against the budget, after how many readings of the
      clock, and when it starts if it passes. */
  function CheckTime(now: real, ticks: seq<real>, last: Option<real>, spacing: real): real {
    if last.None? then now + Tick(ticks, 0)
    else if MustWait(now, ticks, last, spacing) then last.value + spacing + Tick(ticks, 1) + Tick(ticks, 2)
    else now + Tick(ticks, 0) + Tick(ticks, 1)
  }

  /** A request is checked no sooner than the spacing after the last start, and no later than
      that or now, whichever is later, and the clock's own moves ask for. */
  lemma CheckIsAsSoonAsSpaced(now: real, ticks: seq<real>, last: Option<real>, spacing: real)
    requires forall t | t in ticks :: t >= 0.0
    ensures var t, first, second, third := CheckTime(now, ticks, last, spacing), Tick(ticks, 0), Tick(ticks, 1),
                                           Tick(ticks, 2);
            && now + first <= t && (last.Some? ==> last.value + spacing <= t)
            && t <= (if last.Some? && now + first < last.value + spacing then last.value + spacing else now + first)
                    + second + third
  {
    TicksGoForward(ticks, 0);
    TicksGoForward(ticks, 1);
    TicksGoForward(ticks, 2);
  }

  function Readings(now: real, ticks: seq<real>, last: Option<real>, spacing: real): nat {
    if last.None? then 1 else if MustWait(now, ticks, last, spacing) then 3 else 2
  }

  function StartTime(now: real, ticks: seq<real>, last: Option<real>, spacing: real): real {
    CheckTime(now, ticks, last, spacing) + Tick(ticks, Readings(now, ticks, last, spacing))
  }

  // ---- replies ------------------------------------------------------------------------------

  predicate IsPage<T>(r: Reply<T>) {
    r.Answer? && r.status == 200 && r.body.Some?
  }

  /** NVD limits the rate, or has failed in a way that may pass. */
  predicate IsRetried<T>(r: Reply<T>) {
    r.Answer? && (r.status == 403 || r.status == 429 || r.status == 500 || 502 <= r.status <= 504)
  }

  /** What the pages among these replies list, and how many pages there are. */
  function Items<T>(replies: seq<Reply<T>>): seq<T> {
    if replies == [] then []
    else
      var r := replies[|replies| - 1];
      Items(replies[..|replies| - 1]) + if IsPage(r) then r.body.value.items else []
  }

  function Pages<T>(replies: seq<Reply<T>>): nat {
    if replies == [] then 0
    else Pages(replies[..|replies| - 1]) + if IsPage(replies[|replies| - 1]) then 1 else 0
  }

  /** These replies end with a page after which no more are asked for. */
  predicate IsComplete<T>(replies: seq<Reply<T>>) {
    && replies != [] && IsPage(replies[|replies| - 1])
    && var page := replies[|replies| - 1].body.value;
       page.items == [] || |Items(replies)| >= page.total || Pages(replies) == 10
  }

  /** How `_get` ends after these replies to its n requests. */
  ghost predicate EndsAs<T>(result: Outcome<Doc<T>>, replies: seq<Reply<T>>, n: nat, unreachable: bool) {
    match result
    case Found(doc) => !unreachable && 0 < n <= |replies| && replies[n - 1] == Answer(200, Some(doc))
    case InvalidQuery => !unreachable && 0 < n <= |replies| && replies[n - 1].Answer? && replies[n - 1].status == 404
    case Unavailable =>
      if unreachable then 0 < n <= |replies| ==> replies[n - 1].NoAnswer?
      else 0 < n <= |replies| && !IsPage(replies[n - 1]) && (IsRetried(replies[n - 1]) ==> n == 3)
    case BudgetExceeded => !unreachable && n <= |replies| && (n > 0 ==> IsRetried(replies[n - 1]))
  }

  /** Of the starts from the nth on, the second is ten seconds after the first at least, and
      the third thirty after that. */
  ghost predicate BacksOff(n: nat, starts: seq<real>) {
    && n <= |starts| <= n + 3
    && (|starts| > n + 1 ==> starts[n] + 10.0 <= starts[n + 1])
    && (|starts| > n + 2 ==> starts[n + 1] + 30.0 <= starts[n + 2])
  }

  /** One attempt more, after the wait for it. */
  lemma OneMoreAttempt(n: nat, before: seq<real>, start: real, attempt: nat)
    requires attempt < 3 && |before| == n + attempt && BacksOff(n, before)
    requires attempt > 0 ==> before[n + attempt - 1] + RETRY_WAITS_S[attempt - 1] <= start
    ensures BacksOff(n, before + [start]) && (before + [start])[n + attempt] == start
  {
  }

  lemma NoAttempt<T>(starts: seq<real>, replies: seq<Reply<T>>)
    ensures BacksOff(|starts|, starts)
    ensures AreRetried(replies, 0) && AreRetried(replies, -1) && Past(replies, 0) == replies
  {
  }

  lemma OneMoreReply<T>(replies: seq<Reply<T>>, n: nat)
    requires AreRetried(replies, n)
    ensures n <= |replies| && (n > 0 ==> IsRetried(replies[n - 1]) && AreRetried(replies, n - 1))
    ensures n < |replies| <==> Past(replies, n) != []
    ensures n < |replies| ==> Past(replies, n)[0] == replies[n]
    ensures n < |replies| && IsRetried(replies[n]) ==> AreRetried(replies, n + 1)
    ensures Past(Past(replies, n), 1) == Past(replies, n + 1)
  {
    hide IsRetried;
  }

  /** All but the last of the n replies are asked for again. */
  ghost predicate AreRetried<T>(replies: seq<Reply<T>>, n: int) {
    n <= |replies| && forall k | 0 <= k < n :: IsRetried(replies[k])
  }

  /** Replies that are retried come after the first `was`, and then a page. */
  lemma OnePageMore<T>(replies: seq<Reply<T>>, was: nat, n: nat, doc: Doc<T>)
    requires was <= |replies| && AreRetried(Past(replies, was), n - 1)
    requires EndsAs(Found(doc), Past(replies, was), n, false)
    ensures was < was + n <= |replies|
    ensures Items(replies[..was + n]) == Items(replies[..was]) + doc.items
    ensures Pages(replies[..was + n]) == Pages(replies[..was]) + 1
    ensures forall k | was < k < was + n :: !IsComplete(replies[..k])
    ensures IsComplete(replies[..was + n])
            <==> doc.items == [] || |Items(replies[..was + n])| >= doc.total || Pages(replies[..was + n]) == 10
  {
    hide IsComplete, Items, Pages, IsRetried;
    var m := was + n - 1;
    assert forall k | was <= k <= m :: replies[k] == Past(replies, was)[k - was];
    assert forall k | 0 <= k < m - was :: IsRetried(replies[was..m][k]);
    RetriedListNothing(replies[..was], replies[was..m]);
    assert replies[..was] + replies[was..m] == replies[..m];
    PageListed(replies, m, doc);
    forall k | was < k < was + n ensures !IsComplete(replies[..k]) {
      assert replies[k - 1] == replies[was..m][k - 1 - was];
      RetriedIsIncomplete(replies, k);
    }
  }

  lemma PageListed<T>(replies: seq<Reply<T>>, m: nat, doc: Doc<T>)
    requires m < |replies| && replies[m] == Answer(200, Some(doc))
    ensures Items(replies[..m + 1]) == Items(replies[..m]) + doc.items
    ensures Pages(replies[..m + 1]) == Pages(replies[..m]) + 1
    ensures IsComplete(replies[..m + 1])
            <==> doc.items == [] || |Items(replies[..m + 1])| >= doc.total || Pages(replies[..m + 1]) == 10
  {
    assert replies[..m + 1][..m] == replies[..m];
  }

  lemma RetriedIsIncomplete<T>(replies: seq<Reply<T>>, k: nat)
    requires 0 < k <= |replies| && IsRetried(replies[k - 1])
    ensures !IsComplete(replies[..k])
  {
  }

  lemma NothingYet<T>(replies: seq<Reply<T>>)
    ensures Items(replies[..0]) == [] && Pages(replies[..0]) == 0 && !IsComplete(replies[..0])
  {
  }

  lemma {:induction false} RetriedListNothing<T>(before: seq<Reply<T>>, retried: seq<Reply<T>>)
    requires forall k | 0 <= k < |retried| :: IsRetried(retried[k])
    ensures Items(before + retried) == Items(before) && Pages(before + retried) == Pages(before)
  {
    if retried == [] {
      assert before + retried == before;
    } else {
      RetriedListNothing(before, retried[..|retried| - 1]);
      assert (before + retried)[..|before + retried| - 1] == before + retried[..|retried| - 1];
    }
  }

  /** `NvdClient`. The monotone clock advances by `ticks`, one at each reading, and the
      transport gives `replies` in turn: both are arbitrary. */
  class NvdClient<T(0)> {
    const spacing: real
    const budget: real
    const started: real
    var now: real
    var ticks: seq<real>
    var replies: seq<Reply<T>>
    var last: Option<real>
    var requests: nat
    var unreachable: bool
    ghost var checks: seq<real>
    ghost var gaps: seq<real>
    ghost var starts: seq<real>
    ghost var answered: seq<bool>

    ghost predicate ClockIsValid()
      reads this
    {
      started <= now && (last.Some? ==> last.value <= now) && forall t | t in ticks :: t >= 0.0
    }

    ghost predicate LogIsValid()
      reads this
    {
      IsLog(spacing, started, budget, checks, gaps, starts, answered, requests, last, unreachable)
    }

    ghost predicate Valid()
      reads this
    {
      ClockIsValid() && LogIsValid()
    }

    constructor (hasKey: bool, budget: real, now: real, ticks: seq<real>, replies: seq<Reply<T>>)
      requires forall t | t in ticks :: t >= 0.0
      ensures Valid() && requests == 0 && !unreachable && last.None? && this.budget == budget
      ensures started == now && this.now == now && this.ticks == ticks && this.replies == replies
      ensures spacing == if hasKey then 0.8 else 6.0
    {
      spacing := if hasKey then SPACING_KEY_S else SPACING_NO_KEY_S;
      this.budget, started, this.now, this.ticks, this.replies := budget, now, now, ticks, replies;
      last, requests, unreachable := None, 0, false;
      checks, gaps, starts, answered := [], [], [], [];
    }

    /** A reading of the monotone clock. */
    method Monotonic() returns (t: real)
      requires ClockIsValid()
      modifies `now, `ticks
      ensures ClockIsValid() && t == now && old(now) <= now
      ensures now == old(now) + Tick(old(ticks), 0) && ticks == Past(old(ticks), 1)
    {
      if ticks != [] {
        assert ticks[0] in ticks && forall x | x in ticks[1..] :: x in ticks;
        now, ticks := now + ticks[0], ticks[1..];
      }
      t := now;
    }

    method RemainingS() returns (left: real)
      requires ClockIsValid()
      modifies `now, `ticks
      ensures ClockIsValid() && old(now) <= now && left == budget - (now - started)
      ensures now == old(now) + Tick(old(ticks), 0) && ticks == Past(old(ticks), 1)
    {
      var t := Monotonic();
      left := budget - (t - started);
    }

    /** `_wait`: refused exactly when the wait would outlast the budget. */
    method Wait(seconds: real) returns (ok: bool)
      requires ClockIsValid()
      modifies `now, `ticks
      ensures ClockIsValid() && old(now) <= now
      ensures ok <==> seconds <= 0.0 || old(now) + Tick(old(ticks), 0) + seconds <= started + budget
      ensures seconds <= 0.0 ==> now == old(now) && ticks == old(ticks)
      ensures seconds > 0.0 ==>
                && now == old(now) + Tick(old(ticks), 0) + (if ok then seconds else 0.0) && ticks == Past(old(ticks), 1)
    {
      if seconds <= 0.0 {
        return true;
      }
      var left := RemainingS();
      if seconds > left {
        return false;
      }
      now := now + seconds;
      return true;
    }

    /** The wait for the spacing and the check of the budget: whether a request may start. */
    method Ready() returns (ready: bool)
      requires Valid()
      modifies `now, `ticks
      ensures Valid() && old(now) <= now
      ensures ready <==> CheckTime(old(now), old(ticks), last, spacing) < started + budget
      ensures ready ==> now == CheckTime(old(now), old(ticks), last, spacing)
      ensures ready && last.Some? ==> last.value + spacing <= now
      ensures ready ==> ticks == Past(old(ticks), Readings(old(now), old(ticks), last, spacing))
    {
      hide IsLog;
      if last.Some? {
        var t := Monotonic();
        TicksGoForward(old(ticks), 0);
        TicksGoForward(old(ticks), 1);
        TicksGoForward(old(ticks), 2);
        var ok := Wait(last.value + spacing - t);
        if !ok {
          return false;
        }
      }
      var left := RemainingS();
      return left > 0.0;
    }

    /** The request itself, once it may start. */
    method Request() returns (r: Reply<T>)
      requires Valid() && !unreachable && now < started + budget && (last.Some? ==> last.value + spacing <= now)
      modifies this
      ensures Valid() && old(now) <= now && requests == old(requests) + 1 && (unreachable <==> r.NoAnswer?)
      ensures checks == old(checks) + [old(now)] && gaps == old(gaps) + [Tick(old(ticks), 0)]
      ensures starts == old(starts) + [old(now) + Tick(old(ticks), 0)] && now == old(now) + Tick(old(ticks), 0)
      ensures replies == Past(old(replies), 1) && r == if old(replies) == [] then NoAnswer else old(replies)[0]
    {
      hide IsLog, Past, Tick;
      ghost var check := now;
      var t := Monotonic();
      r := if replies == [] then NoAnswer else replies[0];
      OneMoreRequest(spacing, started, budget, checks, gaps, starts, answered, requests, last, check, t, !r.NoAnswer?);
      last := Some(t);
      requests := requests + 1;
      replies := Past(replies, 1);
      checks, gaps, starts, answered := checks + [check], gaps + [t - check], starts + [t], answered + [!r.NoAnswer?];
      unreachable := r.NoAnswer?;
    }

    /** One attempt up to its reply. It is made exactly when its check, at a time the
        clock and the last start fix, is within the budget; it starts at the reading after. */
    method Send() returns (reply: Option<Reply<T>>)
      requires Valid() && !unreachable
      modifies this
      ensures Valid() && old(now) <= now
      ensures reply.Some? <==> CheckTime(old(now), old(ticks), old(last), spacing) < started + budget
      ensures reply.None? ==>
                requests == old(requests) && !unreachable && replies == old(replies) && starts == old(starts)
      ensures reply.Some? ==> |starts| == |old(starts)| + 1 && old(now) <= starts[|old(starts)|] == now
      ensures reply.Some? ==> requests == old(requests) + 1 && (unreachable <==> reply.value.NoAnswer?)
      ensures reply.Some? ==> starts == old(starts) + [StartTime(old(now), old(ticks), old(last), spacing)]
      ensures reply.Some? ==> checks == old(checks) + [CheckTime(old(now), old(ticks), old(last), spacing)]
      ensures reply.Some? ==> gaps == old(gaps) + [Tick(old(ticks), Readings(old(now), old(ticks), old(last), spacing))]
      ensures reply.Some? ==>
                && replies == Past(old(replies), 1)
                && reply.value == if old(replies) == [] then NoAnswer else old(replies)[0]
    {
      hide Valid, CheckTime, Readings, Past, Tick;
      var ready := Ready();
      if !ready {
        return None;
      }
      TickPast(old(ticks), Readings(old(now), old(ticks), last, spacing));
      var r := Request();
      return Some(r);
    }

    /** The wait before a retry. */
    method Pause(seconds: real) returns (ok: bool)
      requires Valid() && seconds > 0.0
      modifies `now, `ticks
      ensures Valid() && old(now) <= now && (ok ==> old(now) + seconds <= now)
      ensures ok <==> old(now) + Tick(old(ticks), 0) + seconds <= started + budget
    {
      TicksGoForward(ticks, 0);
      ok := Wait(seconds);
    }

    /** `_get`: at most three attempts, none after a request that got no answer. Every
        reply but the last is retried, and the last says how it ends. */
    method Get() returns (result: Outcome<Doc<T>>)
      requires Valid()
      modifies this
      ensures Valid() && old(requests) <= requests <= old(requests) + 3
      ensures old(unreachable) ==> unreachable && requests == old(requests) && result.Unavailable?
      ensures replies == Past(old(replies), requests - old(requests))
      ensures result.Found? || result.InvalidQuery? ==> !unreachable && requests > old(requests)
      ensures AreRetried(old(replies), requests - old(requests) - 1)
      ensures EndsAs(result, old(replies), requests - old(requests), unreachable)
      ensures BacksOff(|old(starts)|, starts)
    {
      hide ClockIsValid, LogIsValid, CheckTime, StartTime, Readings, Tick, BacksOff, Past, AreRetried;
      NoAttempt(starts, replies);
      if unreachable {
        return Unavailable;
      }
      ghost var n := |starts|;
      for attempt := 0 to |RETRY_WAITS_S| + 1
        invariant |starts| == n + attempt && BacksOff(n, starts)
        invariant 0 < attempt <= |RETRY_WAITS_S| ==> starts[n + attempt - 1] + RETRY_WAITS_S[attempt - 1] <= now
        invariant Valid() && !unreachable && requests == old(requests) + attempt && AreRetried(old(replies), attempt)
        invariant replies == Past(old(replies), attempt)
      {
        ghost var before := starts;
        OneMoreReply(old(replies), attempt);
        var reply := Send();
        if reply.None? {
          return BudgetExceeded;
        }
        OneMoreAttempt(n, before, starts[n + attempt], attempt);
        if reply.value.NoAnswer? {
          return Unavailable;
        }
        var status := reply.value.status;
        if status == 200 && reply.value.body.Some? {
          return Found(reply.value.body.value);
        }
        if status == 404 {
          return InvalidQuery;
        }
        if status !in RETRY_STATUSES {
          return Unavailable;
        }
        if attempt < |RETRY_WAITS_S| {
          var ok := Pause(RETRY_WAITS_S[attempt]);
          if !ok {
            return BudgetExceeded;
          }
        }
      }
      OneMoreReply(old(replies), |RETRY_WAITS_S| + 1);
      return Unavailable;
    }

    /** `_paged`: page after page until all, or an empty page, or ten pages. What is found
        is what the pages got list, up to the first after which none is asked for. */
    method Paged() returns (result: Outcome<seq<T>>)
      requires Valid()
      modifies this
      ensures Valid() && old(requests) <= requests <= old(requests) + 30
      ensures old(unreachable) ==> unreachable && requests == old(requests) && result.Unavailable?
      ensures replies == Past(old(replies), requests - old(requests))
      ensures var n := requests - old(requests);
              result.Found? ==>
                && !unreachable && n <= |old(replies)| && IsComplete(old(replies)[..n])
                && result.data == Items(old(replies)[..n])
                && forall k | 0 <= k < n :: !IsComplete(old(replies)[..k])
    {
      hide ClockIsValid, LogIsValid, Items, Pages, IsComplete, AreRetried, EndsAs, Past;
      NothingYet(old(replies));
      PastNone(old(replies));
      var items: seq<T> := [];
      for page := 0 to MAX_PAGES
        invariant Valid() && old(requests) <= requests <= old(requests) + 3 * page
        invariant page == 0 ==> unreachable == old(unreachable) && requests == old(requests)
        invariant page > 0 ==> !unreachable && !old(unreachable)
        invariant requests - old(requests) <= |old(replies)| && replies == Past(old(replies), requests - old(requests))
        invariant items == Items(old(replies)[..requests - old(requests)])
        invariant page == Pages(old(replies)[..requests - old(requests)])
        invariant forall k | 0 <= k < requests - old(requests) :: !IsComplete(old(replies)[..k])
        invariant page < MAX_PAGES <==> !IsComplete(old(replies)[..requests - old(requests)])
      {
        ghost var was := requests - old(requests);
        var r := Get();
        ghost var n := requests - old(requests);
        PastPast(old(replies), was, n - was);
        match r {
          case Found(doc) =>
            OnePageMore(old(replies), was, n - was, doc);
            items := items + doc.items;
            if doc.items == [] || |items| >= doc.total {
              return Found(items);
            }
          case Unavailable => return Unavailable;
          case InvalidQuery => return InvalidQuery;
          case BudgetExceeded => return BudgetExceeded;
        }
      }
      return Found(items);
    }
  }

  /** A request is checked and started at two readings of the clock: it can start after
      the budget's end when the clock moves that far in between. */
  method AStartCanBeLate() returns (client: NvdClient<bool>)
    ensures client.Valid() && client.started + client.budget == 1.0 && client.starts == [2.0]
  {
    client := new NvdClient<bool>(true, 1.0, 0.0, [0.0, 2.0], []);
    var reply := client.Send();
  }
}
