/** Scheduled scans (`plugin/server/schedule.ts`). Times are milliseconds of local
    time, from a midnight. */
module Schedule {
  import opened Wrappers

  datatype Frequency = Off | Minutes15 | Minutes30 | Hours1 | Hours3 | Hours6 | Hours12 | Daily

  const MINUTE: nat := 60_000
  const HOUR: nat := 3_600_000

  function EveryMinutes(f: Frequency): Option<nat> {
    match f
    case Minutes15 => Some(15)
    case Minutes30 => Some(30)
    case _ => None
  }

  function EveryHours(f: Frequency): Option<nat> {
    match f
    case Hours1 => Some(1)
    case Hours3 => Some(3)
    case Hours6 => Some(6)
    case Hours12 => Some(12)
    case _ => None
  }

  function HourOf(t: nat): nat {
    t / HOUR % 24
  }

  function MinuteOf(t: nat): nat {
    t / MINUTE % 60
  }

  /** A time the frequency runs at: on the minutes or hours it divides, or at the
      daily hour. */
  predicate IsSlot(f: Frequency, dailyHour: nat, t: nat) {
    match f
    case Off => false
    case Minutes15 => t % MINUTE == 0 && Rest(15, MinuteOf(t)) == 0
    case Minutes30 => t % MINUTE == 0 && Rest(30, MinuteOf(t)) == 0
    case Hours1 => t % HOUR == 0
    case Hours3 => t % HOUR == 0 && HourOf(t) % 3 == 0
    case Hours6 => t % HOUR == 0 && HourOf(t) % 6 == 0
    case Hours12 => t % HOUR == 0 && HourOf(t) % 12 == 0
    case Daily => t % HOUR == 0 && HourOf(t) == dailyHour
  }

  /** r is the least slot strictly after now. */
  ghost predicate IsNext(f: Frequency, dailyHour: nat, now: nat, r: nat) {
    now < r && IsSlot(f, dailyHour, r) && forall t: nat | now < t < r :: !IsSlot(f, dailyHour, t)
  }

  /** The hour-based frequencies, on a count of whole hours. */
  predicate HourFits(f: Frequency, dailyHour: nat, h: nat) {
    match f
    case Hours1 => true
    case Hours3 => h % 24 % 3 == 0
    case Hours6 => h % 24 % 6 == 0
    case Hours12 => h % 24 % 12 == 0
    case _ => h % 24 == dailyHour
  }

  /** m modulo n, for the two values of n there are. */
  function Rest(n: nat, m: nat): nat {
    if n == 15 then m % 15 else m % 30
  }

  lemma WholeHours(h: nat)
    ensures h * HOUR / HOUR == h && h * HOUR % HOUR == 0
  {
  }

  lemma HourSlots(f: Frequency, dailyHour: nat, h: nat)
    requires EveryHours(f).Some? || f == Daily
    ensures IsSlot(f, dailyHour, h * HOUR) <==> HourFits(f, dailyHour, h)
  {
    WholeHours(h);
  }

  /** Within a day some hour fits. */
  lemma SomeHourFits(f: Frequency, dailyHour: nat, h: nat)
    requires (EveryHours(f).Some? || f == Daily) && dailyHour < 24
    ensures exists g: nat :: h < g <= h + 24 && HourFits(f, dailyHour, g)
  {
    var target := if f == Daily then dailyHour else 0;
    var g := 24 * (if h % 24 < target then h / 24 else h / 24 + 1) + target;
    assert g % 24 == target;
    assert h < g <= h + 24;
    assert HourFits(f, dailyHour, g);
  }

  // ---- minutes ---------------------------------------------------------------------------

  lemma WholeMinutes(m: nat)
    ensures m * MINUTE / MINUTE == m && m * MINUTE % MINUTE == 0 && MinuteOf(m * MINUTE) == m % 60
  {
  }

  lemma Rest15(k: nat, r: nat)
    requires r < 15
    ensures (15 * k + r) % 15 == r
  {
  }

  lemma Rest30(k: nat, r: nat)
    requires r < 30
    ensures (30 * k + r) % 30 == r
  {
  }

  /** The rest is what is over a multiple. */
  lemma RestIs(n: nat, k: nat, r: nat)
    requires (n == 15 || n == 30) && r < n
    ensures Rest(n, n * k + r) == r
  {
    if n == 15 {
      Rest15(k, r);
    } else {
      Rest30(k, r);
    }
  }

  lemma Splits(n: nat, m: nat) returns (k: nat)
    requires n == 15 || n == 30
    ensures m == n * k + Rest(n, m) && Rest(n, m) < n
  {
    k := if n == 15 then m / 15 else m / 30;
  }

  lemma MinuteRemainder(n: nat, m: nat)
    requires n == 15 || n == 30
    ensures Rest(n, m % 60) == Rest(n, m)
  {
    var h, q := m / 60, m % 60;
    var k := Splits(n, q);
    assert m == 60 * h + q;
    if n == 15 {
      Rest15(4 * h + k, Rest(n, q));
    } else {
      Rest30(2 * h + k, Rest(n, q));
    }
  }

  /** The slots every n minutes are the whole minutes n divides. */
  lemma MinuteSlots(f: Frequency, dailyHour: nat, n: nat, m: nat)
    requires EveryMinutes(f) == Some(n)
    ensures IsSlot(f, dailyHour, m * MINUTE) <==> Rest(n, m) == 0
  {
    WholeMinutes(m);
    MinuteRemainder(n, m);
  }

  lemma NextMultiple(n: nat, m: nat, g: nat)
    requires (n == 15 || n == 30) && m < g < m - Rest(n, m) + n
    ensures Rest(n, g) != 0
  {
    hide Rest;
    var k := Splits(n, m);
    RestIs(n, k, g - n * k);
  }

  lemma MultipleAbove(n: nat, m: nat)
    requires n == 15 || n == 30
    ensures m - Rest(n, m) + n > m && Rest(n, m - Rest(n, m) + n) == 0
  {
    hide Rest;
    var k := Splits(n, m);
    RestIs(n, k + 1, 0);
    assert n * (k + 1) == n * k + n;
  }

  /** `setMinutes` past the last multiple of n lands on the next one. */
  lemma NextMinutes(n: nat, now: nat)
    requires n == 15 || n == 30
    ensures var m := now / MINUTE;
            now - now % MINUTE - Rest(n, MinuteOf(now)) * MINUTE + n * MINUTE == (m - Rest(n, m) + n) * MINUTE
  {
    MinuteRemainder(n, now / MINUTE);
    assert now == now / MINUTE * MINUTE + now % MINUTE;
  }

  lemma MinutesAreNext(f: Frequency, dailyHour: nat, n: nat, now: nat)
    requires EveryMinutes(f) == Some(n)
    ensures var m := now / MINUTE; IsNext(f, dailyHour, now, (m - Rest(n, m) + n) * MINUTE)
  {
    var m := now / MINUTE;
    var r := m - Rest(n, m) + n;
    MultipleAbove(n, m);
    MinuteSlots(f, dailyHour, n, r);
    assert now == m * MINUTE + now % MINUTE;
    forall t: nat | now < t < r * MINUTE ensures !IsSlot(f, dailyHour, t) {
      if t % MINUTE == 0 {
        assert t == t / MINUTE * MINUTE;
        MinuteSlots(f, dailyHour, n, t / MINUTE);
        NextMultiple(n, m, t / MINUTE);
      }
    }
  }

  // ---- the next run -----------------------------------------------------------------------

  /** `nextRun`. */
  method NextRun(f: Frequency, dailyHour: nat, now: nat) returns (r: Option<nat>)
    requires dailyHour < 24
    ensures f == Off <==> r.None?
    ensures r.Some? ==> IsNext(f, dailyHour, now, r.value)
  {
    if f == Off {
      return None;
    }
    var minutes := EveryMinutes(f);
    if minutes.Some? {
      var n := minutes.value;
      NextMinutes(n, now);
      r := Some(now - now % MINUTE - Rest(n, MinuteOf(now)) * MINUTE + n * MINUTE);
      MinutesAreNext(f, dailyHour, n, now);
      return;
    }
    ghost var h := now / HOUR;
    var t := now - now % HOUR;
    for i := 0 to 49
      invariant t == (h + if i == 0 then 0 else i - 1) * HOUR
      invariant forall g: nat | h < g < h + i :: !HourFits(f, dailyHour, g)
    {
      t := t + if i > 0 then HOUR else 0;
      if t <= now {
        assert i == 0;
        continue;
      }
      HourSlots(f, dailyHour, h + i);
      var every := EveryHours(f);
      WholeHours(h + i);
      if (if every.Some? then HourOf(t) % every.value == 0 else HourOf(t) == dailyHour) {
        HoursAreNext(f, dailyHour, now, i);
        return Some(t);
      }
    }
    SomeHourFits(f, dailyHour, h);
    assert false;
  }

  lemma HoursAreNext(f: Frequency, dailyHour: nat, now: nat, i: nat)
    requires (EveryHours(f).Some? || f == Daily) && i > 0 && HourFits(f, dailyHour, now / HOUR + i)
    requires forall g: nat | now / HOUR < g < now / HOUR + i :: !HourFits(f, dailyHour, g)
    ensures IsNext(f, dailyHour, now, (now / HOUR + i) * HOUR)
  {
    var h := now / HOUR;
    HourSlots(f, dailyHour, h + i);
    forall t: nat | now < t < (h + i) * HOUR ensures !IsSlot(f, dailyHour, t) {
      if t % HOUR == 0 {
        var g := t / HOUR;
        assert t == g * HOUR && h < g < h + i;
        HourSlots(f, dailyHour, g);
      }
    }
  }

  lemma NextIsUnique(f: Frequency, dailyHour: nat, now: nat, a: nat, b: nat)
    requires IsNext(f, dailyHour, now, a) && IsNext(f, dailyHour, now, b)
    ensures a == b
  {
  }

  // ---- the timer --------------------------------------------------------------------------

  datatype RunStatus = Completed | Failed | Skipped

  datatype LastRun = LastRun(at: nat, status: RunStatus)

  /** `createScheduler`'s closure. `fired` is the slots whose timer ran since the last
      `set`. */
  class Scheduler {
    var frequency: Frequency
    var dailyHour: nat
    var lastRun: Option<LastRun>
    var due: Option<nat>
    var timer: Option<nat>
    ghost var fired: seq<nat>

    ghost predicate Valid()
      reads this
    {
      && dailyHour < 24 && (timer.Some? ==> timer == due)
      && (due.None? <==> frequency == Off)
      && (due.Some? ==> IsSlot(frequency, dailyHour, due.value))
      && (forall k | 0 <= k < |fired| :: IsSlot(frequency, dailyHour, fired[k]))
      && (forall i, j | 0 <= i < j < |fired| :: fired[i] < fired[j])
      && (fired != [] && due.Some? ==> fired[|fired| - 1] < due.value)
    }

    /** Before `load` the schedule is off. */
    constructor ()
      ensures Valid() && frequency == Off && fired == []
    {
      frequency, dailyHour, lastRun, due, timer, fired := Off, 2, None, None, None, [];
    }

    /** `arm`: one timer, for the least slot after the time given. */
    method Arm(after: nat)
      requires dailyHour < 24
      modifies `due, `timer
      ensures timer == due && (due.None? <==> frequency == Off)
      ensures due.Some? ==> IsNext(frequency, dailyHour, after, due.value)
    {
      timer := None;
      due := NextRun(frequency, dailyHour, after);
      if due.Some? {
        timer := due;
      }
    }

    /** `set`: a new choice takes effect at once; the last run is kept. */
    method Set(choice: Frequency, hour: nat, now: nat)
      requires hour < 24
      modifies this
      ensures Valid() && frequency == choice && dailyHour == hour && fired == []
      ensures due.Some? ==> IsNext(choice, hour, now, due.value)
      ensures timer == due && lastRun == old(lastRun)
    {
      frequency, dailyHour, fired := choice, hour, [];
      Arm(now);
    }

    /** `fire`, at a clock that may lag the slot. A slot found no credential or no free
        lock is dropped; the next one armed is the first after both the slot and now. */
    method Fire(now: nat, hasCredential: bool, lockFree: bool) returns (started: bool)
      requires Valid() && timer.Some?
      modifies this
      ensures Valid() && fired == old(fired) + [old(timer).value]
      ensures frequency == old(frequency) && dailyHour == old(dailyHour)
      ensures started <==> hasCredential && lockFree
      ensures lastRun == if !hasCredential then Some(LastRun(now, Failed))
                         else if !lockFree then Some(LastRun(now, Skipped)) else old(lastRun)
      ensures timer == due && due.Some? && old(timer).value < due.value && now < due.value
      ensures forall t: nat | old(timer).value < t < due.value && now < t :: !IsSlot(frequency, dailyHour, t)
    {
      var slot := timer.value;
      started := false;
      if !hasCredential {
        lastRun := Some(LastRun(now, Failed));
      } else if !lockFree {
        lastRun := Some(LastRun(now, Skipped));
      } else {
        started := true;
      }
      fired := fired + [slot];
      Arm(if now < slot then slot else now);
    }

    /** The callback of a scheduled scan; the outcome is dated by its start. */
    method ScanDone(at: nat, ok: bool)
      requires Valid()
      modifies `lastRun
      ensures Valid() && lastRun == Some(LastRun(at, if ok then Completed else Failed))
    {
      lastRun := Some(LastRun(at, if ok then Completed else Failed));
    }

    method Stop()
      requires Valid()
      modifies `timer
      ensures Valid() && timer.None?
    {
      timer := None;
    }
  }

  // ---- the slots as times of the day -------------------------------------------------------------

  lemma MultipleIsFar(m: nat, d: int)
    ensures d >= 1 ==> m * d >= m
    ensures d <= -1 ==> m * d + m <= 0
  {
    if d >= 1 {
      assert m * (d - 1) >= 0;
    } else if d <= -1 {
      assert m * (-d - 1) >= 0;
    }
  }

  lemma RemainderIs(m: nat, k: nat, r: nat)
    requires r < m
    ensures (m * k + r) % m == r
  {
    var t := m * k + r;
    var q := t / m;
    assert t == m * q + t % m;
    assert m * (q - k) == r - t % m;
    MultipleIsFar(m, q - k);
  }

  lemma Times(a: nat, b: nat, c: nat)
    requires a <= b
    ensures a * c <= b * c
  {
    assert (b - a) * c >= 0;
  }

  lemma OneMore(s: nat, c: nat)
    ensures (s + 1) * c == s * c + c
  {
  }

  lemma FitsWithin(unit: nat, n: nat, s: nat, r: nat)
    requires s < n && r < unit
    ensures s * unit + r < n * unit
  {
    OneMore(s, unit);
    Times(s + 1, n, unit);
  }

  lemma Regroup(unit: nat, n: nat, k: nat, s: nat)
    ensures (n * k + s) * unit == n * unit * k + s * unit
  {
    assert (n * k + s) * unit == n * k * unit + s * unit;
    assert n * k * unit == n * unit * k;
  }

  lemma NestedIs(unit: nat, n: nat, h: nat, k: nat, s: nat, r: nat)
    requires h == n * k + s && s < n && r < unit
    ensures n * unit > 0 && (h * unit + r) % (n * unit) == s * unit + r
  {
    FitsWithin(unit, n, s, r);
    Regroup(unit, n, k, s);
    RemainderIs(n * unit, k, s * unit + r);
  }

  /** A remainder in two steps: of the count of whole units, and within one. */
  lemma Nested(unit: nat, n: nat, t: nat)
    requires unit > 0 && n > 0
    ensures n * unit > 0 && t % (n * unit) == t / unit % n * unit + t % unit
  {
    var h := t / unit;
    var k, s := h / n, h % n;
    assert h == n * k + s;
    NestedIs(unit, n, h, k, s, t % unit);
    assert t == h * unit + t % unit;
  }

  lemma ThreesOfTheDay(h: nat)
    ensures h % 24 % 3 == h % 3
  {
    RemainderIs(3, 8 * (h / 24) + h % 24 / 3, h % 24 % 3);
  }

  lemma SixesOfTheDay(h: nat)
    ensures h % 24 % 6 == h % 6
  {
    RemainderIs(6, 4 * (h / 24) + h % 24 / 6, h % 24 % 6);
  }

  lemma TwelvesOfTheDay(h: nat)
    ensures h % 24 % 12 == h % 12
  {
    RemainderIs(12, 2 * (h / 24) + h % 24 / 12, h % 24 % 12);
  }

  lemma NothingOver(x: nat, unit: nat, y: nat)
    requires unit > 0
    ensures x * unit + y == 0 <==> x == 0 && y == 0
  {
    if x > 0 {
      Times(1, x, unit);
    }
  }

  lemma SlotsEvery(unit: nat, n: nat, t: nat)
    requires unit > 0 && n > 0
    ensures n * unit > 0 && (t % (n * unit) == 0 <==> t / unit % n == 0 && t % unit == 0)
  {
    Nested(unit, n, t);
    NothingOver(t / unit % n, unit, t % unit);
  }

  lemma DailySlots(dailyHour: nat, t: nat)
    requires dailyHour < 24
    ensures t % 86_400_000 == dailyHour * 3_600_000 <==> t % HOUR == 0 && HourOf(t) == dailyHour
  {
    Nested(HOUR, 24, t);
  }

  /** In milliseconds from a midnight: the slots are the multiples of the frequency's period,
      those of a daily run a whole day apart at the hour chosen; off has none. */
  lemma SlotsAreMultiples(f: Frequency, dailyHour: nat, t: nat)
    requires dailyHour < 24
    ensures IsSlot(f, dailyHour, t)
            <==> match f
                 case Off => false
                 case Minutes15 => t % 900_000 == 0
                 case Minutes30 => t % 1_800_000 == 0
                 case Hours1 => t % 3_600_000 == 0
                 case Hours3 => t % 10_800_000 == 0
                 case Hours6 => t % 21_600_000 == 0
                 case Hours12 => t % 43_200_000 == 0
                 case Daily => t % 86_400_000 == dailyHour * 3_600_000
  {
    match f
    case Minutes15 => SlotsEvery(MINUTE, 15, t); MinuteRemainder(15, t / MINUTE);
    case Minutes30 => SlotsEvery(MINUTE, 30, t); MinuteRemainder(30, t / MINUTE);
    case Hours3 => SlotsEvery(HOUR, 3, t); ThreesOfTheDay(t / HOUR);
    case Hours6 => SlotsEvery(HOUR, 6, t); SixesOfTheDay(t / HOUR);
    case Hours12 => SlotsEvery(HOUR, 12, t); TwelvesOfTheDay(t / HOUR);
    case Daily => DailySlots(dailyHour, t);
    case _ =>
  }
}
