/**
 * The agent's enforcement state (`PCTimeControl` in src/pc_control.py): the
 * scheduled lock times, the usage limit and the believed lock flag, the
 * time-limit decision, the lock-state monitor and the one-shot enforcement
 * loop. Clock readings, the operating system's lock state and its faults are
 * inputs.
 */
module TimeControl {
  import opened Builtins

  /** A reading of the agent's naive local clock, in microseconds since midnight of day one. */
  type Instant = int

  const MICROS_PER_SECOND: int := 1000000
  const SECONDS_PER_DAY: int := 86400
  const MICROS_PER_DAY: int := SECONDS_PER_DAY * MICROS_PER_SECOND

  /** `datetime.hour`, `.minute` and `.second` of a clock reading. */
  function HourOf(t: Instant): int { (t / (3600 * MICROS_PER_SECOND)) % 24 }
  function MinuteOf(t: Instant): int { (t / (60 * MICROS_PER_SECOND)) % 60 }
  function SecondOf(t: Instant): int { (t / MICROS_PER_SECOND) % 60 }

  /**
   * `(now - start).seconds`: the whole seconds of the difference with the whole
   * days taken out, as Python's timedelta normalises it.
   */
  function ElapsedSecondsOfDay(start: Instant, now: Instant): (secs: int)
    ensures 0 <= secs < SECONDS_PER_DAY
  {
    ((now - start) / MICROS_PER_SECOND) % SECONDS_PER_DAY
  }

  /** A `datetime.time` holding only an hour and a minute. */
  datatype TimeOfDay = TimeOfDay(hour: int, minute: int)

  predicate IsTimeOfDay(t: TimeOfDay) {
    0 <= t.hour <= 23 && 0 <= t.minute <= 59
  }

  /** The bounds of a C `int`, which CPython's `datetime.time` parses its arguments into. */
  const C_INT_MIN: int := -0x8000_0000
  const C_INT_MAX: int := 0x7FFF_FFFF

  /** `str()` of the OverflowError for an argument outside a C int, as Windows CPython words it (a C long has 32 bits there). */
  const C_LONG_OVERFLOW: string := "Python int too large to convert to C long"

  /**
   * `datetime.time(hour, minute)`: both arguments are first converted to C
   * integers (OverflowError), then the hour and then the minute are range
   * checked (ValueError).
   */
  function MakeTime(hour: int, minute: int): (r: Result<TimeOfDay, Exception>)
    ensures r.Ok? <==> 0 <= hour <= 23 && 0 <= minute <= 59
    ensures r.Ok? ==> r.value == TimeOfDay(hour, minute) && IsTimeOfDay(r.value)
    ensures r.Err? && r.error.ValueError? <==>
              C_INT_MIN <= hour <= C_INT_MAX && C_INT_MIN <= minute <= C_INT_MAX && !r.Ok?
  {
    if !(C_INT_MIN <= hour <= C_INT_MAX) || !(C_INT_MIN <= minute <= C_INT_MAX) then
      Err(OverflowError(C_LONG_OVERFLOW))
    else if !(0 <= hour <= 23) then
      Err(ValueError("hour must be in 0..23"))
    else if !(0 <= minute <= 59) then
      Err(ValueError("minute must be in 0..59"))
    else
      Ok(TimeOfDay(hour, minute))
  }

  /** The three fields of PCTimeControl that commands and the monitor change. */
  datatype AgentState = AgentState(lockTimes: seq<TimeOfDay>, usageLimit: Option<int>, isLocked: bool)

  /** Every stored lock time is a valid time of day. */
  predicate LockTimesValid(lockTimes: seq<TimeOfDay>) {
    forall i :: 0 <= i < |lockTimes| ==> IsTimeOfDay(lockTimes[i])
  }

  /** Python truthiness of `usage_limit`: neither None nor 0. */
  predicate HasLimit(usageLimit: Option<int>) {
    usageLimit.Some? && usageLimit.value != 0
  }

  /** A scheduled lock time matches during the first second of its minute. */
  predicate LockTimeReached(t: TimeOfDay, now: Instant) {
    HourOf(now) == t.hour && MinuteOf(now) == t.minute && SecondOf(now) < 1
  }

  const SCHEDULED_REASON: string := "Scheduled lock time reached"

  function UsageReason(limit: int): string {
    "Usage limit of " + IntToString(limit) + " minutes reached"
  }

  /**
   * What `check_time_limits` answers. The usage test `seconds / 60 >= limit`
   * compares a correctly rounded float with an integer, which for
   * 0 <= seconds < 86400 is exactly `seconds >= 60 * limit`.
   */
  function TimeLimitVerdict(lockTimes: seq<TimeOfDay>, usageLimit: Option<int>, start: Instant, now: Instant): (bool, string) {
    if exists i :: 0 <= i < |lockTimes| && LockTimeReached(lockTimes[i], now) then
      (true, SCHEDULED_REASON)
    else if HasLimit(usageLimit) && ElapsedSecondsOfDay(start, now) >= 60 * usageLimit.value then
      (true, UsageReason(usageLimit.value))
    else
      (false, "")
  }

  /** A matching scheduled time answers before, and regardless of, the usage limit. */
  lemma ScheduledLockFirst(lockTimes: seq<TimeOfDay>, usageLimit: Option<int>, start: Instant, now: Instant, k: nat)
    requires k < |lockTimes| && LockTimeReached(lockTimes[k], now)
    ensures TimeLimitVerdict(lockTimes, usageLimit, start, now) == (true, SCHEDULED_REASON)
  {
  }

  /** The verdict locks exactly when a scheduled time matches or the limit is used up. */
  lemma VerdictLocksExactly(lockTimes: seq<TimeOfDay>, usageLimit: Option<int>, start: Instant, now: Instant)
    ensures TimeLimitVerdict(lockTimes, usageLimit, start, now).0 <==>
              (exists i :: 0 <= i < |lockTimes| && LockTimeReached(lockTimes[i], now))
              || (HasLimit(usageLimit) && ElapsedSecondsOfDay(start, now) >= 60 * usageLimit.value)
    ensures !TimeLimitVerdict(lockTimes, usageLimit, start, now).0 ==>
              TimeLimitVerdict(lockTimes, usageLimit, start, now).1 == ""
  {
  }

  /** Euclidean division has exactly one quotient. */
  lemma DivUnique(x: int, unit: int, q: int, r: int)
    requires unit > 0 && 0 <= r < unit && x == q * unit + r
    ensures x / unit == q
  {
    var d := q - x / unit;
    assert d * unit == x % unit - r;
  }

  /** Adding whole multiples of a unit moves the quotient by that many. */
  lemma DivShift(t: int, unit: int, k: int)
    requires unit > 0
    ensures (t + k * unit) / unit == t / unit + k
  {
    DivUnique(t + k * unit, unit, t / unit + k, t % unit);
  }

  /** Adding whole multiples of the modulus leaves the remainder alone. */
  lemma ModShift(x: int, m: int, k: int)
    requires m > 0
    ensures (x + k * m) % m == x % m
  {
    DivShift(x, m, k);
    assert m * ((x + k * m) / m) == m * (x / m) + m * k;
  }

  /** A field `(t / unit) % m` of a clock reading is the same `j * m` units later. */
  lemma FieldShift(t: int, unit: int, m: int, j: int)
    requires unit > 0 && m > 0
    ensures ((t + (j * m) * unit) / unit) % m == (t / unit) % m
  {
    DivShift(t, unit, j * m);
    ModShift(t / unit, m, j);
  }

  /** A clock reading and the one a day later show the same time of day. */
  lemma ClockNextDay(t: int)
    ensures HourOf(t + MICROS_PER_DAY) == HourOf(t)
    ensures MinuteOf(t + MICROS_PER_DAY) == MinuteOf(t)
    ensures SecondOf(t + MICROS_PER_DAY) == SecondOf(t)
    ensures ((t + MICROS_PER_DAY) / MICROS_PER_SECOND) % SECONDS_PER_DAY == (t / MICROS_PER_SECOND) % SECONDS_PER_DAY
  {
    FieldShift(t, 3600 * MICROS_PER_SECOND, 24, 1);
    FieldShift(t, 60 * MICROS_PER_SECOND, 60, 24);
    FieldShift(t, MICROS_PER_SECOND, 60, 1440);
    FieldShift(t, MICROS_PER_SECOND, SECONDS_PER_DAY, 1);
  }

  /**
   * Because `timedelta.seconds` drops whole days, the verdict a day later is
   * the verdict now: the usage test restarts every 24 hours.
   */
  lemma VerdictRepeatsDaily(lockTimes: seq<TimeOfDay>, usageLimit: Option<int>, start: Instant, now: Instant)
    ensures TimeLimitVerdict(lockTimes, usageLimit, start, now + MICROS_PER_DAY)
         == TimeLimitVerdict(lockTimes, usageLimit, start, now)
  {
    ClockNextDay(now);
    ClockNextDay(now - start);
    assert now + MICROS_PER_DAY - start == (now - start) + MICROS_PER_DAY;
    forall i | 0 <= i < |lockTimes|
      ensures LockTimeReached(lockTimes[i], now + MICROS_PER_DAY) == LockTimeReached(lockTimes[i], now)
    {
    }
  }

  /** A usage limit of a whole day or more can never be reached. */
  lemma DayLongLimitNeverFires(lockTimes: seq<TimeOfDay>, limit: int, start: Instant, now: Instant)
    requires limit >= 24 * 60
    requires forall i :: 0 <= i < |lockTimes| ==> !LockTimeReached(lockTimes[i], now)
    ensures TimeLimitVerdict(lockTimes, Some(limit), start, now) == (false, "")
  {
  }

  /** The lock-state transitions the monitor reports. */
  datatype LockEvent = NoChange | UnlockDetected | ManualLockDetected

  /** Where the enforcement loop ended: still waiting, or locked for the verdict's reason. */
  datatype MonitorPhase = Waiting | Locked(reason: string)

  /** A warning dialog: its message and its window title. */
  datatype Notice = Notice(text: string, title: string)

  const WARNING_TEXT: string := "Computer will lock in 1 minute!"
  const WARNING_TITLE: string := "Warning"

  /** `PCTimeControl`: the state a running agent keeps, changed in place. */
  class PcTimeControl {
    var lockTimes: seq<TimeOfDay>
    var usageLimit: Option<int>
    var isLocked: bool
    const startTime: Instant

    function State(): AgentState
      reads this
    {
      AgentState(lockTimes, usageLimit, isLocked)
    }

    ghost predicate Valid()
      reads this
    {
      LockTimesValid(lockTimes)
    }

    constructor (startTime: Instant)
      ensures Valid() && this.startTime == startTime
      ensures State() == AgentState([], None, false)
    {
      this.startTime := startTime;
      lockTimes := [];
      usageLimit := None;
      isLocked := false;
    }

    /** `add_scheduled_lock`: builds a `datetime.time` and appends it, or raises. */
    method AddScheduledLock(hour: int, minute: int) returns (raised: Option<Exception>)
      requires Valid()
      modifies this
      ensures Valid()
      ensures MakeTime(hour, minute).Ok? ==> raised == None && lockTimes == old(lockTimes) + [TimeOfDay(hour, minute)]
      ensures MakeTime(hour, minute).Err? ==> raised == Some(MakeTime(hour, minute).error) && lockTimes == old(lockTimes)
      ensures usageLimit == old(usageLimit) && isLocked == old(isLocked)
    {
      var made := MakeTime(hour, minute);
      match made
      case Ok(t) =>
        lockTimes := lockTimes + [t];
        raised := None;
      case Err(e) =>
        raised := Some(e);
    }

    /** `set_usage_limit`: replaces the limit. */
    method SetUsageLimit(minutes: int)
      requires Valid()
      modifies this
      ensures Valid()
      ensures usageLimit == Some(minutes)
      ensures lockTimes == old(lockTimes) && isLocked == old(isLocked)
    {
      usageLimit := Some(minutes);
    }

    /**
     * `lock_pc`: the flag is set before the operating system is asked to lock,
     * so it stays set when that call raises (`fault`).
     */
    method LockPc(fault: Option<string>) returns (raised: Option<Exception>)
      requires Valid()
      modifies this
      ensures Valid()
      ensures isLocked
      ensures raised == if fault.Some? then Some(CollaboratorError(fault.value)) else None
      ensures lockTimes == old(lockTimes) && usageLimit == old(usageLimit)
    {
      isLocked := true;
      raised := if fault.Some? then Some(CollaboratorError(fault.value)) else None;
    }

    /** `check_time_limits` at clock reading `now`. */
    method CheckTimeLimits(now: Instant) returns (shouldLock: bool, reason: string)
      ensures (shouldLock, reason) == TimeLimitVerdict(lockTimes, usageLimit, startTime, now)
    {
      for i := 0 to |lockTimes|
        invariant forall j :: 0 <= j < i ==> !LockTimeReached(lockTimes[j], now)
      {
        var lockTime := lockTimes[i];
        if HourOf(now) == lockTime.hour && MinuteOf(now) == lockTime.minute && SecondOf(now) < 1 {
          return true, SCHEDULED_REASON;
        }
      }
      if usageLimit.Some? && usageLimit.value != 0 {
        var usageSeconds := ElapsedSecondsOfDay(startTime, now);
        if usageSeconds >= 60 * usageLimit.value {
          return true, UsageReason(usageLimit.value);
        }
      }
      return false, "";
    }

    /**
     * One iteration of `monitor_activity` given the operating system's lock
     * state: an observed unlock clears the flag; an observed lock the agent
     * did not make is only reported.
     */
    method MonitorStep(actualLocked: bool) returns (event: LockEvent)
      requires Valid()
      modifies this
      ensures Valid()
      ensures isLocked == (old(isLocked) && actualLocked)
      ensures event == if old(isLocked) && !actualLocked then UnlockDetected
                       else if !old(isLocked) && actualLocked then ManualLockDetected
                       else NoChange
      ensures lockTimes == old(lockTimes) && usageLimit == old(usageLimit)
    {
      if isLocked && !actualLocked {
        isLocked := false;
        event := UnlockDetected;
      } else if !isLocked && actualLocked {
        event := ManualLockDetected;
      } else {
        event := NoChange;
      }
    }

    /**
     * `monitor_activity` over a finite run of polls: the flag survives only if
     * it was set and every poll saw the session locked.
     */
    method MonitorActivity(observations: seq<bool>) returns (events: seq<LockEvent>)
      requires Valid()
      modifies this
      ensures Valid()
      ensures |events| == |observations|
      ensures isLocked <==> old(isLocked) && forall i :: 0 <= i < |observations| ==> observations[i]
      ensures forall i :: 0 <= i < |events| ==> events[i] != UnlockDetected || !observations[i]
      ensures lockTimes == old(lockTimes) && usageLimit == old(usageLimit)
    {
      events := [];
      for i := 0 to |observations|
        invariant Valid()
        invariant |events| == i
        invariant isLocked <==> old(isLocked) && forall j :: 0 <= j < i ==> observations[j]
        invariant forall j :: 0 <= j < i ==> events[j] != UnlockDetected || !observations[j]
        invariant lockTimes == old(lockTimes) && usageLimit == old(usageLimit)
      {
        var event := MonitorStep(observations[i]);
        events := events + [event];
      }
    }

    /**
     * `run_monitor` over the clock readings of its polls: at the first reading
     * whose verdict locks, it warns, locks and leaves the loop for good.
     */
    method RunMonitor(ticks: seq<Instant>) returns (phase: MonitorPhase, firedAt: Option<nat>, warning: Option<Notice>)
      requires Valid()
      modifies this
      ensures Valid()
      ensures lockTimes == old(lockTimes) && usageLimit == old(usageLimit)
      ensures firedAt.None? <==> phase == Waiting
      ensures firedAt.None? ==>
                isLocked == old(isLocked) && warning == None &&
                forall j :: 0 <= j < |ticks| ==> !TimeLimitVerdict(lockTimes, usageLimit, startTime, ticks[j]).0
      ensures firedAt.Some? ==>
                && firedAt.value < |ticks|
                && TimeLimitVerdict(lockTimes, usageLimit, startTime, ticks[firedAt.value]).0
                && phase == Locked(TimeLimitVerdict(lockTimes, usageLimit, startTime, ticks[firedAt.value]).1)
                && isLocked && warning == Some(Notice(WARNING_TEXT, WARNING_TITLE))
                && forall j :: 0 <= j < firedAt.value ==> !TimeLimitVerdict(lockTimes, usageLimit, startTime, ticks[j]).0
    {
      phase, firedAt, warning := Waiting, None, None;
      var i := 0;
      while i < |ticks|
        invariant 0 <= i <= |ticks|
        invariant Valid() && isLocked == old(isLocked)
        invariant lockTimes == old(lockTimes) && usageLimit == old(usageLimit)
        invariant forall j :: 0 <= j < i ==> !TimeLimitVerdict(lockTimes, usageLimit, startTime, ticks[j]).0
      {
        var shouldLock, reason := CheckTimeLimits(ticks[i]);
        if shouldLock {
          warning := Some(Notice(WARNING_TEXT, WARNING_TITLE));
          var _ := LockPc(None);
          phase, firedAt := Locked(reason), Some(i);
          return;
        }
        i := i + 1;
      }
    }
  }
}
