/** The 7 AM day boundary (rewind7am.py): the instant that names the "day" an
    event belongs to. Local time is a fixed offset `offset` (seconds east of
    UTC) instead of the platform's time zone database. */
module DayBoundary {
  import opened Wrappers

  const DaySeconds: int := 86400
  const HourSeconds: int := 3600
  /** Days break at 07:00 local time. */
  const CutoffHour: int := 7

  /** Seconds since local midnight of `t`. */
  function SecondsIntoDay(t: int, offset: int): (r: int)
    ensures 0 <= r < DaySeconds
  {
    (t + offset) % DaySeconds
  }

  /** The hour of the local clock at `t` (what `datetime.fromtimestamp(t).hour` gives). */
  function LocalHour(t: int, offset: int): (h: int)
    ensures 0 <= h < 24
  {
    SecondsIntoDay(t, offset) / HourSeconds
  }

  /** The instant of local midnight that starts the calendar day of `t`. */
  function LocalMidnight(t: int, offset: int): int {
    t - SecondsIntoDay(t, offset)
  }

  /** An instant whose local clock reads exactly 07:00:00. */
  predicate IsDayStart(d: int, offset: int) {
    SecondsIntoDay(d, offset) == CutoffHour * HourSeconds
  }

  /** 0001-01-01T00:00:00 and 10000-01-01T00:00:00 as local seconds since the
      epoch: `datetime` holds years 1 to 9999 only. */
  const FirstLocalSecond: int := -62135596800
  const LocalSecondsEnd: int := 253402300800

  /** The timestamps rewindTime accepts: not negative, with a local time that
      `fromtimestamp` can hold, and not before 07:00 of 1 January of year 1,
      whose previous day `datetime` cannot hold either. */
  predicate Rewindable(t: int, offset: int) {
    t >= 0 && FirstLocalSecond + CutoffHour * HourSeconds <= t + offset < LocalSecondsEnd
  }

  /** rewindTime for an integer timestamp: negative input is a ValueError, a
      local time outside `datetime`'s years an error of `fromtimestamp` or of
      the day subtraction (both re-raised); at local hour 7 or later the result
      is 07:00 of that calendar day, before 7 it is 07:00 of the previous one. */
  function RewindTime(t: int, offset: int): (r: Result<int>)
    ensures r.Err? <==> !Rewindable(t, offset)
    ensures t < 0 ==> r == Err(InvalidTimestamp(t))
    ensures t >= 0 && r.Err? ==> r == Err(TimestampOutOfRange(t))
    ensures r.Ok? ==> IsDayStart(r.value, offset)
    ensures r.Ok? ==> r.value <= t < r.value + DaySeconds
  {
    if t < 0 then Err(InvalidTimestamp(t))
    else if !(FirstLocalSecond + CutoffHour * HourSeconds <= t + offset < LocalSecondsEnd) then
      Err(TimestampOutOfRange(t))
    else
      var midnight := LocalMidnight(t, offset);
      var d := if LocalHour(t, offset) >= CutoffHour
               then midnight + CutoffHour * HourSeconds
               else midnight + CutoffHour * HourSeconds - DaySeconds;
      DayStartShift(t, offset, d);
      Ok(d)
  }

  /** The day start `d` chosen by RewindTime's branch has the local clock at 07:00. */
  lemma DayStartShift(t: int, offset: int, d: int)
    requires d == LocalMidnight(t, offset) + CutoffHour * HourSeconds
              - (if LocalHour(t, offset) >= CutoffHour then 0 else DaySeconds)
    ensures IsDayStart(d, offset)
    ensures d <= t < d + DaySeconds
  {
    var m := SecondsIntoDay(t, offset);
    var k := (t + offset) / DaySeconds;
    assert t + offset == k * DaySeconds + m;
    var j := if LocalHour(t, offset) >= CutoffHour then k else k - 1;
    assert d + offset == j * DaySeconds + CutoffHour * HourSeconds;
    ModOfMultiplePlus(j, CutoffHour * HourSeconds);
  }

  lemma ModOfMultiplePlus(j: int, c: int)
    requires 0 <= c < DaySeconds
    ensures (j * DaySeconds + c) % DaySeconds == c
  {
  }

  /** A day start that rewindTime returns is itself rewindable unless it lies
      before the epoch. */
  lemma {:induction false} DayStartRewindable(t: int, offset: int)
    requires Rewindable(t, offset)
    ensures Rewindable(RewindTime(t, offset).value, offset) <==> RewindTime(t, offset).value >= 0
  {
    var d := RewindTime(t, offset).value;
    var j := (d + offset) / DaySeconds;
    assert d + offset == j * DaySeconds + CutoffHour * HourSeconds;
    assert FirstLocalSecond == -719162 * DaySeconds;
    assert j * DaySeconds > -719163 * DaySeconds;
  }

  /** The timestamp of a note: the one given, or the clock reading `now`
      (`int(time.time())`) when none is (note.py:17-18, storage.py:133). */
  function NoteTime(timestamp: Option<int>, now: int): int {
    match timestamp
    case None => now
    case Some(t) => t
  }

  /** A value that rewindTime accepts: Python's `isinstance(t, (int, float))`. */
  datatype Stamp = Numeric(t: int) | NotNumeric

  /** rewindTime over any argument: a non-number raises ValueError. */
  function RewindValue(v: Stamp, offset: int): (r: Result<int>)
    ensures v.NotNumeric? ==> r == Err(NonNumeric)
    ensures v.Numeric? ==> r == RewindTime(v.t, offset)
  {
    match v
    case NotNumeric => Err(NonNumeric)
    case Numeric(t) => RewindTime(t, offset)
  }

  /** Day starts are exactly one day apart: two of them less than a day apart coincide. */
  lemma {:induction false} DayStartsUnique(d1: int, d2: int, offset: int)
    requires IsDayStart(d1, offset) && IsDayStart(d2, offset)
    requires d1 <= d2 < d1 + DaySeconds
    ensures d1 == d2
  {
    var k1 := (d1 + offset) / DaySeconds;
    var k2 := (d2 + offset) / DaySeconds;
    assert d1 + offset == k1 * DaySeconds + CutoffHour * HourSeconds;
    assert d2 + offset == k2 * DaySeconds + CutoffHour * HourSeconds;
    assert (k2 - k1) * DaySeconds == d2 - d1;
    assert k2 == k1;
  }

  /** A day start at or before `t` is at or before rewindTime(t). */
  lemma {:induction false} DayStartBelow(d: int, t: int, offset: int)
    requires Rewindable(t, offset) && IsDayStart(d, offset) && d <= t
    ensures d <= RewindTime(t, offset).value
  {
    var r := RewindTime(t, offset).value;
    var kd := (d + offset) / DaySeconds;
    var kr := (r + offset) / DaySeconds;
    assert d + offset == kd * DaySeconds + CutoffHour * HourSeconds;
    assert r + offset == kr * DaySeconds + CutoffHour * HourSeconds;
    assert (kr - kd) * DaySeconds == r - d;
    assert kd <= kr;
  }

  /** rewindTime(t) is THE 07:00 instant in (t - 86400, t]: any day start in that window is it. */
  lemma RewindCharacterised(t: int, d: int, offset: int)
    requires Rewindable(t, offset) && IsDayStart(d, offset) && d <= t < d + DaySeconds
    ensures RewindTime(t, offset) == Ok(d)
  {
    var r := RewindTime(t, offset).value;
    DayStartBelow(d, t, offset);
    DayStartsUnique(d, r, offset);
  }

  /** rewindTime is idempotent when its result is itself a valid (non-negative) timestamp. */
  lemma RewindIdempotent(t: int, offset: int)
    requires RewindTime(t, offset).Ok? && RewindTime(t, offset).value >= 0
    ensures RewindTime(RewindTime(t, offset).value, offset) == RewindTime(t, offset)
  {
    var d := RewindTime(t, offset).value;
    DayStartRewindable(t, offset);
    RewindCharacterised(d, d, offset);
  }

  /** ...but a result before the epoch cannot be rewound again: at UTC, t = 0 maps to
      07:00 of 31 December 1969, which rewindTime itself rejects. */
  lemma RewindOfEpochRejected()
    ensures RewindTime(0, 0).Ok? && RewindTime(0, 0).value == -61200
    ensures RewindTime(-61200, 0).Err?
  {
  }

  /** rewindTime is monotone. */
  lemma RewindMonotone(t1: int, t2: int, offset: int)
    requires t1 <= t2 && Rewindable(t1, offset) && Rewindable(t2, offset)
    ensures RewindTime(t1, offset).value <= RewindTime(t2, offset).value
  {
    DayStartBelow(RewindTime(t1, offset).value, t2, offset);
  }

  /** Two timestamps share a day exactly when they lie in the same [d, d + 86400) window. */
  lemma SameDay(t1: int, t2: int, offset: int)
    requires Rewindable(t1, offset) && Rewindable(t2, offset)
    ensures RewindTime(t1, offset) == RewindTime(t2, offset) <==>
              var d := RewindTime(t1, offset).value; d <= t2 < d + DaySeconds
  {
    var d := RewindTime(t1, offset).value;
    if d <= t2 < d + DaySeconds {
      RewindCharacterised(t2, d, offset);
    }
  }
}
