/** The sequential decisions of the collector in prolific.py: the idle test and
    the foreground-window snapshot, the heartbeat/dedupe step of the window
    logger and the count/reset of the key-frequency logger. Reading the OS
    (tick counts, window handles, process names, key releases) is replaced by
    inputs; the threads and the sleeping between polls are left out. */
module Collector {
  import opened Wrappers
  import opened Seqs
  import opened Text
  import opened DayBoundary
  import opened LogFiles
  import opened LegacyImport
  import opened ExportEvents
  import opened LineFormat

  const WindowHeartbeatSeconds: int := 600
  const UserIdleSeconds: int := 120
  /** GetTickCount wraps around at 2^32 milliseconds. */
  const TickModulus: int := 0x1_0000_0000

  const IdleTitle: string := "__IDLE__"
  const LockedTitle: string := "__LOCKEDSCREEN"
  const UnknownProcess: string := "unknown.exe"

  // ---------------------------------------------------------------------------
  // Idle time and the snapshot

  /** get_idle_seconds in milliseconds (prolific.py:26-33): 0 when
      GetLastInputInfo fails, otherwise the tick difference masked to 32 bits. */
  function IdleMillis(gotInput: bool, nowMs: int, lastInputMs: int): (ms: int)
    ensures 0 <= ms < TickModulus
    ensures !gotInput ==> ms == 0
    ensures gotInput && lastInputMs <= nowMs < lastInputMs + TickModulus ==> ms == nowMs - lastInputMs
  {
    if !gotInput then 0 else (nowMs - lastInputMs) % TickModulus
  }

  /** When the tick counter wraps between the last input and now, the mask
      still gives the true elapsed time. */
  lemma IdleAcrossWrap(nowMs: int, lastInputMs: int)
    requires 0 <= nowMs < lastInputMs < TickModulus
    ensures IdleMillis(true, nowMs, lastInputMs) == nowMs + TickModulus - lastInputMs
  {
    assert nowMs - lastInputMs == (nowMs + TickModulus - lastInputMs) - TickModulus;
  }

  /** `get_idle_seconds() >= USER_IDLE_SECONDS`, the seconds being `ms / 1000.0`. */
  predicate IsIdle(idleMs: int) {
    idleMs >= UserIdleSeconds * 1000
  }

  /** What the OS reports about the foreground window: its handle (0 when there
      is none), its text, and the owning process's name (None when the lookup
      raised). */
  datatype Foreground = Foreground(hwnd: int, text: string, processName: Option<string>)

  datatype Snapshot = Snapshot(title: string, process: string)

  lemma ConstantsClean()
    ensures Clean(IdleTitle) && Clean(LockedTitle) && Clean(UnknownProcess) && Clean("idle")
  {
    assert UnknownProcess[0] == 'u' && UnknownProcess[|UnknownProcess| - 1] == 'e';
    assert LockedTitle[0] == '_' && LockedTitle[|LockedTitle| - 1] == 'N';
    assert IdleTitle[0] == '_' && IdleTitle[|IdleTitle| - 1] == '_';
  }

  /** active_window_snapshot (prolific.py:54-73). */
  function ActiveWindowSnapshot(idleMs: int, fg: Foreground): (s: Snapshot)
    ensures Clean(s.title) && s.title != [] && Clean(s.process)
    ensures IsIdle(idleMs) ==> s == Snapshot(IdleTitle, "idle")
    ensures !IsIdle(idleMs) && fg.hwnd == 0 ==> s == Snapshot(LockedTitle, UnknownProcess)
    ensures !IsIdle(idleMs) && fg.hwnd != 0 ==>
      s.title == (if Sanitize(fg.text) == [] then LockedTitle else Sanitize(fg.text))
  {
    ConstantsClean();
    if IsIdle(idleMs) then Snapshot(IdleTitle, "idle")
    else if fg.hwnd == 0 then Snapshot(LockedTitle, UnknownProcess)
    else
      var title := Sanitize(fg.text);
      var process := match fg.processName
        case None => UnknownProcess
        case Some(name) => name;
      Snapshot(if title == [] then LockedTitle else title, Sanitize(process))
  }

  /** `f"{title} ({process_name})"`. */
  function WindowPayload(s: Snapshot): string {
    s.title + " (" + s.process + ")"
  }

  /** A snapshot's payload is one trimmed, non-empty line, so both readers
      get it back unchanged. */
  lemma PayloadClean(s: Snapshot)
    requires Clean(s.title) && s.title != [] && Clean(s.process)
    ensures Clean(WindowPayload(s)) && WindowPayload(s) != []
  {
    var p := WindowPayload(s);
    assert p[0] == s.title[0];
    assert p[|p| - 1] == ')';
    forall k | 0 <= k < |p| ensures p[k] != '\r' && p[k] != '\n' {
      if k < |s.title| {
        assert p[k] == s.title[k];
      } else if |s.title| + 2 <= k < |s.title| + 2 + |s.process| {
        assert p[k] == s.process[k - |s.title| - 2];
      }
    }
  }

  /** day_log_path(prefix, unix_time) (prolific.py:44-46): the file of the day
      `unix_time` falls in; rewindTime's error is passed on. */
  function DayLogPath(k: Kind, t: int, offset: int): (r: Result<string>)
    ensures r.Err? <==> !Rewindable(t, offset)
    ensures r.Ok? ==> exists d :: IsDayStart(d, offset) && d <= t < d + DaySeconds && r.value == DayFilePath(k, d)
  {
    match RewindTime(t, offset)
    case Err(e) => Err(e)
    case Ok(d) => Ok(DayFilePath(k, d))
  }

  // ---------------------------------------------------------------------------
  // log_active_windows

  /** What one poll observes: the clock, the idle time and the foreground window. */
  datatype Poll = Poll(now: int, idleMs: int, fg: Foreground)

  /** The loop's `last_payload` and `last_write_time`. */
  datatype WindowState = WindowState(lastPayload: Option<string>, lastWriteTime: int)

  const InitialWindowState: WindowState := WindowState(None, 0)

  /** One appended window line: `f"{now} {payload}"` to `path`. */
  datatype WindowWrite = WindowWrite(t: int, payload: string, path: string)

  /** `should_write` (prolific.py:85). */
  predicate ShouldWrite(st: WindowState, payload: string, now: int, heartbeat: int) {
    st.lastPayload != Some(payload) || now - st.lastWriteTime >= heartbeat
  }

  /** One poll of log_active_windows (prolific.py:81-94). A rewindTime error is
      caught by the loop's `except`: nothing is written and the state stays. */
  function WindowStep(st: WindowState, p: Poll, heartbeat: int, offset: int): (r: (WindowState, Option<WindowWrite>))
    ensures r.1.None? ==> r.0 == st
    ensures r.1.Some? ==> r.1.value.t == p.now && r.0 == WindowState(Some(r.1.value.payload), p.now)
    ensures r.1.Some? ==> Clean(r.1.value.payload) && r.1.value.payload != []
  {
    PayloadClean(ActiveWindowSnapshot(p.idleMs, p.fg));
    var payload := WindowPayload(ActiveWindowSnapshot(p.idleMs, p.fg));
    if !ShouldWrite(st, payload, p.now, heartbeat) then (st, None)
    else match DayLogPath(Window, p.now, offset)
      case Err(_) => (st, None)
      case Ok(path) => (WindowState(Some(payload), p.now), Some(WindowWrite(p.now, payload, path)))
  }

  /** WindowStep as a function value. */
  function WindowStepper(heartbeat: int, offset: int): (WindowState, Poll) -> (WindowState, Option<WindowWrite>) {
    (st: WindowState, p: Poll) => WindowStep(st, p, heartbeat, offset)
  }

  /** The state and the lines after a run of polls, from the initial state. */
  function WindowRun(polls: seq<Poll>, heartbeat: int, offset: int): (r: (WindowState, seq<WindowWrite>))
    ensures |r.1| <= |polls|
  {
    Scan(InitialWindowState, polls, WindowStepper(heartbeat, offset))
  }

  /** The last poll of a run is one step from the run before it. */
  lemma WindowRunLast(polls: seq<Poll>, heartbeat: int, offset: int)
    requires polls != []
    ensures var prev := WindowRun(polls[..|polls| - 1], heartbeat, offset);
      var step := WindowStep(prev.0, polls[|polls| - 1], heartbeat, offset);
      WindowRun(polls, heartbeat, offset) == (step.0, prev.1 + (if step.1.Some? then [step.1.value] else []))
  {
  }

  /** The same, for the prefixes a loop walks through. */
  lemma WindowRunPrefix(polls: seq<Poll>, i: int, heartbeat: int, offset: int)
    requires 0 <= i < |polls|
    ensures var prev := WindowRun(polls[..i], heartbeat, offset);
      var step := WindowStep(prev.0, polls[i], heartbeat, offset);
      WindowRun(polls[..i + 1], heartbeat, offset) == (step.0, prev.1 + (if step.1.Some? then [step.1.value] else []))
  {
    assert polls[..i + 1][..i] == polls[..i];
    WindowRunLast(polls[..i + 1], heartbeat, offset);
  }

  /** One pass of log_active_windows' loop body (prolific.py:81-94) on the
      loop's `last_payload` and `last_write_time`. */
  method PollOnce(lastPayload: Option<string>, lastWriteTime: int, p: Poll, heartbeat: int, offset: int)
    returns (newPayload: Option<string>, newWriteTime: int, write: Option<WindowWrite>)
    ensures (WindowState(newPayload, newWriteTime), write) == WindowStep(WindowState(lastPayload, lastWriteTime), p, heartbeat, offset)
  {
    WindowStepDecides(WindowState(lastPayload, lastWriteTime), p, heartbeat, offset);
    newPayload, newWriteTime, write := lastPayload, lastWriteTime, None;
    var now := p.now;
    var snap := ActiveWindowSnapshot(p.idleMs, p.fg);
    var payload := WindowPayload(snap);
    var shouldWrite := lastPayload != Some(payload) || now - lastWriteTime >= heartbeat;
    if shouldWrite {
      var logPath := DayLogPath(Window, now, offset);
      if logPath.Ok? {
        write := Some(WindowWrite(now, payload, logPath.value));
        newPayload := Some(payload);
        newWriteTime := now;
      }
    }
  }

  /** log_active_windows (prolific.py:76-96) over a finite run of polls. */
  method LogActiveWindows(polls: seq<Poll>, heartbeat: int, offset: int) returns (writes: seq<WindowWrite>)
    ensures writes == WindowRun(polls, heartbeat, offset).1
  {
    var lastPayload: Option<string> := None;
    var lastWriteTime := 0;
    writes := [];
    var i := 0;
    while i < |polls|
      invariant 0 <= i <= |polls|
      invariant (WindowState(lastPayload, lastWriteTime), writes) == WindowRun(polls[..i], heartbeat, offset)
    {
      WindowRunPrefix(polls, i, heartbeat, offset);
      var prev := WindowRun(polls[..i], heartbeat, offset);
      assert prev.0 == WindowState(lastPayload, lastWriteTime);
      assert prev.1 == writes;
      var step := WindowStep(prev.0, polls[i], heartbeat, offset);
      var write;
      lastPayload, lastWriteTime, write := PollOnce(lastPayload, lastWriteTime, polls[i], heartbeat, offset);
      assert step.1 == write;
      assert step.0 == WindowState(lastPayload, lastWriteTime);
      if write.Some? {
        writes := writes + [write.value];
      }
      assert WindowRun(polls[..i + 1], heartbeat, offset) == (step.0, prev.1 + (if step.1.Some? then [step.1.value] else []));
      assert writes == prev.1 + (if step.1.Some? then [step.1.value] else []);
      i := i + 1;
    }
    assert polls[..i] == polls;
  }

  /** A line is written exactly when the payload changed or the heartbeat
      elapsed (and the clock is valid); it goes to the day's window file, and
      only then do `last_payload` and `last_write_time` change, to the payload
      and the clock. */
  lemma WindowStepDecides(st: WindowState, p: Poll, heartbeat: int, offset: int)
    ensures var payload := WindowPayload(ActiveWindowSnapshot(p.idleMs, p.fg));
      var step := WindowStep(st, p, heartbeat, offset);
      (step.1.Some? <==> ShouldWrite(st, payload, p.now, heartbeat) && Rewindable(p.now, offset)) &&
      (step.1.Some? ==> step.0 == WindowState(Some(payload), p.now) &&
                        step.1.value == WindowWrite(p.now, payload, DayLogPath(Window, p.now, offset).value)) &&
      (step.1.None? ==> step.0 == st)
  {
  }

  /** The first poll always writes: `last_payload` starts as None. */
  lemma FirstPollWrites(p: Poll, heartbeat: int, offset: int)
    requires Rewindable(p.now, offset)
    ensures WindowRun([p], heartbeat, offset).1 ==
      [WindowWrite(p.now, WindowPayload(ActiveWindowSnapshot(p.idleMs, p.fg)), DayLogPath(Window, p.now, offset).value)]
  {
    WindowRunLast([p], heartbeat, offset);
    assert [p][..0] == [];
  }

  /** After a run, the state remembers the last line written, or is the
      initial state when nothing was written. */
  lemma {:induction false} WindowStateIsLastWrite(polls: seq<Poll>, heartbeat: int, offset: int)
    ensures var r := WindowRun(polls, heartbeat, offset);
      (r.1 == [] ==> r.0 == InitialWindowState) &&
      (r.1 != [] ==> r.0 == WindowState(Some(r.1[|r.1| - 1].payload), r.1[|r.1| - 1].t))
  {
    if polls != [] {
      var init := polls[..|polls| - 1];
      WindowStateIsLastWrite(init, heartbeat, offset);
      WindowRunLast(polls, heartbeat, offset);
      var prev := WindowRun(init, heartbeat, offset);
      var p := polls[|polls| - 1];
      var step := WindowStep(prev.0, p, heartbeat, offset);
      WindowStepDecides(prev.0, p, heartbeat, offset);
      var r := WindowRun(polls, heartbeat, offset);
      if step.1.Some? {
        assert r.1 == prev.1 + [step.1.value];
        assert r.1[|r.1| - 1] == step.1.value;
      } else {
        assert r.1 == prev.1 + [];
        assert prev.1 + [] == prev.1;
      }
    }
  }

  /** Deduplication: two consecutive lines repeat a payload only when at
      least the heartbeat separates them. */
  lemma {:induction false} WritesSpaced(polls: seq<Poll>, heartbeat: int, offset: int)
    ensures Spaced(WindowRun(polls, heartbeat, offset).1, heartbeat)
  {
    if polls != [] {
      var init := polls[..|polls| - 1];
      WritesSpaced(init, heartbeat, offset);
      WindowStateIsLastWrite(init, heartbeat, offset);
      WindowRunLast(polls, heartbeat, offset);
      var prev := WindowRun(init, heartbeat, offset);
      var step := WindowStep(prev.0, polls[|polls| - 1], heartbeat, offset);
      if step.1.Some? {
        SpacedSnoc(prev.1, step.1.value, heartbeat);
      }
    }
  }

  /** Consecutive lines differ in payload or lie at least `heartbeat` apart. */
  ghost predicate Spaced(w: seq<WindowWrite>, heartbeat: int) {
    forall k :: 0 <= k < |w| - 1 ==> w[k].payload != w[k + 1].payload || w[k + 1].t - w[k].t >= heartbeat
  }

  lemma SpacedSnoc(w: seq<WindowWrite>, x: WindowWrite, heartbeat: int)
    requires Spaced(w, heartbeat)
    requires w != [] ==> w[|w| - 1].payload != x.payload || x.t - w[|w| - 1].t >= heartbeat
    ensures Spaced(w + [x], heartbeat)
  {
    var v := w + [x];
    forall k | 0 <= k < |v| - 1 ensures v[k].payload != v[k + 1].payload || v[k + 1].t - v[k].t >= heartbeat {
      if k + 1 < |w| {
        assert v[k] == w[k] && v[k + 1] == w[k + 1];
      } else {
        assert v[k] == w[|w| - 1] && v[k + 1] == x;
      }
    }
  }

  /** Every line goes to the window file of its own day and carries a clean,
      non-empty payload. */
  lemma {:induction false} WritesInTheirDay(polls: seq<Poll>, heartbeat: int, offset: int)
    ensures var w := WindowRun(polls, heartbeat, offset).1;
      forall k :: 0 <= k < |w| ==>
        Rewindable(w[k].t, offset) && w[k].path == DayFilePath(Window, RewindTime(w[k].t, offset).value) &&
        Clean(w[k].payload) && w[k].payload != []
  {
    if polls != [] {
      var init := polls[..|polls| - 1];
      WritesInTheirDay(init, heartbeat, offset);
      var p := polls[|polls| - 1];
      WindowRunLast(polls, heartbeat, offset);
      PayloadClean(ActiveWindowSnapshot(p.idleMs, p.fg));
    }
  }

  /** Round trip of one window line: load_events gives `{t, s: payload}`
      back, and the importer accepts the row for the line's day. */
  lemma WindowLineReadBack(w: WindowWrite, offset: int)
    requires Rewindable(w.t, offset) && Clean(w.payload) && w.payload != []
    ensures LoadLine(FormatLine(w.t, w.payload), false) == Some(Event(w.t, Str(w.payload)))
    ensures ClassifyLine(RewindTime(w.t, offset).value, FormatLine(w.t, w.payload), TextValue) == Accepted(w.t, w.payload)
  {
    ExportReadsText(w.t, w.payload);
    ImporterReadsText(RewindTime(w.t, offset).value, w.t, w.payload);
  }

  // ---------------------------------------------------------------------------
  // log_key_frequency

  /** What the key logger sees: a key release, or the end of a bucket with the clock. */
  datatype KeyEvent = Release | Flush(now: int)

  /** One appended keyfreq line: `f"{now} {count}"` to `path`. */
  datatype KeyWrite = KeyWrite(t: int, count: nat, path: string)

  /** `bucket_count` and the lines so far; `stopped` once rewindTime has raised,
      which ends the logging thread. */
  datatype KeyState = KeyState(bucket: nat, writes: seq<KeyWrite>, stopped: bool)

  /** One event: a release adds one to the bucket (prolific.py:103-106); a
      flush takes the count, resets the bucket and appends a line
      (prolific.py:114-121). */
  function KeyStep(st: KeyState, e: KeyEvent, offset: int): (r: KeyState)
    ensures st.stopped ==> r == st
    ensures !st.stopped && e.Release? ==> r == st.(bucket := st.bucket + 1)
    ensures !st.stopped && e.Flush? ==> r.bucket == 0 && (r.stopped <==> !Rewindable(e.now, offset))
    ensures !st.stopped && e.Flush? && Rewindable(e.now, offset) ==>
              r.writes == st.writes + [KeyWrite(e.now, st.bucket, DayFilePath(Keyfreq, RewindTime(e.now, offset).value))]
    ensures !st.stopped && e.Flush? && !Rewindable(e.now, offset) ==> r.writes == st.writes
  {
    if st.stopped then st
    else match e
      case Release => st.(bucket := st.bucket + 1)
      case Flush(now) =>
        match DayLogPath(Keyfreq, now, offset)
        case Err(_) => KeyState(0, st.writes, true)
        case Ok(path) => KeyState(0, st.writes + [KeyWrite(now, st.bucket, path)], false)
  }

  function KeyRun(events: seq<KeyEvent>, offset: int): KeyState {
    if events == [] then KeyState(0, [], false)
    else KeyStep(KeyRun(events[..|events| - 1], offset), events[|events| - 1], offset)
  }

  /** log_key_frequency (prolific.py:99-125) over a finite run of events. */
  method LogKeyFrequency(events: seq<KeyEvent>, offset: int) returns (writes: seq<KeyWrite>)
    ensures writes == KeyRun(events, offset).writes
  {
    var bucketCount: nat := 0;
    var stopped := false;
    writes := [];
    var i := 0;
    while i < |events|
      invariant 0 <= i <= |events|
      invariant KeyState(bucketCount, writes, stopped) == KeyRun(events[..i], offset)
    {
      assert events[..i + 1][..i] == events[..i];
      if !stopped {
        match events[i]
        case Release =>
          bucketCount := bucketCount + 1;
        case Flush(now) =>
          var count := bucketCount;
          bucketCount := 0;
          var logPath := DayLogPath(Keyfreq, now, offset);
          if logPath.Ok? {
            writes := writes + [KeyWrite(now, count, logPath.value)];
          } else {
            stopped := true;
          }
      }
      i := i + 1;
    }
    assert events[..i] == events;
  }

  function Releases(events: seq<KeyEvent>): nat {
    if events == [] then 0
    else Releases(events[..|events| - 1]) + (if events[|events| - 1].Release? then 1 else 0)
  }

  function SumCounts(writes: seq<KeyWrite>): nat {
    if writes == [] then 0 else SumCounts(writes[..|writes| - 1]) + writes[|writes| - 1].count
  }

  /** Until the logger stops, every key release is counted exactly once:
      the counts logged so far plus the open bucket are all the releases. */
  lemma {:induction false} KeyCountsConserved(events: seq<KeyEvent>, offset: int)
    requires !KeyRun(events, offset).stopped
    ensures SumCounts(KeyRun(events, offset).writes) + KeyRun(events, offset).bucket == Releases(events)
  {
    if events != [] {
      var init := events[..|events| - 1];
      var prev := KeyRun(init, offset);
      assert !prev.stopped;
      KeyCountsConserved(init, offset);
      var e := events[|events| - 1];
      if e.Flush? {
        var w := KeyRun(events, offset).writes;
        assert w[..|w| - 1] == prev.writes;
      }
    }
  }

  /** A flush logs the bucket as it stood and leaves it empty. */
  lemma FlushLogsBucket(events: seq<KeyEvent>, now: int, offset: int)
    requires !KeyRun(events, offset).stopped && Rewindable(now, offset)
    ensures var before := KeyRun(events, offset);
      var after := KeyRun(events + [Flush(now)], offset);
      after.bucket == 0 && !after.stopped &&
      after.writes == before.writes + [KeyWrite(now, before.bucket, DayFilePath(Keyfreq, RewindTime(now, offset).value))]
  {
    assert (events + [Flush(now)])[..|events|] == events;
  }

  /** Round trip of one keyfreq line: load_events with `cast_int_value` gives
      the count back, and the importer accepts it for the line's day. */
  lemma KeyLineReadBack(w: KeyWrite, offset: int)
    requires Rewindable(w.t, offset)
    ensures LoadLine(FormatLine(w.t, IntToString(w.count)), true) == Some(Event(w.t, Num(w.count)))
    ensures ClassifyLine(RewindTime(w.t, offset).value, FormatLine(w.t, IntToString(w.count)), CountValue) ==
      Accepted(w.t, w.count as int)
  {
    ExportReadsCount(w.t, w.count);
    ImporterReadsCount(RewindTime(w.t, offset).value, w.t, w.count);
  }
}
