/** processing_engine.py: flow-state detection over index-paired keystroke and
    window rows, per-key aggregation of window time and keystrokes, and the
    daily/overview reports. The rows `_fetch_*` return from SQLite are inputs. */
module ProcessingEngine {
  import opened Wrappers
  import opened Text

  /** A `keystrokes` row: `{timestamp, keystroke_count}`. */
  datatype KeystrokeRow = KeystrokeRow(timestamp: string, count: int)

  /** A `window_activity` row: `{timestamp, window_title, duration}`. */
  datatype WindowRow = WindowRow(timestamp: string, title: string, duration: int)

  /** One flow state: `{start_time, end_time, window_title, keystroke_count}`. */
  datatype FlowState = FlowState(startTime: string, endTime: string, title: string, keystrokes: int)

  type Pair = (KeystrokeRow, WindowRow)

  const DefaultTypingThreshold: int := 20

  /** `zip(raw_keystrokes, raw_windows)` (processing_engine.py:53): only the
      first min(|ks|, |ws|) rows of each are paired. */
  function Zip(ks: seq<KeystrokeRow>, ws: seq<WindowRow>): (r: seq<Pair>)
    ensures |r| == (if |ks| < |ws| then |ks| else |ws|)
    ensures forall k :: 0 <= k < |r| ==> r[k] == (ks[k], ws[k])
  {
    if ks == [] || ws == [] then [] else [(ks[0], ws[0])] + Zip(ks[1..], ws[1..])
  }

  // ---------------------------------------------------------------------------
  // Flow states: the reference definition by maximal runs

  /** A pair is part of a flow when its count reaches the threshold. */
  predicate Hot(ps: seq<Pair>, j: int, thr: int)
    requires 0 <= j < |ps|
  {
    ps[j].0.count >= thr
  }

  /** A maximal run of hot pairs `ps[lo..hi]`. */
  predicate MaximalRun(ps: seq<Pair>, lo: int, hi: int, thr: int) {
    0 <= lo < hi <= |ps| &&
    (forall j :: lo <= j < hi ==> Hot(ps, j, thr)) &&
    (lo == 0 || !Hot(ps, lo - 1, thr)) &&
    (hi == |ps| || !Hot(ps, hi, thr))
  }

  /** Where the hot run starting at `lo` ends. */
  function RunEnd(ps: seq<Pair>, lo: int, thr: int): (hi: int)
    requires 0 <= lo <= |ps|
    ensures lo <= hi <= |ps|
    ensures forall j :: lo <= j < hi ==> Hot(ps, j, thr)
    ensures hi < |ps| ==> !Hot(ps, hi, thr)
    decreases |ps| - lo
  {
    if lo == |ps| || !Hot(ps, lo, thr) then lo else RunEnd(ps, lo + 1, thr)
  }

  /** The bounds of the maximal hot runs of `ps[from..]`, front to back. */
  function RunBounds(ps: seq<Pair>, from: int, thr: int): (b: seq<(int, int)>)
    requires 0 <= from <= |ps|
    ensures forall k :: 0 <= k < |b| ==> from <= b[k].0 < b[k].1 <= |ps|
    decreases |ps| - from
  {
    if from == |ps| then []
    else if !Hot(ps, from, thr) then RunBounds(ps, from + 1, thr)
    else
      var hi := RunEnd(ps, from, thr);
      [(from, hi)] + RunBounds(ps, hi, thr)
  }

  function SumCounts(ps: seq<Pair>, lo: int, hi: int): int
    requires 0 <= lo <= hi <= |ps|
    decreases hi - lo
  {
    if lo == hi then 0 else SumCounts(ps, lo, hi - 1) + ps[hi - 1].0.count
  }

  /** The state a run yields: it starts and ends at the run's first and last
      keystroke timestamps, takes the first pair's window title and sums the
      run's counts (processing_engine.py:55-64). */
  function StateOf(ps: seq<Pair>, lo: int, hi: int): FlowState
    requires 0 <= lo < hi <= |ps|
  {
    FlowState(ps[lo].0.timestamp, ps[hi - 1].0.timestamp, ps[lo].1.title, SumCounts(ps, lo, hi))
  }

  function StatesOf(ps: seq<Pair>, b: seq<(int, int)>): (r: seq<FlowState>)
    requires forall k :: 0 <= k < |b| ==> 0 <= b[k].0 < b[k].1 <= |ps|
    ensures |r| == |b|
    ensures forall k :: 0 <= k < |b| ==> r[k] == StateOf(ps, b[k].0, b[k].1)
  {
    if b == [] then [] else [StateOf(ps, b[0].0, b[0].1)] + StatesOf(ps, b[1..])
  }

  /** What calculate_flow_states should yield: one state per maximal hot run,
      in input order. */
  function FlowStates(ps: seq<Pair>, thr: int): seq<FlowState> {
    StatesOf(ps, RunBounds(ps, 0, thr))
  }

  /** The run bounds are maximal runs, ascending and disjoint. */
  lemma {:induction false} RunBoundsMaximal(ps: seq<Pair>, from: int, thr: int)
    requires 0 <= from <= |ps|
    requires from == 0 || !Hot(ps, from - 1, thr) || from == |ps| || !Hot(ps, from, thr)
    ensures forall k :: 0 <= k < |RunBounds(ps, from, thr)| ==>
      MaximalRun(ps, RunBounds(ps, from, thr)[k].0, RunBounds(ps, from, thr)[k].1, thr)
    ensures forall k :: 0 <= k < |RunBounds(ps, from, thr)| - 1 ==>
      RunBounds(ps, from, thr)[k].1 < RunBounds(ps, from, thr)[k + 1].0
    decreases |ps| - from
  {
    if from < |ps| {
      if !Hot(ps, from, thr) {
        RunBoundsMaximal(ps, from + 1, thr);
        assert RunBounds(ps, from, thr) == RunBounds(ps, from + 1, thr);
      } else {
        var hi := RunEnd(ps, from, thr);
        RunBoundsMaximal(ps, hi, thr);
        var rest := RunBounds(ps, hi, thr);
        var b := RunBounds(ps, from, thr);
        assert b == [(from, hi)] + rest;
        assert MaximalRun(ps, from, hi, thr);
        if rest != [] {
          assert Hot(ps, rest[0].0, thr);
          assert b[0].1 < b[1].0;
        }
        forall k | 0 < k < |b| ensures b[k] == rest[k - 1] {
        }
      }
    }
  }

  /** A run that is hot on `[lo, hi)` and cold (or ends) at `hi` ends at `hi`. */
  lemma {:induction false} RunEndAt(ps: seq<Pair>, lo: int, hi: int, thr: int)
    requires 0 <= lo <= hi <= |ps|
    requires forall j :: lo <= j < hi ==> Hot(ps, j, thr)
    requires hi == |ps| || !Hot(ps, hi, thr)
    ensures RunEnd(ps, lo, thr) == hi
    decreases hi - lo
  {
    if lo < hi {
      RunEndAt(ps, lo + 1, hi, thr);
    }
  }

  /** Every maximal run at or after `from` is among the run bounds. */
  lemma {:induction false} RunBoundsComplete(ps: seq<Pair>, from: int, lo: int, hi: int, thr: int)
    requires 0 <= from <= lo && MaximalRun(ps, lo, hi, thr)
    ensures (lo, hi) in RunBounds(ps, from, thr)
    decreases |ps| - from
  {
    if from == lo {
      RunEndAt(ps, lo, hi, thr);
    } else if !Hot(ps, from, thr) {
      RunBoundsComplete(ps, from + 1, lo, hi, thr);
    } else {
      var e := RunEnd(ps, from, thr);
      assert !Hot(ps, lo - 1, thr);
      RunBoundsComplete(ps, e, lo, hi, thr);
    }
  }

  /** The states are exactly the maximal hot runs: one per run, in input
      order, each from its run's pairs; no run is missed. */
  lemma FlowStatesAreRuns(ps: seq<Pair>, thr: int)
    ensures var b := RunBounds(ps, 0, thr);
      |FlowStates(ps, thr)| == |b| &&
      (forall k :: 0 <= k < |b| ==>
        MaximalRun(ps, b[k].0, b[k].1, thr) && FlowStates(ps, thr)[k] == StateOf(ps, b[k].0, b[k].1) &&
        (k + 1 < |b| ==> b[k].1 < b[k + 1].0)) &&
      (forall lo, hi :: MaximalRun(ps, lo, hi, thr) ==> (lo, hi) in b)
  {
    RunBoundsMaximal(ps, 0, thr);
    forall lo, hi | MaximalRun(ps, lo, hi, thr) ensures (lo, hi) in RunBounds(ps, 0, thr) {
      RunBoundsComplete(ps, 0, lo, hi, thr);
    }
  }

  // ---------------------------------------------------------------------------
  // Flow states: the loop

  /** The loop's update of `current_state` on a hot pair. */
  function Extend(cur: Option<FlowState>, p: Pair): FlowState {
    match cur
    case None => FlowState(p.0.timestamp, p.0.timestamp, p.1.title, p.0.count)
    case Some(st) => st.(endTime := p.0.timestamp, keystrokes := st.keystrokes + p.0.count)
  }

  function Emit(cur: Option<FlowState>): seq<FlowState> {
    if cur.Some? then [cur.value] else []
  }

  /** What the loop appends from pair `i` on, with `cur` open. */
  function FlowFrom(ps: seq<Pair>, i: int, cur: Option<FlowState>, thr: int): seq<FlowState>
    requires 0 <= i <= |ps|
    decreases |ps| - i
  {
    if i == |ps| then Emit(cur)
    else if Hot(ps, i, thr) then FlowFrom(ps, i + 1, Some(Extend(cur, ps[i])), thr)
    else Emit(cur) + FlowFrom(ps, i + 1, None, thr)
  }

  /** From a run boundary with nothing open, the loop yields the states of
      the runs ahead. */
  lemma {:induction false} FlowFromClosed(ps: seq<Pair>, i: int, thr: int)
    requires 0 <= i <= |ps|
    ensures FlowFrom(ps, i, None, thr) == StatesOf(ps, RunBounds(ps, i, thr))
    decreases |ps| - i, 0
  {
    if i < |ps| {
      if Hot(ps, i, thr) {
        assert SumCounts(ps, i, i + 1) == ps[i].0.count by {
          assert SumCounts(ps, i, i) == 0;
        }
        assert Extend(None, ps[i]) == StateOf(ps, i, i + 1);
        assert FlowFrom(ps, i, None, thr) == FlowFrom(ps, i + 1, Some(StateOf(ps, i, i + 1)), thr);
        FlowFromOpen(ps, i, i + 1, thr);
        var hi := RunEnd(ps, i, thr);
        assert RunEnd(ps, i + 1, thr) == hi;
        var rest := RunBounds(ps, hi, thr);
        assert RunBounds(ps, i, thr) == [(i, hi)] + rest;
        assert ([(i, hi)] + rest)[1..] == rest;
        assert StatesOf(ps, [(i, hi)] + rest) == [StateOf(ps, i, hi)] + StatesOf(ps, rest);
      } else {
        assert FlowFrom(ps, i, None, thr) == FlowFrom(ps, i + 1, None, thr);
        assert RunBounds(ps, i, thr) == RunBounds(ps, i + 1, thr);
        FlowFromClosed(ps, i + 1, thr);
      }
    }
  }

  /** With the run `[lo, i)` open, the loop finishes that run and then
      yields the states of the runs after it. */
  lemma {:induction false} FlowFromOpen(ps: seq<Pair>, lo: int, i: int, thr: int)
    requires 0 <= lo < i <= |ps|
    ensures FlowFrom(ps, i, Some(StateOf(ps, lo, i)), thr) ==
      [StateOf(ps, lo, RunEnd(ps, i, thr))] + StatesOf(ps, RunBounds(ps, RunEnd(ps, i, thr), thr))
    decreases |ps| - i, 1
  {
    if i == |ps| {
    } else if Hot(ps, i, thr) {
      assert Some(Extend(Some(StateOf(ps, lo, i)), ps[i])) == Some(StateOf(ps, lo, i + 1));
      FlowFromOpen(ps, lo, i + 1, thr);
    } else {
      FlowFromClosed(ps, i + 1, thr);
    }
  }

  /** The loop with nothing open at the start yields the reference states. */
  lemma FlowFromStart(ps: seq<Pair>, thr: int)
    ensures FlowFrom(ps, 0, None, thr) == FlowStates(ps, thr)
  {
    FlowFromClosed(ps, 0, thr);
  }

  /** calculate_flow_states (processing_engine.py:42-73) on the fetched rows. */
  method CalculateFlowStates(ks: seq<KeystrokeRow>, ws: seq<WindowRow>, thr: int) returns (states: seq<FlowState>)
    ensures states == FlowStates(Zip(ks, ws), thr)
  {
    ghost var ps := Zip(ks, ws);
    var n := if |ks| < |ws| then |ks| else |ws|;
    states := [];
    var current: Option<FlowState> := None;
    var i := 0;
    while i < n
      invariant 0 <= i <= n == |ps|
      invariant states + FlowFrom(ps, i, current, thr) == FlowFrom(ps, 0, None, thr)
    {
      var keystroke, window := ks[i], ws[i];
      assert ps[i] == (keystroke, window);
      if keystroke.count >= thr {
        if current.None? {
          current := Some(FlowState(keystroke.timestamp, keystroke.timestamp, window.title, keystroke.count));
        } else {
          current := Some(current.value.(endTime := keystroke.timestamp, keystrokes := current.value.keystrokes + keystroke.count));
        }
      } else {
        if current.Some? {
          states := states + [current.value];
          current := None;
        }
      }
      i := i + 1;
    }
    if current.Some? {
      states := states + [current.value];
    }
    FlowFromStart(ps, thr);
  }

  // ---------------------------------------------------------------------------
  // Per-key aggregation (a Python dict in insertion order)

  /** `d[key] = d.get(key, 0) + v` on a dict kept as its items in insertion order. */
  function AddTo<K(==)>(d: seq<(K, int)>, key: K, v: int): (r: seq<(K, int)>)
    ensures |r| == |d| || r == d + [(key, v)]
  {
    if d == [] then [(key, v)]
    else if d[0].0 == key then [(key, d[0].1 + v)] + d[1..]
    else [d[0]] + AddTo(d[1..], key, v)
  }

  /** `d.get(key, 0)`. */
  function Get<K(==)>(d: seq<(K, int)>, key: K): int {
    if d == [] then 0 else if d[0].0 == key then d[0].1 else Get(d[1..], key)
  }

  function Keys<K>(d: seq<(K, int)>): (r: seq<K>)
    ensures |r| == |d| && forall a :: 0 <= a < |d| ==> r[a] == d[a].0
  {
    if d == [] then [] else [d[0].0] + Keys(d[1..])
  }

  predicate Distinct<K(==)>(s: seq<K>) {
    forall a, b :: 0 <= a < b < |s| ==> s[a] != s[b]
  }

  /** The sum of a dict's values. */
  function Total<K>(d: seq<(K, int)>): int {
    if d == [] then 0 else d[0].1 + Total(d[1..])
  }

  /** The dict built from `(key, value)` items one at a time, in order. */
  function Aggregate<K(==)>(items: seq<(K, int)>): seq<(K, int)> {
    if items == [] then [] else AddTo(Aggregate(items[..|items| - 1]), items[|items| - 1].0, items[|items| - 1].1)
  }

  /** The sum of the values given for `key`. */
  function SumFor<K(==)>(items: seq<(K, int)>, key: K): int {
    if items == [] then 0
    else SumFor(items[..|items| - 1], key) + (if items[|items| - 1].0 == key then items[|items| - 1].1 else 0)
  }

  function SumAll<K>(items: seq<(K, int)>): int {
    if items == [] then 0 else SumAll(items[..|items| - 1]) + items[|items| - 1].1
  }

  /** Adding to a key changes that key's value by `v`, leaves the others,
      keeps the keys distinct (a new key goes last) and adds `v` to the total. */
  lemma {:induction false} AddToFacts<K>(d: seq<(K, int)>, key: K, v: int)
    requires Distinct(Keys(d))
    ensures Get(AddTo(d, key, v), key) == Get(d, key) + v
    ensures forall other :: other != key ==> Get(AddTo(d, key, v), other) == Get(d, other)
    ensures Keys(AddTo(d, key, v)) == if key in Keys(d) then Keys(d) else Keys(d) + [key]
    ensures Distinct(Keys(AddTo(d, key, v)))
    ensures Total(AddTo(d, key, v)) == Total(d) + v
  {
    if d == [] {
    } else {
      DistinctTail(d);
      var r := AddTo(d, key, v);
      assert Keys(d) == [d[0].0] + Keys(d[1..]);
      if d[0].0 == key {
        assert r[1..] == d[1..];
        GetAbsent(d[1..], key);
        assert Keys(r) == [key] + Keys(d[1..]);
      } else {
        AddToFacts(d[1..], key, v);
        var tail := AddTo(d[1..], key, v);
        assert r[1..] == tail;
        assert Keys(r) == [d[0].0] + Keys(tail);
        assert d[0].0 !in Keys(tail);
        DistinctCons(d[0].0, Keys(tail));
        if key in Keys(d[1..]) {
          assert key in Keys(d);
        } else {
          assert key !in Keys(d);
          assert Keys(r) == Keys(d) + [key];
        }
      }
    }
  }

  /** The tail of a dict with distinct keys has distinct keys, without the head's. */
  lemma DistinctTail<K>(d: seq<(K, int)>)
    requires d != [] && Distinct(Keys(d))
    ensures Distinct(Keys(d[1..])) && d[0].0 !in Keys(d[1..])
  {
  }

  lemma DistinctCons<K>(x: K, s: seq<K>)
    requires x !in s && Distinct(s)
    ensures Distinct([x] + s)
  {
    var t := [x] + s;
    forall a, b | 0 <= a < b < |t| ensures t[a] != t[b] {
      assert t[b] == s[b - 1];
      if a > 0 {
        assert t[a] == s[a - 1];
      }
    }
  }

  /** An absent key reads as 0. */
  lemma {:induction false} GetAbsent<K>(d: seq<(K, int)>, key: K)
    requires key !in Keys(d)
    ensures Get(d, key) == 0
  {
    if d != [] {
      assert Keys(d) == [d[0].0] + Keys(d[1..]);
      GetAbsent(d[1..], key);
    }
  }

  /** The aggregated dict has one entry per distinct key, in first-seen
      order; each key maps to the sum of its values, and the values add up
      to the sum of all the items. */
  lemma {:induction false} AggregateFacts<K>(items: seq<(K, int)>)
    ensures Distinct(Keys(Aggregate(items)))
    ensures forall key :: (key in Keys(Aggregate(items)) <==> exists k :: 0 <= k < |items| && items[k].0 == key)
    ensures forall key :: Get(Aggregate(items), key) == SumFor(items, key)
    ensures Total(Aggregate(items)) == SumAll(items)
  {
    if items != [] {
      var init := items[..|items| - 1];
      var last := items[|items| - 1];
      AggregateFacts(init);
      AddToFacts(Aggregate(init), last.0, last.1);
      forall key ensures (key in Keys(Aggregate(items)) <==> exists k :: 0 <= k < |items| && items[k].0 == key) {
        if key in Keys(Aggregate(items)) && key != last.0 {
          var k :| 0 <= k < |init| && init[k].0 == key;
          assert items[k] == init[k];
        }
        if exists k :: 0 <= k < |items| && items[k].0 == key {
          var k :| 0 <= k < |items| && items[k].0 == key;
          if k < |init| {
            assert init[k] == items[k];
          }
        }
      }
    }
  }

  /** aggregate_window_usage (processing_engine.py:75-86): total duration per
      window title. */
  method AggregateWindowUsage(rows: seq<WindowRow>) returns (usage: seq<(string, int)>)
    ensures usage == Aggregate(UsageItems(rows))
  {
    usage := [];
    var i := 0;
    while i < |rows|
      invariant 0 <= i <= |rows|
      invariant usage == Aggregate(UsageItems(rows[..i]))
    {
      assert rows[..i + 1][..i] == rows[..i];
      usage := AddTo(usage, rows[i].title, rows[i].duration);
      i := i + 1;
    }
    assert rows[..i] == rows;
  }

  function UsageItems(rows: seq<WindowRow>): (r: seq<(string, int)>)
    ensures |r| == |rows|
    ensures forall k :: 0 <= k < |rows| ==> r[k] == (rows[k].title, rows[k].duration)
  {
    if rows == [] then [] else UsageItems(rows[..|rows| - 1]) + [(rows[|rows| - 1].title, rows[|rows| - 1].duration)]
  }

  function TotalDuration(rows: seq<WindowRow>): int {
    if rows == [] then 0 else TotalDuration(rows[..|rows| - 1]) + rows[|rows| - 1].duration
  }

  /** Window usage lists each title once, maps it to its summed duration,
      and the durations add up to the total. */
  lemma {:induction false} WindowUsageSums(rows: seq<WindowRow>)
    ensures var u := Aggregate(UsageItems(rows));
      Distinct(Keys(u)) &&
      (forall title :: title in Keys(u) <==> exists k :: 0 <= k < |rows| && rows[k].title == title) &&
      Total(u) == TotalDuration(rows)
  {
    AggregateFacts(UsageItems(rows));
    SumAllUsage(rows);
  }

  lemma {:induction false} SumAllUsage(rows: seq<WindowRow>)
    ensures SumAll(UsageItems(rows)) == TotalDuration(rows)
  {
    if rows != [] {
      var init := rows[..|rows| - 1];
      SumAllUsage(init);
      assert UsageItems(rows)[..|rows| - 1] == UsageItems(init);
    }
  }

  // ---------------------------------------------------------------------------
  // Keystroke aggregation

  /** The text of `s` before the first `c`, all of `s` when there is none:
      `s.split(c)[0]`. */
  function Before(s: string, c: char): (r: string)
    ensures c !in r
    ensures |r| <= |s| && r == s[..|r|]
    ensures |r| < |s| ==> s[|r|] == c
  {
    if s == [] || s[0] == c then [] else [s[0]] + Before(s[1..], c)
  }

  /** `timestamp.split(" ")[1].split(":")[0]` (processing_engine.py:98): the
      text after the first space up to the next space or colon. A timestamp
      without a space raises IndexError. */
  function HourKey(timestamp: string): (r: Result<string>)
    ensures r.Err? <==> ' ' !in timestamp
    ensures r.Err? ==> r.error == MissingHourField
    ensures r.Ok? ==> ' ' !in r.value && ':' !in r.value
  {
    match SplitFirstSpace(timestamp)
    case None => Err(MissingHourField)
    case Some(parts) => Ok(Before(Before(parts.1, ' '), ':'))
  }

  datatype KeystrokeSummary = KeystrokeSummary(total: int, hourly: seq<(string, int)>)

  /** The hourly items of the rows, or the first row's failure. */
  function HourItems(rows: seq<KeystrokeRow>): (r: Result<seq<(string, int)>>)
    ensures r.Err? ==> r.error == MissingHourField
    ensures r.Ok? ==> |r.value| == |rows|
  {
    if rows == [] then Ok([])
    else
      var init := rows[..|rows| - 1];
      var last := rows[|rows| - 1];
      match HourItems(init)
      case Err(e) => Err(e)
      case Ok(items) =>
        match HourKey(last.timestamp)
        case Err(e) => Err(e)
        case Ok(hour) => Ok(items + [(hour, last.count)])
  }

  /** The items fail exactly when some timestamp has no space. */
  lemma {:induction false} HourItemsFail(rows: seq<KeystrokeRow>)
    ensures HourItems(rows).Err? <==> exists k :: 0 <= k < |rows| && ' ' !in rows[k].timestamp
  {
    if rows != [] {
      var init := rows[..|rows| - 1];
      var last := rows[|rows| - 1];
      HourItemsFail(init);
      if HourItems(init).Err? {
        var k :| 0 <= k < |init| && ' ' !in init[k].timestamp;
        assert rows[k] == init[k];
      } else if HourKey(last.timestamp).Err? {
        assert ' ' !in rows[|rows| - 1].timestamp;
      } else {
        forall k | 0 <= k < |rows| ensures ' ' in rows[k].timestamp {
          if k < |init| {
            assert rows[k] == init[k];
          }
        }
      }
    }
  }

  /** Otherwise they pair each row's hour key with its count, in row order. */
  lemma {:induction false} HourItemsValues(rows: seq<KeystrokeRow>)
    ensures HourItems(rows).Ok? ==>
      forall k :: 0 <= k < |rows| ==>
        HourKey(rows[k].timestamp).Ok? && HourItems(rows).value[k] == (HourKey(rows[k].timestamp).value, rows[k].count)
  {
    if rows != [] && HourItems(rows).Ok? {
      var init := rows[..|rows| - 1];
      var last := rows[|rows| - 1];
      HourItemsValues(init);
      var items := HourItems(init).value;
      var v := HourItems(rows).value;
      assert v == items + [(HourKey(last.timestamp).value, last.count)];
      forall k | 0 <= k < |rows|
        ensures HourKey(rows[k].timestamp).Ok? && v[k] == (HourKey(rows[k].timestamp).value, rows[k].count)
      {
        if k < |init| {
          assert v[k] == items[k] && rows[k] == init[k];
        }
      }
    }
  }

  /** One more row on a prefix whose items are all there. */
  lemma HourItemsPrefix(rows: seq<KeystrokeRow>, i: int)
    requires 0 <= i < |rows| && HourItems(rows[..i]).Ok?
    ensures HourKey(rows[i].timestamp).Ok? ==>
      HourItems(rows[..i + 1]) == Ok(HourItems(rows[..i]).value + [(HourKey(rows[i].timestamp).value, rows[i].count)])
  {
    assert rows[..i + 1][..i] == rows[..i];
  }

  function TotalKeystrokes(rows: seq<KeystrokeRow>): int {
    if rows == [] then 0 else TotalKeystrokes(rows[..|rows| - 1]) + rows[|rows| - 1].count
  }

  /** What aggregate_keystrokes returns, or the error it raises. */
  function KeystrokeAggregate(rows: seq<KeystrokeRow>): Result<KeystrokeSummary> {
    match HourItems(rows)
    case Err(e) => Err(e)
    case Ok(items) => Ok(KeystrokeSummary(TotalKeystrokes(rows), Aggregate(items)))
  }

  /** aggregate_keystrokes (processing_engine.py:88-104). */
  method AggregateKeystrokes(rows: seq<KeystrokeRow>) returns (r: Result<KeystrokeSummary>)
    ensures r == KeystrokeAggregate(rows)
  {
    var total := 0;
    var hourly: seq<(string, int)> := [];
    var i := 0;
    while i < |rows|
      invariant 0 <= i <= |rows|
      invariant HourItems(rows[..i]).Ok?
      invariant total == TotalKeystrokes(rows[..i]) && hourly == Aggregate(HourItems(rows[..i]).value)
    {
      assert rows[..i + 1][..i] == rows[..i];
      total := total + rows[i].count;
      var hour := HourKey(rows[i].timestamp);
      if hour.Err? {
        assert KeystrokeAggregate(rows).Err? by {
          HourItemsFail(rows);
          assert ' ' !in rows[i].timestamp;
        }
        return Err(hour.error);
      }
      HourItemsPrefix(rows, i);
      hourly := AddTo(hourly, hour.value, rows[i].count);
      i := i + 1;
    }
    assert rows[..i] == rows;
    r := Ok(KeystrokeSummary(total, hourly));
  }

  /** The total is the sum of the counts, the hourly values add up to it,
      and each hour appears once; it fails exactly when some timestamp has
      no space. */
  lemma {:induction false} KeystrokeTotals(rows: seq<KeystrokeRow>)
    ensures KeystrokeAggregate(rows).Err? <==> exists k :: 0 <= k < |rows| && ' ' !in rows[k].timestamp
    ensures KeystrokeAggregate(rows).Ok? ==>
      var s := KeystrokeAggregate(rows).value;
      s.total == TotalKeystrokes(rows) && Total(s.hourly) == s.total && Distinct(Keys(s.hourly))
  {
    HourItemsFail(rows);
    if HourItems(rows).Ok? {
      AggregateFacts(HourItems(rows).value);
      SumAllHours(rows);
    }
  }

  lemma {:induction false} SumAllHours(rows: seq<KeystrokeRow>)
    requires HourItems(rows).Ok?
    ensures SumAll(HourItems(rows).value) == TotalKeystrokes(rows)
  {
    if rows != [] {
      var init := rows[..|rows| - 1];
      SumAllHours(init);
      assert HourItems(rows).value[..|init|] == HourItems(init).value;
    }
  }

  /** The hour key of a `"YYYY-MM-DD HH:MM:SS"` timestamp is its `HH`. */
  lemma HourOfDateTime(date: string, hh: string, rest: string)
    requires ' ' !in date && ' ' !in hh && ':' !in hh
    ensures HourKey(date + " " + hh + ":" + rest) == Ok(hh)
  {
    var tail := hh + (":" + rest);
    assert date + " " + hh + ":" + rest == date + " " + tail;
    SplitJoin(date, tail);
    HourField(hh, rest);
  }

  /** The hour field of `HH:rest` is `HH`. */
  lemma HourField(hh: string, rest: string)
    requires ' ' !in hh && ':' !in hh
    ensures Before(Before(hh + (":" + rest), ' '), ':') == hh
  {
    BeforeOf(hh, ' ', ":" + rest);
    assert (":" + rest)[1..] == rest;
    assert Before(":" + rest, ' ') == ":" + Before(rest, ' ');
    BeforeOf(hh, ':', ":" + Before(rest, ' '));
  }

  /** `Before` on text without `c` followed by a tail stops where the tail
      does. */
  lemma {:induction false} BeforeOf(s: string, c: char, tail: string)
    requires c !in s
    ensures Before(s + tail, c) == s + Before(tail, c)
  {
    if s != [] {
      assert (s + tail)[1..] == s[1..] + tail;
      BeforeOf(s[1..], c, tail);
    } else {
      assert s + tail == tail;
    }
  }

  // ---------------------------------------------------------------------------
  // Reports

  /** The day-report and overview dicts. */
  datatype Report = Report(dates: seq<string>, windowUsage: seq<(string, int)>, keystrokes: Result<KeystrokeSummary>)

  /** What a report says about the rows it was built from: each window title
      once, with the sum of its durations, the durations adding up to the
      rows' total; the keystroke summary an error exactly when some timestamp
      has no space, and otherwise the sum of the counts, split over distinct
      hours. */
  ghost predicate Summarises(r: Report, ws: seq<WindowRow>, ks: seq<KeystrokeRow>) {
    Distinct(Keys(r.windowUsage)) &&
    (forall title :: title in Keys(r.windowUsage) <==> exists k :: 0 <= k < |ws| && ws[k].title == title) &&
    (forall title :: Get(r.windowUsage, title) == SumFor(UsageItems(ws), title)) &&
    Total(r.windowUsage) == TotalDuration(ws) &&
    (r.keystrokes.Err? <==> exists k :: 0 <= k < |ks| && ' ' !in ks[k].timestamp) &&
    (r.keystrokes.Ok? ==>
      r.keystrokes.value.total == TotalKeystrokes(ks) && Total(r.keystrokes.value.hourly) == TotalKeystrokes(ks) &&
      Distinct(Keys(r.keystrokes.value.hourly)))
  }

  /** generate_overview (processing_engine.py:119-131) with the rows the two
      fetches return for a date range. */
  function GenerateOverview(start: string, end: string, fetchWindows: (string, string) -> seq<WindowRow>,
                            fetchKeys: (string, string) -> seq<KeystrokeRow>): (r: Report)
    ensures r.dates == [start, end]
    ensures Summarises(r, fetchWindows(start, end), fetchKeys(start, end))
  {
    var ws := fetchWindows(start, end);
    var ks := fetchKeys(start, end);
    WindowUsageSums(ws);
    AggregateFacts(UsageItems(ws));
    KeystrokeTotals(ks);
    Report([start, end], Aggregate(UsageItems(ws)), KeystrokeAggregate(ks))
  }

  /** generate_daily_breakdown (processing_engine.py:106-117). */
  function GenerateDailyBreakdown(date: string, fetchWindows: (string, string) -> seq<WindowRow>,
                                  fetchKeys: (string, string) -> seq<KeystrokeRow>): (r: Report)
    ensures r.dates == [date]
    ensures Summarises(r, fetchWindows(date, date), fetchKeys(date, date))
  {
    var ws := fetchWindows(date, date);
    var ks := fetchKeys(date, date);
    WindowUsageSums(ws);
    AggregateFacts(UsageItems(ws));
    KeystrokeTotals(ks);
    Report([date], Aggregate(UsageItems(ws)), KeystrokeAggregate(ks))
  }

  /** A day's breakdown is the overview of the range from that day to itself. */
  lemma DailyIsOneDayOverview(date: string, fetchWindows: (string, string) -> seq<WindowRow>,
                              fetchKeys: (string, string) -> seq<KeystrokeRow>)
    ensures GenerateDailyBreakdown(date, fetchWindows, fetchKeys).windowUsage ==
      GenerateOverview(date, date, fetchWindows, fetchKeys).windowUsage
    ensures GenerateDailyBreakdown(date, fetchWindows, fetchKeys).keystrokes ==
      GenerateOverview(date, date, fetchWindows, fetchKeys).keystrokes
  {
  }
}
