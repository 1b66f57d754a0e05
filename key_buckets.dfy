/** data.py: process_key_events, which counts the key-event lines of a log per
    fixed interval and lists the non-empty intervals in ascending order. The
    input file is its content; writing the output file becomes the returned
    list of `(interval_start, count)` lines. */
module KeyBuckets {
  import opened Wrappers
  import opened Seqs
  import opened Text
  import opened Sorting

  /** Python's `a // b`, which rounds toward negative infinity. */
  function FloorDiv(a: int, b: int): (q: int)
    requires b != 0
    ensures b > 0 ==> q * b <= a < q * b + b
    ensures b < 0 ==> q * b + b < a <= q * b
  {
    if b > 0 then
      assert a / b * b + a % b == a;
      a / b
    else
      var q := (-a) / (-b);
      assert q * (-b) + (-a) % (-b) == -a;
      assert q * (-b) == -(q * b);
      q
  }

  /** `(timestamp // interval) * interval` (data.py:33). */
  function IntervalStart(t: int, interval: int): int
    requires interval != 0
  {
    FloorDiv(t, interval) * interval
  }

  /** The interval start is a multiple of the interval with the timestamp in
      its interval: `[start, start + interval)` for a positive interval,
      `(start + interval, start]` for a negative one. */
  lemma BucketBounds(t: int, interval: int)
    requires interval != 0
    ensures exists q :: IntervalStart(t, interval) == q * interval
    ensures interval > 0 ==> IntervalStart(t, interval) <= t < IntervalStart(t, interval) + interval
    ensures interval < 0 ==> IntervalStart(t, interval) + interval < t <= IntervalStart(t, interval)
  {
    var q := FloorDiv(t, interval);
    if interval > 0 {
      assert q * interval + t % interval == t;
    } else {
      var b := -interval;
      assert (-t) / b * b + (-t) % b == -t;
      assert q * interval == -((-t) / b * b);
    }
  }

  /** The timestamp a line contributes: `timestamp, _ = line.split(" ", 1)`
      then `int(timestamp)`; either raising ValueError skips the line. */
  function LineStamp(line: string): Option<int> {
    match SplitFirstSpace(line)
    case None => None
    case Some(parts) => ParseInt(parts.0)
  }

  function StampReader(): string -> Option<int> {
    line => LineStamp(line)
  }

  /** The timestamps of the accepted lines, in file order. */
  function AcceptedStamps(lines: seq<string>): (r: seq<int>)
    ensures |r| <= |lines|
  {
    FilterMap(lines, StampReader())
  }

  /** `interval_counts` as a multiset of interval starts. */
  function Buckets(stamps: seq<int>, interval: int): (m: multiset<int>)
    requires interval != 0 || stamps == []
  {
    if stamps == [] then multiset{}
    else Buckets(stamps[..|stamps| - 1], interval) + multiset{IntervalStart(stamps[|stamps| - 1], interval)}
  }

  /** One line per interval start in `starts`, with its count in `m`. */
  function ReportOf(starts: seq<int>, m: multiset<int>): (r: seq<(int, int)>)
    ensures |r| == |starts|
    ensures forall k :: 0 <= k < |starts| ==> r[k] == (starts[k], m[starts[k]])
  {
    if starts == [] then [] else [(starts[0], m[starts[0]])] + ReportOf(starts[1..], m)
  }

  /** The output lines: each non-empty interval once, ascending, with its count. */
  function Report(m: multiset<int>): seq<(int, int)> {
    ReportOf(SortedElements(set s | s in m), m)
  }

  /** What process_key_events does with a file: ZeroDivisionError when the
      interval is 0 and some line is accepted, else the output lines. */
  function ProcessedKeyEvents(content: string, interval: int): Result<seq<(int, int)>> {
    var stamps := AcceptedStamps(Lines(content));
    if interval == 0 && stamps != [] then Err(ZeroDivision)
    else Ok(Report(Buckets(stamps, interval)))
  }

  lemma AcceptedPrefix(lines: seq<string>, i: int)
    requires 0 <= i < |lines|
    ensures AcceptedStamps(lines[..i + 1]) ==
      AcceptedStamps(lines[..i]) + (if LineStamp(lines[i]).Some? then [LineStamp(lines[i]).value] else [])
  {
    assert lines[..i + 1][..i] == lines[..i];
  }

  lemma BucketsSnoc(stamps: seq<int>, t: int, interval: int)
    requires interval != 0
    ensures Buckets(stamps + [t], interval) == Buckets(stamps, interval) + multiset{IntervalStart(t, interval)}
  {
    assert (stamps + [t])[..|stamps|] == stamps;
  }

  /** `counts` holds, for each interval start, how often it occurs in `bag`. */
  ghost predicate Tallies(counts: map<int, int>, bag: multiset<int>) {
    (forall s :: s in counts <==> s in bag) && (forall s :: s in counts ==> counts[s] == bag[s])
  }

  /** `interval_counts[start] += 1` on a defaultdict adds `start` once. */
  lemma TallyOne(counts: map<int, int>, bag: multiset<int>, start: int)
    requires Tallies(counts, bag)
    ensures Tallies(counts[start := (if start in counts then counts[start] else 0) + 1], bag + multiset{start})
  {
  }

  /** The counting loop of process_key_events (data.py:26-38): `failed` when
      `//` divides by zero, else `interval_counts`. */
  method CountIntervals(lines: seq<string>, interval: int) returns (counts: map<int, int>, failed: bool)
    ensures failed <==> interval == 0 && AcceptedStamps(lines) != []
    ensures !failed ==> Tallies(counts, Buckets(AcceptedStamps(lines), interval))
  {
    counts := map[];
    failed := false;
    var i := 0;
    while i < |lines|
      invariant 0 <= i <= |lines|
      invariant AcceptedStamps(lines[..i]) == [] || interval != 0
      invariant Tallies(counts, Buckets(AcceptedStamps(lines[..i]), interval))
    {
      var next, fails := CountLine(lines, i, interval, counts);
      if fails {
        StampedLineAccepted(lines, i);
        return counts, true;
      }
      counts := next;
      i := i + 1;
    }
    assert lines[..i] == lines;
  }

  /** One pass of the counting loop (data.py:27-38) over line `i`; it fails
      where `//` would divide by zero. */
  method CountLine(lines: seq<string>, i: int, interval: int, counts: map<int, int>)
    returns (next: map<int, int>, failed: bool)
    requires 0 <= i < |lines|
    requires AcceptedStamps(lines[..i]) == [] || interval != 0
    requires Tallies(counts, Buckets(AcceptedStamps(lines[..i]), interval))
    ensures failed <==> interval == 0 && LineStamp(lines[i]).Some?
    ensures !failed ==> AcceptedStamps(lines[..i + 1]) == [] || interval != 0
    ensures !failed ==> Tallies(next, Buckets(AcceptedStamps(lines[..i + 1]), interval))
  {
    AcceptedPrefix(lines, i);
    ghost var before := AcceptedStamps(lines[..i]);
    next, failed := counts, false;
    var stamp := LineStamp(lines[i]);
    if stamp.None? {
      assert before + [] == before;
    } else if interval == 0 {
      failed := true;
    } else {
      BucketsSnoc(before, stamp.value, interval);
      var start := FloorDiv(stamp.value, interval) * interval;
      assert start == IntervalStart(stamp.value, interval);
      TallyOne(counts, Buckets(before, interval), start);
      next := counts[start := (if start in counts then counts[start] else 0) + 1];
    }
  }

  /** A line with a timestamp makes the accepted stamps non-empty. */
  lemma StampedLineAccepted(lines: seq<string>, i: int)
    requires 0 <= i < |lines| && LineStamp(lines[i]).Some?
    ensures AcceptedStamps(lines) != []
  {
    AcceptedPrefix(lines, i);
    assert lines == lines[..i + 1] + lines[i + 1..];
    FilterMapAppend(lines[..i + 1], lines[i + 1..], StampReader());
  }

  /** process_key_events (data.py:9-45). */
  method ProcessKeyEvents(content: string, interval: int) returns (r: Result<seq<(int, int)>>)
    ensures r == ProcessedKeyEvents(content, interval)
  {
    var lines := Lines(content);
    var counts, failed := CountIntervals(lines, interval);
    if failed {
      return Err(ZeroDivision);
    }
    ghost var m := Buckets(AcceptedStamps(lines), interval);
    TalliesKeys(counts, m);
    var starts := SortedElements(counts.Keys);
    var out := ListReport(starts, counts, m);
    r := Ok(out);
  }

  lemma TalliesKeys(counts: map<int, int>, bag: multiset<int>)
    requires Tallies(counts, bag)
    ensures counts.Keys == set s | s in bag
    ensures forall s :: s in counts ==> counts[s] == bag[s]
  {
    forall x ensures x in counts.Keys <==> x in bag {
    }
  }

  /** The output loop of process_key_events (data.py:42-45): one line per
      start, in the order given. */
  method ListReport(starts: seq<int>, counts: map<int, int>, ghost m: multiset<int>) returns (out: seq<(int, int)>)
    requires forall k :: 0 <= k < |starts| ==> starts[k] in counts && counts[starts[k]] == m[starts[k]]
    ensures out == ReportOf(starts, m)
  {
    out := [];
    var j := 0;
    while j < |starts|
      invariant 0 <= j <= |starts|
      invariant |out| == j
      invariant forall k :: 0 <= k < j ==> out[k] == (starts[k], m[starts[k]])
    {
      out := out + [(starts[j], counts[starts[j]])];
      j := j + 1;
    }
  }

  /** The output lists each non-empty interval once, in ascending order, with
      its number of accepted lines. */
  lemma ReportShape(m: multiset<int>)
    ensures var r := Report(m);
      (forall a, b :: 0 <= a < b < |r| ==> r[a].0 < r[b].0) &&
      (forall k :: 0 <= k < |r| ==> r[k].1 == m[r[k].0] && r[k].1 >= 1) &&
      (forall s :: s in m <==> exists k :: 0 <= k < |r| && r[k].0 == s)
  {
    var present := set s | s in m;
    var starts := SortedElements(present);
    var r := Report(m);
    assert r == ReportOf(starts, m);
    forall a, b | 0 <= a < b < |r| ensures r[a].0 < r[b].0 {
      assert r[a].0 == starts[a] && r[b].0 == starts[b];
    }
    forall k | 0 <= k < |r| ensures r[k].1 == m[r[k].0] && r[k].1 >= 1 {
      assert r[k] == (starts[k], m[starts[k]]);
      assert starts[k] in present;
    }
    forall s ensures s in m <==> exists k :: 0 <= k < |r| && r[k].0 == s {
      if s in m {
        assert s in starts;
        var k :| 0 <= k < |starts| && starts[k] == s;
        assert r[k].0 == s;
      }
      if exists k :: 0 <= k < |r| && r[k].0 == s {
        var k :| 0 <= k < |r| && r[k].0 == s;
        assert starts[k] in starts;
      }
    }
  }

  /** Each accepted line adds exactly one to its own interval; a skipped line
      changes nothing. */
  lemma OneLineMore(lines: seq<string>, line: string, interval: int)
    requires interval != 0
    ensures LineStamp(line).Some? ==>
      Buckets(AcceptedStamps(lines + [line]), interval) ==
        Buckets(AcceptedStamps(lines), interval) + multiset{IntervalStart(LineStamp(line).value, interval)}
    ensures LineStamp(line).None? ==>
      Buckets(AcceptedStamps(lines + [line]), interval) == Buckets(AcceptedStamps(lines), interval)
  {
    assert (lines + [line])[..|lines|] == lines;
    var s := AcceptedStamps(lines);
    if LineStamp(line).Some? {
      assert AcceptedStamps(lines + [line]) == s + [LineStamp(line).value];
      BucketsSnoc(s, LineStamp(line).value, interval);
    } else {
      assert AcceptedStamps(lines + [line]) == s + [];
      assert s + [] == s;
    }
  }

  /** The counts in the output add up to the number of accepted lines. */
  lemma ReportSum(lines: seq<string>, interval: int)
    requires interval != 0
    ensures CountSum(Report(Buckets(AcceptedStamps(lines), interval))) == |AcceptedStamps(lines)|
  {
    var stamps := AcceptedStamps(lines);
    var m := Buckets(stamps, interval);
    BucketsSize(stamps, interval);
    var starts := SortedElements(set s | s in m);
    SumDistinct(starts, m);
    ReportCountSum(starts, m);
  }

  function CountSum(r: seq<(int, int)>): int {
    if r == [] then 0 else r[0].1 + CountSum(r[1..])
  }

  function BagSum(keys: seq<int>, m: multiset<int>): int {
    if keys == [] then 0 else m[keys[0]] + BagSum(keys[1..], m)
  }

  lemma {:induction false} BucketsSize(stamps: seq<int>, interval: int)
    requires interval != 0
    ensures |Buckets(stamps, interval)| == |stamps|
  {
    if stamps != [] {
      BucketsSize(stamps[..|stamps| - 1], interval);
    }
  }

  /** Summing a multiset's counts over a list of its distinct elements, all of
      them, gives its size. */
  lemma {:induction false} SumDistinct(keys: seq<int>, m: multiset<int>)
    requires StrictlyIncreasing(keys)
    requires forall x :: x in keys <==> x in m
    ensures BagSum(keys, m) == |m|
  {
    if keys == [] {
      forall y ensures m[y] == 0 {
        assert y !in keys;
      }
      assert m == multiset{};
    } else {
      var x := keys[0];
      var rest := m[x := 0];
      assert m == rest + multiset{}[x := m[x]] by {
        forall y ensures m[y] == (rest + multiset{}[x := m[x]])[y] {
          if y == x {
            assert rest[y] == 0;
          }
        }
      }
      assert |m| == |rest| + m[x];
      assert StrictlyIncreasing(keys[1..]) by {
        forall a, b | 0 <= a < b < |keys[1..]| ensures keys[1..][a] < keys[1..][b] {
          assert keys[1..][a] == keys[a + 1] && keys[1..][b] == keys[b + 1];
        }
      }
      forall y ensures y in keys[1..] <==> y in rest {
        if y in keys[1..] {
          var k :| 0 <= k < |keys[1..]| && keys[1..][k] == y;
          assert keys[k + 1] == y && keys[0] < keys[k + 1];
          assert y in keys;
        }
        if y in rest {
          assert y != x && y in m;
          assert y in keys;
          var k :| 0 <= k < |keys| && keys[k] == y;
          assert k != 0;
          assert keys[1..][k - 1] == y;
        }
      }
      SumDistinct(keys[1..], rest);
      BagSumOther(keys[1..], m, x);
    }
  }

  /** Entries other than `x` read the same with `x`'s count cleared. */
  lemma {:induction false} BagSumOther(keys: seq<int>, m: multiset<int>, x: int)
    requires x !in keys
    ensures BagSum(keys, m[x := 0]) == BagSum(keys, m)
  {
    if keys != [] {
      assert keys[0] != x;
      BagSumOther(keys[1..], m, x);
    }
  }

  lemma {:induction false} ReportCountSum(keys: seq<int>, m: multiset<int>)
    ensures CountSum(ReportOf(keys, m)) == BagSum(keys, m)
  {
    if keys != [] {
      ReportCountSum(keys[1..], m);
      assert ReportOf(keys, m)[1..] == ReportOf(keys[1..], m);
    }
  }

  /** Only the text before the first space is read: the value is ignored. */
  lemma ValueIgnored(stamp: string, v1: string, v2: string)
    requires ' ' !in stamp
    ensures LineStamp(stamp + " " + v1) == LineStamp(stamp + " " + v2) == ParseInt(stamp)
  {
    SplitJoin(stamp, v1);
    SplitJoin(stamp, v2);
  }

  /** A line without a space, or whose first field is not an integer, is skipped. */
  lemma MalformedSkipped(line: string)
    ensures LineStamp(line).None? <==> ' ' !in line || ParseInt(SplitFirstSpace(line).value.0).None?
  {
  }
}
