/** The window events both browser pages work on, once exported: `t`, `s`,
    the mapped title `m` and the duration `dt` that `statEvents` fills in
    (prolific_deployment/render/day_app.js:652-671, render/overview_app.js:154-172),
    with the per-title totals and the first-seen title list built alongside. */
module WindowEvents {

  datatype WinEvent = WinEvent(t: int, s: string, m: string, dt: int)

  /** The `dt` statEvents gives event `i`: the time until the next event, or
      one second for the last. */
  function Duration(es: seq<WinEvent>, i: int): int
    requires 0 <= i < |es|
  {
    if i < |es| - 1 then es[i + 1].t - es[i].t else 1
  }

  /** statEvents' `dt` pass: only the durations change; each event lasts
      until the next one starts, and the last one second. */
  function WithDurations(es: seq<WinEvent>): (r: seq<WinEvent>)
    ensures |r| == |es|
    ensures forall i :: 0 <= i < |es| ==> r[i].(dt := es[i].dt) == es[i]
    ensures forall i :: 0 <= i < |es| - 1 ==> r[i].t + r[i].dt == r[i + 1].t
    ensures es != [] ==> r[|es| - 1].dt == 1
  {
    seq(|es|, i requires 0 <= i < |es| => es[i].(dt := Duration(es, i)))
  }

  function SumDt(es: seq<WinEvent>): int {
    if es == [] then 0 else SumDt(es[..|es| - 1]) + es[|es| - 1].dt
  }

  lemma {:induction false} PrefixDurations(es: seq<WinEvent>, k: int)
    requires 0 <= k < |es|
    ensures SumDt(WithDurations(es)[..k]) == es[k].t - es[0].t
  {
    if k > 0 {
      var w := WithDurations(es);
      PrefixDurations(es, k - 1);
      assert w[..k][..k - 1] == w[..k - 1];
    }
  }

  /** The durations tile the events: they add up to the span from the first
      event to the last plus the last one's second. */
  lemma DurationsTile(es: seq<WinEvent>)
    requires es != []
    ensures SumDt(WithDurations(es)) == es[|es| - 1].t - es[0].t + 1
  {
    var w := WithDurations(es);
    PrefixDurations(es, |es| - 1);
    assert w[..|w| - 1] == w[..|es| - 1];
  }

  /** The events once statEvents has given the first `k` their durations. */
  function StampedTo(es: seq<WinEvent>, k: int): seq<WinEvent> {
    seq(|es|, j requires 0 <= j < |es| => if j < k && j + 1 < |es| then es[j].(dt := es[j + 1].t - es[j].t) else es[j])
  }

  lemma StampStep(es: seq<WinEvent>, k: int)
    requires 0 <= k < |es| - 1
    ensures StampedTo(es, k)[k := es[k].(dt := es[k + 1].t - es[k].t)] == StampedTo(es, k + 1)
  {
  }

  /** Once all but the last have their durations, setting the last to one
      second gives WithDurations. */
  lemma StampedLast(es: seq<WinEvent>)
    requires |es| > 0
    ensures StampedTo(es, |es| - 1)[|es| - 1 := es[|es| - 1].(dt := 1)] == WithDurations(es)
  {
  }

  /** Stamps the event before `i` with the time until event `i` as its `dt`,
      and returns that duration and the earlier event's title. Both versions
      of statEvents open their loop this way
      (prolific_deployment/render/day_app.js:657-660,
      render/overview_app.js:159-162). */
  method StampPrevious(es: array<WinEvent>, i: int, ghost e0: seq<WinEvent>) returns (dt: int, tmap: string)
    requires 1 <= i < es.Length == |e0|
    requires es[..] == StampedTo(e0, i - 1)
    modifies es
    ensures es[..] == StampedTo(e0, i)
    ensures dt == e0[i].t - e0[i - 1].t && tmap == e0[i - 1].m
  {
    assert es[i] == e0[i] && es[i - 1] == e0[i - 1];
    StampStep(e0, i - 1);
    var ixprev := i - 1;
    dt := es[i].t - es[ixprev].t;
    es[ixprev] := es[ixprev].(dt := dt);
    tmap := es[ixprev].m;
  }

  /** Events in time order get no negative duration. */
  lemma OrderedDurations(es: seq<WinEvent>)
    requires forall i :: 0 < i < |es| ==> es[i - 1].t <= es[i].t
    ensures forall i :: 0 <= i < |es| ==> WithDurations(es)[i].dt >= 0
  {
  }

  /** Running statEvents twice changes nothing more. */
  lemma DurationsIdempotent(es: seq<WinEvent>)
    ensures WithDurations(WithDurations(es)) == WithDurations(es)
  {
    var w := WithDurations(es);
    assert forall i :: 0 <= i < |w| ==> WithDurations(w)[i] == w[i];
  }

  // ---------------------------------------------------------------------------
  // Per-title totals

  function Lookup(c: map<string, int>, m: string): int {
    if m in c then c[m] else 0
  }

  /** The totals after crediting the events before event `k`: every one
      of them but the last adds the time until the next event to its title. */
  function CreditTo(c: map<string, int>, es: seq<WinEvent>, k: int): map<string, int>
    requires 0 <= k <= |es|
  {
    if k < 2 then c
    else
      var p := CreditTo(c, es, k - 1);
      var m := es[k - 2].m;
      p[m := Lookup(p, m) + (es[k - 1].t - es[k - 2].t)]
  }

  /** The time credited to each mapped title by all of `es`: each title's
      total grows by exactly the time spent in it, and the titles with a total
      are those already there and those of the events credited. */
  function Credit(c: map<string, int>, es: seq<WinEvent>): (r: map<string, int>)
    ensures forall m :: m in r <==> m in c || m in NonFinalTitles(es)
    ensures forall m :: Lookup(r, m) == Lookup(c, m) + TimeIn(es, m)
  {
    CreditToTotals(c, es, |es|);
    assert es[..|es|] == es;
    CreditTo(c, es, |es|)
  }

  /** The totals as the pages compute them: the first event of a title sets
      its total to 0 instead of to that event's duration
      (render/overview_app.js:164-168, prolific_deployment/render/day_app.js:662-666). */
  function CreditAsWrittenTo(c: map<string, int>, es: seq<WinEvent>, k: int): map<string, int>
    requires 0 <= k <= |es|
  {
    if k < 2 then c
    else
      var p := CreditAsWrittenTo(c, es, k - 1);
      var m := es[k - 2].m;
      p[m := if m in p then p[m] + (es[k - 1].t - es[k - 2].t) else 0]
  }

  /** The pages' totals have the same titles as the corrected ones, and agree
      with them on every title that already had a total. */
  function CreditAsWritten(c: map<string, int>, es: seq<WinEvent>): (r: map<string, int>)
    ensures forall m :: m in r <==> m in c || m in NonFinalTitles(es)
    ensures forall m :: m in c ==> r[m] == c[m] + TimeIn(es, m)
  {
    CreditAsWrittenToFacts(c, es, |es|);
    assert es[..|es|] == es;
    CreditAsWrittenTo(c, es, |es|)
  }

  /** The time spent in title `m`, counted from the first event onwards. */
  function TimeIn(es: seq<WinEvent>, m: string): int {
    if |es| < 2 then 0
    else (if es[0].m == m then es[1].t - es[0].t else 0) + TimeIn(es[1..], m)
  }

  /** The titles of every event but the last, in order. */
  function NonFinalTitles(es: seq<WinEvent>): (r: seq<string>)
    ensures |es| > 0 ==> |r| == |es| - 1
  {
    if es == [] then [] else seq(|es| - 1, i requires 0 <= i < |es| - 1 => es[i].m)
  }

  lemma NonFinalSnoc(es: seq<WinEvent>)
    requires |es| >= 2
    ensures NonFinalTitles(es) == NonFinalTitles(es[..|es| - 1]) + [es[|es| - 2].m]
  {
  }

  lemma {:induction false} TimeInSnoc(es: seq<WinEvent>, m: string)
    requires |es| >= 2
    ensures TimeIn(es, m) ==
      TimeIn(es[..|es| - 1], m) + (if es[|es| - 2].m == m then es[|es| - 1].t - es[|es| - 2].t else 0)
  {
    if |es| > 2 {
      TimeInSnoc(es[1..], m);
      assert es[1..][..|es| - 2] == es[..|es| - 1][1..];
    }
  }

  lemma {:induction false} CreditToTotals(c: map<string, int>, es: seq<WinEvent>, k: int)
    requires 0 <= k <= |es|
    ensures forall m :: m in CreditTo(c, es, k) <==> m in c || m in NonFinalTitles(es[..k])
    ensures forall m :: Lookup(CreditTo(c, es, k), m) == Lookup(c, m) + TimeIn(es[..k], m)
  {
    if k >= 2 {
      CreditToTotals(c, es, k - 1);
      var pre := es[..k];
      assert pre[..k - 1] == es[..k - 1];
      NonFinalSnoc(pre);
      forall m ensures Lookup(CreditTo(c, es, k), m) == Lookup(c, m) + TimeIn(pre, m) {
        TimeInSnoc(pre, m);
      }
    }
  }

  lemma {:induction false} CreditAsWrittenToFacts(c: map<string, int>, es: seq<WinEvent>, k: int)
    requires 0 <= k <= |es|
    ensures forall m :: m in CreditAsWrittenTo(c, es, k) <==> m in c || m in NonFinalTitles(es[..k])
    ensures forall m :: m in c ==> CreditAsWrittenTo(c, es, k)[m] == c[m] + TimeIn(es[..k], m)
  {
    if k >= 2 {
      CreditAsWrittenToFacts(c, es, k - 1);
      var pre := es[..k];
      assert pre[..k - 1] == es[..k - 1];
      NonFinalSnoc(pre);
      forall m | m in c ensures CreditAsWrittenTo(c, es, k)[m] == c[m] + TimeIn(pre, m) {
        TimeInSnoc(pre, m);
      }
    } else {
      assert NonFinalTitles(es[..k]) == [];
      forall m ensures TimeIn(es[..k], m) == 0 {
      }
    }
  }

  /** The pages' totals lose the first duration of a title: for events A at
      0, A at 10 and B at 30 they give A 20 seconds, not 30. */
  lemma FirstDurationLost()
    ensures var es := [WinEvent(0, "a", "A", 0), WinEvent(10, "a", "A", 0), WinEvent(30, "b", "B", 0)];
      CreditAsWritten(map[], es)["A"] == 20 && Credit(map[], es)["A"] == 30 && TimeIn(es, "A") == 30
  {
    var es := [WinEvent(0, "a", "A", 0), WinEvent(10, "a", "A", 0), WinEvent(30, "b", "B", 0)];
    assert CreditAsWrittenTo(map[], es, 2) == map["A" := 0];
    assert Credit(map[], es) == CreditTo(map[], es, 3);
    assert CreditTo(map[], es, 2) == map["A" := 10];
    assert es[1..][1..] == es[2..];
    assert TimeIn(es[1..], "A") == 20;
  }

  // ---------------------------------------------------------------------------
  // First-seen title lists

  /** The keys of `counts` are the titles `types` lists. */
  ghost predicate Listed<V>(counts: map<string, V>, types: seq<string>) {
    forall x :: x in counts <==> x in types
  }

  /** Adding a title keeps the list in step: a title not yet a key is
      appended. */
  lemma ListedStep<V>(counts: map<string, V>, types: seq<string>, m: string, v: V)
    requires Listed(counts, types)
    ensures m in counts <==> m in types
    ensures Listed(counts[m := v], if m in counts then types else types + [m])
  {
  }

  predicate NoDup(s: seq<string>) {
    forall i, j :: 0 <= i < j < |s| ==> s[i] != s[j]
  }

  /** `seen` extended by each title of `ms` not yet in it, in first-seen
      order: the list keeps what it had in front and grows by at most one
      title per title of `ms`. */
  function Register(seen: seq<string>, ms: seq<string>): (r: seq<string>)
    ensures seen <= r && |r| <= |seen| + |ms|
  {
    if ms == [] then seen
    else
      var p := Register(seen, ms[..|ms| - 1]);
      if ms[|ms| - 1] in p then p else p + [ms[|ms| - 1]]
  }

  /** The list gains exactly the new titles, and never lists a title twice. */
  lemma {:induction false} RegisterFacts(seen: seq<string>, ms: seq<string>)
    ensures forall x :: x in Register(seen, ms) <==> x in seen || x in ms
    ensures NoDup(seen) ==> NoDup(Register(seen, ms))
  {
    if ms != [] {
      RegisterFacts(seen, ms[..|ms| - 1]);
      assert forall x :: x in ms <==> x in ms[..|ms| - 1] || x == ms[|ms| - 1];
    }
  }

  /** The list after the events before event `k` are credited: the title
      of each but the last of them is appended when new. */
  function ListTo(seen: seq<string>, es: seq<WinEvent>, k: int): seq<string>
    requires 0 <= k <= |es|
  {
    if k < 2 then seen
    else
      var p := ListTo(seen, es, k - 1);
      if es[k - 2].m in p then p else p + [es[k - 2].m]
  }

  lemma {:induction false} ListToRegister(seen: seq<string>, es: seq<WinEvent>, k: int)
    requires 0 <= k <= |es|
    ensures ListTo(seen, es, k) == Register(seen, NonFinalTitles(es[..k]))
  {
    if k >= 2 {
      ListToRegister(seen, es, k - 1);
      var pre := es[..k];
      assert pre[..k - 1] == es[..k - 1];
      NonFinalSnoc(pre);
      var ms := NonFinalTitles(pre);
      assert ms[..|ms| - 1] == NonFinalTitles(es[..k - 1]);
    } else if k == 1 {
      assert NonFinalTitles(es[..k]) == [];
    } else {
      assert es[..k] == [];
    }
  }

  lemma {:induction false} RegisterAppend(seen: seq<string>, a: seq<string>, b: seq<string>)
    ensures Register(seen, a + b) == Register(Register(seen, a), b)
  {
    if b == [] {
      assert a + b == a;
    } else {
      RegisterAppend(seen, a, b[..|b| - 1]);
      assert (a + b)[..|a + b| - 1] == a + b[..|b| - 1];
    }
  }
}
