/** render/overview_app.js, the integer parts of the overview page: mapping
    every day's window events to display categories with the first-seen
    category list and its legend switches, the durations and per-day totals,
    and the ten-minute key-count bins of every day. */
module OverviewApp {
  import opened Wrappers
  import opened WindowEvents
  import opened TitleMap

  // ---------------------------------------------------------------------------
  // mapEvents

  /** The events with `m = mapwin(s)`. */
  function Mapped(rules: seq<Rule>, es: seq<WinEvent>): seq<WinEvent> {
    seq(|es|, i requires 0 <= i < |es| => es[i].(m := LastMatch(rules, es[i].s)))
  }

  /** The events once mapEvents has mapped the first `k`. */
  function MappedTo(rules: seq<Rule>, es: seq<WinEvent>, k: int): seq<WinEvent> {
    seq(|es|, i requires 0 <= i < |es| => if i < k then es[i].(m := LastMatch(rules, es[i].s)) else es[i])
  }

  lemma MapStep(rules: seq<Rule>, es: seq<WinEvent>, k: int)
    requires 0 <= k < |es|
    ensures MappedTo(rules, es, k)[k := es[k].(m := LastMatch(rules, es[k].s))] == MappedTo(rules, es, k + 1)
  {
  }

  /** Mapping is all mapEvents does to the events: only `m` changes, it
      depends on `s` alone, and mapping again changes nothing. */
  lemma MappedKeeps(rules: seq<Rule>, es: seq<WinEvent>)
    ensures |Mapped(rules, es)| == |es|
    ensures forall i :: 0 <= i < |es| ==> Mapped(rules, es)[i].(m := es[i].m) == es[i]
    ensures Mapped(rules, Mapped(rules, es)) == Mapped(rules, es)
    ensures MappedTo(rules, es, |es|) == Mapped(rules, es)
  {
    var w := Mapped(rules, es);
    assert forall i :: 0 <= i < |w| ==> Mapped(rules, w)[i] == w[i];
  }

  /** The mapped titles of `es`, in order. */
  function Titles(es: seq<WinEvent>): seq<string> {
    seq(|es|, i requires 0 <= i < |es| => es[i].m)
  }

  /** The legend switches after the titles `ms` are listed: a title seen for
      the first time is shown (`false`), the others keep their switch. */
  function Shown(skip: map<string, bool>, ms: seq<string>): map<string, bool> {
    map x | x in skip.Keys + (set m | m in ms) :: if x in skip then skip[x] else false
  }

  lemma ShownSnoc(skip: map<string, bool>, ms: seq<string>, m: string)
    ensures Shown(skip, ms + [m]) == if m in Shown(skip, ms) then Shown(skip, ms) else Shown(skip, ms)[m := false]
  {
    assert forall x :: x in ms + [m] <==> x in ms || x == m;
  }

  lemma ShownAppend(skip: map<string, bool>, a: seq<string>, b: seq<string>)
    ensures Shown(skip, a + b) == Shown(Shown(skip, a), b)
  {
    assert forall x :: x in a + b <==> x in a || x in b;
  }

  /** With the switches in step with the list, mapEvents keeps them so: every
      listed title has a switch, the old switches are kept and every title
      added shows. */
  lemma ShownListed(skip: map<string, bool>, seen: seq<string>, ms: seq<string>)
    requires Listed(skip, seen)
    ensures Listed(Shown(skip, ms), Register(seen, ms))
    ensures forall x :: x in seen ==> Shown(skip, ms)[x] == skip[x]
    ensures forall x :: x in Register(seen, ms) && x !in seen ==> Shown(skip, ms)[x] == false
  {
    RegisterFacts(seen, ms);
  }

  /** The first-seen category list `etypes`, the legend switches `skipdraw`
      and the per-day totals `edur`, the page's globals. */
  class Overview {
    var etypes: seq<string>
    var skipdraw: map<string, bool>
    var edur: seq<map<string, int>>

    /** Every listed category has a switch and nothing else has one. */
    ghost predicate Valid()
      reads this
    {
      Listed(skipdraw, etypes)
    }

    constructor ()
      ensures Valid() && etypes == [] && skipdraw == map[] && edur == []
    {
      etypes := [];
      skipdraw := map[];
      edur := [];
    }

    /** The list step of mapEvents' loop (render/overview_app.js:147-150). */
    method AddTitle(m: string)
      requires Valid()
      modifies this
      ensures Valid() && edur == old(edur)
      ensures etypes == if m in old(etypes) then old(etypes) else old(etypes) + [m]
      ensures skipdraw == Shown(old(skipdraw), [m])
    {
      ListedStep(skipdraw, etypes, m, false);
      ShownSnoc(skipdraw, [], m);
      assert [] + [m] == [m];
      assert Shown(skipdraw, []) == skipdraw;
      if m !in etypes {
        etypes := etypes + [m];
        skipdraw := skipdraw[m := false];
      }
    }

    /** mapEvents(es) (render/overview_app.js:142-152): every event gets its
        category, and each category not yet listed is appended with its
        switch showing. */
    method MapEvents(es: array<WinEvent>, rules: seq<Rule>)
      requires Valid()
      modifies this, es
      ensures Valid() && edur == old(edur)
      ensures es[..] == Mapped(rules, old(es[..]))
      ensures etypes == Register(old(etypes), Titles(es[..]))
      ensures skipdraw == Shown(old(skipdraw), Titles(es[..]))
    {
      ghost var e0 := es[..];
      ghost var t0 := etypes;
      ghost var s0 := skipdraw;
      ghost var ms := Titles(Mapped(rules, e0));
      var i := 0;
      var n := es.Length;
      while i < n
        invariant 0 <= i <= n
        invariant es[..] == MappedTo(rules, e0, i)
        invariant etypes == Register(t0, ms[..i]) && skipdraw == Shown(s0, ms[..i])
        invariant edur == old(edur) && Valid()
      {
        var mt := MapOne(es, i, rules, e0);
        assert ms[..i + 1] == ms[..i] + [mt];
        ShownAppend(s0, ms[..i], [mt]);
        AddTitle(mt);
        i := i + 1;
      }
      MappedKeeps(rules, e0);
      assert ms[..i] == ms;
    }

    /** The legend click (render/overview_app.js:32-38) on entry `i`: a
        shown category is hidden and a hidden one shown. */
    method ToggleSkip(i: int)
      requires Valid() && 0 <= i < |etypes|
      modifies this
      ensures Valid() && etypes == old(etypes) && edur == old(edur)
      ensures skipdraw == old(skipdraw)[etypes[i] := !old(skipdraw)[etypes[i]]]
    {
      var m := etypes[i];
      if skipdraw[m] == false {
        skipdraw := skipdraw[m := true];
      } else {
        skipdraw := skipdraw[m := false];
      }
    }

    /** analyzeEvents (render/overview_app.js:174-190) over the window events
        of each loaded day: all days are mapped first, then each day's
        durations are filled in and its totals kept in `edur`, one map per
        day in day order. */
    method AnalyzeEvents(days: seq<array<WinEvent>>, rules: seq<Rule>) returns (ghost before: seq<seq<WinEvent>>)
      requires Valid()
      requires forall j, k :: 0 <= j < k < |days| ==> days[j] != days[k]
      modifies this, set k | 0 <= k < |days| :: days[k]
      ensures Valid() && |before| == |days|
      ensures forall k :: 0 <= k < |days| ==> before[k] == old(days[k][..])
      ensures etypes == Register(old(etypes), AllTitles(rules, before))
      ensures skipdraw == Shown(old(skipdraw), AllTitles(rules, before))
      ensures |edur| == |days|
      ensures forall k :: 0 <= k < |days| ==>
        days[k][..] == WithDurations(Mapped(rules, before[k])) && edur[k] == Credit(map[], Mapped(rules, before[k]))
    {
      before := seq(|days|, k requires 0 <= k < |days| reads set j | 0 <= j < |days| :: days[j] => days[k][..]);
      MapDays(days, rules, before);
      edur := [];
      StatDays(days, rules, before);
    }

    /** The first loop of analyzeEvents (render/overview_app.js:179-182). */
    method MapDays(days: seq<array<WinEvent>>, rules: seq<Rule>, ghost before: seq<seq<WinEvent>>)
      requires Valid() && |before| == |days|
      requires forall j, k :: 0 <= j < k < |days| ==> days[j] != days[k]
      requires forall k :: 0 <= k < |days| ==> days[k][..] == before[k]
      modifies this, set k | 0 <= k < |days| :: days[k]
      ensures Valid() && edur == old(edur)
      ensures forall k :: 0 <= k < |days| ==> days[k][..] == Mapped(rules, before[k])
      ensures etypes == Register(old(etypes), AllTitles(rules, before))
      ensures skipdraw == Shown(old(skipdraw), AllTitles(rules, before))
    {
      ghost var t0 := etypes;
      ghost var s0 := skipdraw;
      var k := 0;
      while k < |days|
        invariant 0 <= k <= |days| && Valid() && edur == old(edur)
        invariant forall j :: 0 <= j < k ==> days[j][..] == Mapped(rules, before[j])
        invariant forall j :: k <= j < |days| ==> days[j][..] == before[j]
        invariant etypes == Register(t0, AllTitles(rules, before[..k]))
        invariant skipdraw == Shown(s0, AllTitles(rules, before[..k]))
      {
        MapEvents(days[k], rules);
        assert before[..k + 1][..k] == before[..k];
        RegisterAppend(t0, AllTitles(rules, before[..k]), Titles(Mapped(rules, before[k])));
        ShownAppend(s0, AllTitles(rules, before[..k]), Titles(Mapped(rules, before[k])));
        k := k + 1;
      }
      assert before[..k] == before;
    }

    /** The second loop of analyzeEvents (render/overview_app.js:184-189):
        one fresh totals map per day, filled by statEvents. */
    method StatDays(days: seq<array<WinEvent>>, rules: seq<Rule>, ghost before: seq<seq<WinEvent>>)
      requires |before| == |days| && edur == []
      requires forall j, k :: 0 <= j < k < |days| ==> days[j] != days[k]
      requires forall k :: 0 <= k < |days| ==> days[k][..] == Mapped(rules, before[k])
      modifies this, set k | 0 <= k < |days| :: days[k]
      ensures etypes == old(etypes) && skipdraw == old(skipdraw) && |edur| == |days|
      ensures forall k :: 0 <= k < |days| ==>
        days[k][..] == WithDurations(Mapped(rules, before[k])) && edur[k] == Credit(map[], Mapped(rules, before[k]))
    {
      ghost var mapped := seq(|days|, j requires 0 <= j < |days| => Mapped(rules, before[j]));
      ghost var timed := seq(|days|, j requires 0 <= j < |days| => WithDurations(mapped[j]));
      ghost var credited := seq(|days|, j requires 0 <= j < |days| => Credit(map[], mapped[j]));
      var k := 0;
      while k < |days|
        invariant 0 <= k <= |days| && |edur| == k
        invariant etypes == old(etypes) && skipdraw == old(skipdraw)
        invariant forall j :: 0 <= j < k ==> days[j][..] == timed[j] && edur[j] == credited[j]
        invariant forall j :: k <= j < |days| ==> days[j][..] == mapped[j]
      {
        var counts := StatEvents(days[k], map[]);
        edur := edur + [counts];
        k := k + 1;
      }
    }
  }

  /** The titles of all days, mapped, in day order. */
  function AllTitles(rules: seq<Rule>, days: seq<seq<WinEvent>>): seq<string> {
    if days == [] then [] else AllTitles(rules, days[..|days| - 1]) + Titles(Mapped(rules, days[|days| - 1]))
  }

  /** One step of mapEvents' loop (render/overview_app.js:144-146): event `i`
      gets its category. */
  method MapOne(es: array<WinEvent>, i: int, rules: seq<Rule>, ghost e0: seq<WinEvent>) returns (mt: string)
    requires 0 <= i < es.Length == |e0|
    requires es[..] == MappedTo(rules, e0, i)
    modifies es
    ensures es[..] == MappedTo(rules, e0, i + 1)
    ensures mt == LastMatch(rules, e0[i].s) == Titles(Mapped(rules, e0))[i]
  {
    assert es[i] == e0[i];
    MapStep(rules, e0, i);
    var e := es[i];
    mt := MapWin(rules, e.s);
    es[i] := e.(m := mt);
  }

  // ---------------------------------------------------------------------------
  // statEvents

  /** The totals step of statEvents' loop (render/overview_app.js:163-167),
      the first duration of a category credited in full. */
  method CreditOne(ecounts: map<string, int>, tmap: string, dt: int) returns (counts: map<string, int>)
    ensures counts == ecounts[tmap := Lookup(ecounts, tmap) + dt]
  {
    if tmap in ecounts {
      counts := ecounts[tmap := ecounts[tmap] + dt];
    } else {
      counts := ecounts[tmap := dt];
    }
  }

  /** One pass of statEvents' loop (render/overview_app.js:158-168) on event
      `i`: the previous event's `dt`, then its credit. */
  method StatEvent(es: array<WinEvent>, i: int, counts0: map<string, int>, ghost e0: seq<WinEvent>,
                   ghost c0: map<string, int>) returns (counts: map<string, int>)
    requires 1 <= i < es.Length == |e0|
    requires es[..] == StampedTo(e0, i - 1) && counts0 == CreditTo(c0, e0, i)
    modifies es
    ensures es[..] == StampedTo(e0, i) && counts == CreditTo(c0, e0, i + 1)
  {
    var dt, tmap := StampPrevious(es, i, e0);
    counts := CreditOne(counts0, tmap, dt);
  }

  /** statEvents(es, ecounts) (render/overview_app.js:154-172): fills in every
      `dt` and credits every event but the last to its category in the
      totals the caller passes, the first duration of a category in full
      (see WindowEvents.CreditAsWritten for the totals as written). */
  method StatEvents(es: array<WinEvent>, ecounts: map<string, int>) returns (counts: map<string, int>)
    modifies es
    ensures es[..] == WithDurations(old(es[..]))
    ensures counts == Credit(ecounts, old(es[..]))
  {
    counts := ecounts;
    if es.Length == 0 {
      return;
    }
    ghost var e0 := es[..];
    var n := es.Length;
    var i := 1;
    while i < n
      invariant 1 <= i <= n
      invariant es[..] == StampedTo(e0, i - 1)
      invariant counts == CreditTo(ecounts, e0, i)
    {
      counts := StatEvent(es, i, counts, e0, ecounts);
      i := i + 1;
    }
    ghost var last := es[..];
    es[n - 1] := es[n - 1].(dt := 1);
    assert es[..] == last[n - 1 := e0[n - 1].(dt := 1)];
    StampedLast(e0);
  }

  // ---------------------------------------------------------------------------
  // drawKeyEvents, the ten-minute bins

  /** A keyfreq event: `s` keys counted up to time `t`. */
  datatype KeyCount = KeyCount(t: int, s: int)

  const TimeBin: int := 10 * 60
  const DaySeconds: int := 60 * 60 * 24
  /** One bin every ten minutes from a day's `t0` up to and including
      `t0 + 86400`: 145 of them. */
  const BinCount: int := DaySeconds / TimeBin + 1

  /** `Math.floor((t - t0) / time_bin)`: Dafny's division already floors for
      a positive divisor. */
  function BinIndex(t0: int, t: int): int {
    (t - t0) / TimeBin
  }

  /** An event that falls in one of its day's bins. */
  predicate InBins(t0: int, e: KeyCount) {
    0 <= BinIndex(t0, e.t) < BinCount
  }

  /** Bin `b` covers the ten minutes from `t0 + 600b`, and an event falls in
      some bin exactly when it lies in `[t0, t0 + 145 * 600)`. */
  lemma BinIndexBounds(t0: int, t: int)
    ensures t0 + BinIndex(t0, t) * TimeBin <= t < t0 + (BinIndex(t0, t) + 1) * TimeBin
    ensures forall b :: t0 + b * TimeBin <= t < t0 + (b + 1) * TimeBin ==> b == BinIndex(t0, t)
    ensures InBins(t0, KeyCount(t, 0)) <==> t0 <= t < t0 + BinCount * TimeBin
  {
    var b := BinIndex(t0, t);
    assert (t - t0) == b * TimeBin + (t - t0) % TimeBin;
    forall c | t0 + c * TimeBin <= t < t0 + (c + 1) * TimeBin
      ensures c == b
    {
    }
  }

  /** The keys of the events of `es` that fall in bin `b` of the day from `t0`. */
  function BinTotal(t0: int, es: seq<KeyCount>, b: int): int {
    if es == [] then 0
    else BinTotal(t0, es[..|es| - 1], b) + (if BinIndex(t0, es[|es| - 1].t) == b then es[|es| - 1].s else 0)
  }

  /** The keys of the events of `es` that fall in some bin. */
  function DayTotal(t0: int, es: seq<KeyCount>): int {
    if es == [] then 0
    else DayTotal(t0, es[..|es| - 1]) + (if InBins(t0, es[|es| - 1]) then es[|es| - 1].s else 0)
  }

  /** The bins of one day: bin `b` holds the keys counted in it. */
  function DayBins(t0: int, es: seq<KeyCount>): (r: seq<int>)
    ensures |r| == BinCount
  {
    seq(BinCount, b requires 0 <= b < BinCount => BinTotal(t0, es, b))
  }

  function Zeros(n: nat): seq<int> {
    seq(n, _ => 0)
  }

  function AddBins(a: seq<int>, b: seq<int>): (r: seq<int>)
    requires |a| == |b|
    ensures |r| == |a|
  {
    seq(|a|, i requires 0 <= i < |a| => a[i] + b[i])
  }

  /** Adding to one bin of `b` adds the same to that bin of the sum. */
  lemma AddBinsUpdate(a: seq<int>, b: seq<int>, i: int, s: int)
    requires |a| == |b| && 0 <= i < |b|
    ensures AddBins(a, b[i := b[i] + s]) == AddBins(a, b)[i := AddBins(a, b)[i] + s]
  {
  }

  /** The global bins: each day's bins added up, bin by bin. */
  function GlobalBins(t0s: seq<int>, days: seq<seq<KeyCount>>): (r: seq<int>)
    requires |t0s| == |days|
    ensures |r| == BinCount
  {
    if days == [] then Zeros(BinCount)
    else AddBins(GlobalBins(t0s[..|t0s| - 1], days[..|days| - 1]), DayBins(t0s[|t0s| - 1], days[|days| - 1]))
  }

  function DayTotals(t0s: seq<int>, days: seq<seq<KeyCount>>): seq<int>
    requires |t0s| == |days|
  {
    seq(|days|, k requires 0 <= k < |days| => DayTotal(t0s[k], days[k]))
  }

  function Sum(xs: seq<int>): int {
    if xs == [] then 0 else Sum(xs[..|xs| - 1]) + xs[|xs| - 1]
  }

  /** One more event adds its keys to its bin and to the day's total. */
  lemma BinsSnoc(t0: int, es: seq<KeyCount>, e: KeyCount)
    ensures DayBins(t0, es + [e]) ==
      if InBins(t0, e) then DayBins(t0, es)[BinIndex(t0, e.t) := DayBins(t0, es)[BinIndex(t0, e.t)] + e.s]
      else DayBins(t0, es)
    ensures DayTotal(t0, es + [e]) == DayTotal(t0, es) + if InBins(t0, e) then e.s else 0
  {
    assert (es + [e])[..|es|] == es;
  }

  lemma {:induction false} SumUpdate(a: seq<int>, i: int, v: int)
    requires 0 <= i < |a|
    ensures Sum(a[i := v]) == Sum(a) - a[i] + v
  {
    if i < |a| - 1 {
      SumUpdate(a[..|a| - 1], i, v);
      assert a[i := v][..|a| - 1] == a[..|a| - 1][i := v];
    } else {
      assert a[i := v][..|a| - 1] == a[..|a| - 1];
    }
  }

  lemma {:induction false} SumAddBins(a: seq<int>, b: seq<int>)
    requires |a| == |b|
    ensures Sum(AddBins(a, b)) == Sum(a) + Sum(b)
  {
    if a != [] {
      SumAddBins(a[..|a| - 1], b[..|b| - 1]);
      assert AddBins(a, b)[..|a| - 1] == AddBins(a[..|a| - 1], b[..|b| - 1]);
    }
  }

  lemma {:induction false} SumZeros(n: nat)
    ensures Sum(Zeros(n)) == 0
  {
    if n > 0 {
      SumZeros(n - 1);
      assert Zeros(n)[..n - 1] == Zeros(n - 1);
    }
  }

  /** Every key counted in the day's bins is in its total, and no other. */
  lemma {:induction false} DayBinsTotal(t0: int, es: seq<KeyCount>)
    ensures Sum(DayBins(t0, es)) == DayTotal(t0, es)
  {
    if es == [] {
      assert DayBins(t0, es) == Zeros(BinCount);
      SumZeros(BinCount);
    } else {
      var init := es[..|es| - 1];
      var e := es[|es| - 1];
      assert init + [e] == es;
      DayBinsTotal(t0, init);
      BinsSnoc(t0, init, e);
      if InBins(t0, e) {
        SumUpdate(DayBins(t0, init), BinIndex(t0, e.t), DayBins(t0, init)[BinIndex(t0, e.t)] + e.s);
      }
    }
  }

  /** The global bins hold exactly the keys of the days' totals. */
  lemma {:induction false} GlobalBinsTotal(t0s: seq<int>, days: seq<seq<KeyCount>>)
    requires |t0s| == |days|
    ensures Sum(GlobalBins(t0s, days)) == Sum(DayTotals(t0s, days))
  {
    if days == [] {
      SumZeros(BinCount);
    } else {
      var n := |days|;
      GlobalBinsTotal(t0s[..n - 1], days[..n - 1]);
      DayBinsTotal(t0s[n - 1], days[n - 1]);
      SumAddBins(GlobalBins(t0s[..n - 1], days[..n - 1]), DayBins(t0s[n - 1], days[n - 1]));
      assert DayTotals(t0s, days)[..n - 1] == DayTotals(t0s[..n - 1], days[..n - 1]);
    }
  }

  /** What drawKeyEvents computes before it draws. */
  datatype KeyBins = KeyBins(allkevents: seq<seq<int>>, ktots: seq<int>, keventsGlobal: seq<int>,
    maxs: int, maxktot: int, maxKeventsGlobal: int, sumKeventsGlobal: int)

  /** `kb` is what drawKeyEvents has computed once the first `k` days are
      binned: their bins and totals, the global bins so far (none before the
      first day), the sum of the totals, and maxima not yet raised to 1 that
      bound every bin and total, the total maximum being one of the totals
      or 0. */
  predicate BinnedTo(kb: KeyBins, t0s: seq<int>, days: seq<seq<KeyCount>>, k: int)
    requires 0 <= k <= |days| == |t0s|
  {
    && DaysBinned(kb.allkevents, t0s, days, k)
    && TotalsSoFar(kb.ktots, kb.sumKeventsGlobal, kb.maxktot, t0s, days, k)
    && GlobalSoFar(kb.keventsGlobal, t0s, days, k)
    && MaximaBound(kb.allkevents, kb.keventsGlobal, kb.maxs, kb.maxKeventsGlobal)
  }

  predicate DaysBinned(allkevents: seq<seq<int>>, t0s: seq<int>, days: seq<seq<KeyCount>>, k: int)
    requires 0 <= k <= |days| == |t0s|
  {
    |allkevents| == k && forall j :: 0 <= j < k ==> allkevents[j] == DayBins(t0s[j], days[j])
  }

  predicate TotalsSoFar(ktots: seq<int>, sum: int, maxktot: int, t0s: seq<int>, days: seq<seq<KeyCount>>, k: int)
    requires 0 <= k <= |days| == |t0s|
  {
    && |ktots| == k && (forall j :: 0 <= j < k ==> ktots[j] == DayTotal(t0s[j], days[j]))
    && sum == Sum(ktots)
    && maxktot >= 0 && (forall j :: 0 <= j < k ==> ktots[j] <= maxktot)
    && (maxktot == 0 || exists j :: 0 <= j < k && ktots[j] == maxktot)
  }

  predicate GlobalSoFar(keventsGlobal: seq<int>, t0s: seq<int>, days: seq<seq<KeyCount>>, k: int)
    requires 0 <= k <= |days| == |t0s|
  {
    (k == 0 ==> keventsGlobal == []) && (k > 0 ==> keventsGlobal == GlobalBins(t0s[..k], days[..k]))
  }

  predicate MaximaBound(allkevents: seq<seq<int>>, keventsGlobal: seq<int>, maxs: int, maxg: int) {
    && maxs >= 0 && (forall j, b :: 0 <= j < |allkevents| && 0 <= b < |allkevents[j]| ==> allkevents[j][b] <= maxs)
    && maxg >= 0 && (forall b :: 0 <= b < |keventsGlobal| ==> keventsGlobal[b] <= maxg)
  }

  lemma DaysBinnedStep(allkevents: seq<seq<int>>, t0s: seq<int>, days: seq<seq<KeyCount>>, k: int)
    requires 0 <= k < |days| == |t0s| && DaysBinned(allkevents, t0s, days, k)
    ensures DaysBinned(allkevents + [DayBins(t0s[k], days[k])], t0s, days, k + 1)
  {
  }

  lemma TotalsStep(ktots: seq<int>, sum: int, maxktot: int, t0s: seq<int>, days: seq<seq<KeyCount>>, k: int)
    requires 0 <= k < |days| == |t0s| && TotalsSoFar(ktots, sum, maxktot, t0s, days, k)
    ensures var ktot := DayTotal(t0s[k], days[k]);
      TotalsSoFar(ktots + [ktot], sum + ktot, if ktot > maxktot then ktot else maxktot, t0s, days, k + 1)
  {
    var ktot := DayTotal(t0s[k], days[k]);
    assert (ktots + [ktot])[..k] == ktots;
    if maxktot != 0 && ktot <= maxktot {
      var j :| 0 <= j < k && ktots[j] == maxktot;
      assert (ktots + [ktot])[j] == maxktot;
    }
  }

  lemma GlobalStep(t0s: seq<int>, days: seq<seq<KeyCount>>, k: int)
    requires 0 <= k < |days| == |t0s|
    ensures GlobalSoFar(AddBins(GlobalBins(t0s[..k], days[..k]), DayBins(t0s[k], days[k])), t0s, days, k + 1)
  {
    assert t0s[..k + 1][..k] == t0s[..k] && days[..k + 1][..k] == days[..k];
  }

  lemma MaximaStep(allkevents: seq<seq<int>>, kevents: seq<int>, g0: seq<int>, g: seq<int>,
                   maxs0: int, maxg0: int, maxs: int, maxg: int)
    requires MaximaBound(allkevents, g0, maxs0, maxg0) && maxs >= maxs0 && maxg >= maxg0
    requires AtMost(kevents, maxs) && AtMost(g, maxg)
    ensures MaximaBound(allkevents + [kevents], g, maxs, maxg)
  {
    forall j, b | 0 <= j < |allkevents| + 1 && 0 <= b < |(allkevents + [kevents])[j]|
      ensures (allkevents + [kevents])[j][b] <= maxs
    {
      if j < |allkevents| {
        assert (allkevents + [kevents])[j] == allkevents[j];
      }
    }
  }

  /** What drawKeyEvents draws from for days starting at `t0s` with keyfreq
      events `days`: every day's bins and total, the global bins, their sum,
      and maxima of at least 1 that bound every bin and total, the total
      maximum being 1 or one of the totals. */
  predicate KeyBinsOf(kb: KeyBins, t0s: seq<int>, days: seq<seq<KeyCount>>)
    requires |t0s| == |days|
  {
    && |kb.allkevents| == |days|
    && (forall k :: 0 <= k < |days| ==> kb.allkevents[k] == DayBins(t0s[k], days[k]))
    && kb.ktots == DayTotals(t0s, days) && kb.sumKeventsGlobal == Sum(kb.ktots)
    && kb.keventsGlobal == GlobalBins(t0s, days)
    && kb.maxs >= 1 && (forall k, b :: 0 <= k < |days| && 0 <= b < BinCount ==> kb.allkevents[k][b] <= kb.maxs)
    && kb.maxKeventsGlobal >= 1 && (forall b :: 0 <= b < BinCount ==> kb.keventsGlobal[b] <= kb.maxKeventsGlobal)
    && kb.maxktot >= 1 && (forall k :: 0 <= k < |days| ==> kb.ktots[k] <= kb.maxktot)
    && (kb.maxktot == 1 || exists k :: 0 <= k < |days| && kb.ktots[k] == kb.maxktot)
  }

  /** drawKeyEvents (render/overview_app.js:192-254) up to the drawing:
      nothing when no day is loaded. */
  method DrawKeyBins(t0s: seq<int>, days: seq<seq<KeyCount>>) returns (r: Option<KeyBins>)
    requires |t0s| == |days|
    ensures r.None? <==> days == []
    ensures r.Some? ==> KeyBinsOf(r.value, t0s, days)
  {
    if |days| == 0 {
      return None;
    }
    var kb := KeyBins([], [], [], 0, 0, 0, 0);
    var k := 0;
    while k < |days|
      invariant 0 <= k <= |days| && BinnedTo(kb, t0s, days, k)
    {
      kb := BinDay(kb, t0s, days, k);
      k := k + 1;
    }
    kb := ClampMaxima(kb, t0s, days);
    r := Some(kb);
  }

  /** One day of drawKeyEvents' day loop (render/overview_app.js:212-249). */
  method BinDay(kb0: KeyBins, t0s: seq<int>, days: seq<seq<KeyCount>>, k: int) returns (kb: KeyBins)
    requires 0 <= k < |days| == |t0s| && BinnedTo(kb0, t0s, days, k)
    ensures BinnedTo(kb, t0s, days, k + 1)
  {
    var t00 := t0s[k];
    var kevents, keventsGlobal := NewBins(t00, k, kb0.keventsGlobal);
    ghost var g0 := keventsGlobal;
    assert g0 == GlobalBins(t0s[..k], days[..k]);
    var ktot, maxs, maxKeventsGlobal, sumKeventsGlobal;
    kevents, keventsGlobal, ktot, maxs, maxKeventsGlobal, sumKeventsGlobal :=
      BucketDay(t00, days[k], kevents, keventsGlobal, kb0.maxs, kb0.maxKeventsGlobal, kb0.sumKeventsGlobal);
    var ktots := kb0.ktots + [ktot];
    var maxktot := kb0.maxktot;
    if ktot > maxktot {
      maxktot := ktot;
    }
    DaysBinnedStep(kb0.allkevents, t0s, days, k);
    TotalsStep(kb0.ktots, kb0.sumKeventsGlobal, kb0.maxktot, t0s, days, k);
    GlobalStep(t0s, days, k);
    MaximaStep(kb0.allkevents, kevents, g0, keventsGlobal, kb0.maxs, kb0.maxKeventsGlobal, maxs, maxKeventsGlobal);
    kb := KeyBins(kb0.allkevents + [kevents], ktots, keventsGlobal, maxs, maxktot, maxKeventsGlobal, sumKeventsGlobal);
  }

  /** The maxima raised to at least 1 (render/overview_app.js:251-254). */
  method ClampMaxima(kb0: KeyBins, t0s: seq<int>, days: seq<seq<KeyCount>>) returns (kb: KeyBins)
    requires |days| == |t0s| > 0 && BinnedTo(kb0, t0s, days, |days|)
    ensures KeyBinsOf(kb, t0s, days)
  {
    assert t0s[..|days|] == t0s && days[..|days|] == days;
    var maxs := if kb0.maxs < 1 then 1 else kb0.maxs;
    var maxktot := if kb0.maxktot < 1 then 1 else kb0.maxktot;
    var maxKeventsGlobal := if kb0.maxKeventsGlobal < 1 then 1 else kb0.maxKeventsGlobal;
    kb := kb0.(maxs := maxs, maxktot := maxktot, maxKeventsGlobal := maxKeventsGlobal);
  }

  /** The zero bins of one day (render/overview_app.js:214-224): one for
      every ten minutes from `t00` while not past `t00 + 86400`, with the
      global bins made beside those of the first day. */
  method NewBins(t00: int, k: int, keventsGlobal0: seq<int>) returns (kevents: seq<int>, keventsGlobal: seq<int>)
    ensures kevents == Zeros(BinCount)
    ensures keventsGlobal == if k == 0 then keventsGlobal0 + Zeros(BinCount) else keventsGlobal0
  {
    var ft := t00 + DaySeconds;
    kevents := [];
    keventsGlobal := keventsGlobal0;
    var t := t00;
    while t <= ft
      invariant t == t00 + |kevents| * 600 && |kevents| <= BinCount
      invariant kevents == Zeros(|kevents|)
      invariant keventsGlobal == if k == 0 then keventsGlobal0 + Zeros(|kevents|) else keventsGlobal0
      decreases ft - t
    {
      kevents := kevents + [0];
      t := t + TimeBin;
      if k == 0 {
        keventsGlobal := keventsGlobal + [0];
      }
    }
  }

  /** No bin of `xs` exceeds `m`. */
  ghost predicate AtMost(xs: seq<int>, m: int) {
    forall b :: 0 <= b < |xs| ==> xs[b] <= m
  }

  /** The event loop of one day (render/overview_app.js:228-244): an event
      outside the bins is skipped; one inside adds its keys to its bin, the
      global bin, the day's total and the global sum, and raises the maxima
      to the new bin values. */
  method BucketDay(t00: int, es: seq<KeyCount>, kevents0: seq<int>, keventsGlobal0: seq<int>,
                   maxs0: int, maxg0: int, sumg0: int)
    returns (kevents: seq<int>, keventsGlobal: seq<int>, ktot: int, maxs: int, maxg: int, sumg: int)
    requires kevents0 == Zeros(BinCount) && |keventsGlobal0| == BinCount
    requires maxs0 >= 0 && maxg0 >= 0 && AtMost(keventsGlobal0, maxg0)
    ensures kevents == DayBins(t00, es) && keventsGlobal == AddBins(keventsGlobal0, kevents)
    ensures ktot == DayTotal(t00, es) && sumg == sumg0 + ktot
    ensures maxs >= maxs0 && AtMost(kevents, maxs)
    ensures maxg >= maxg0 && AtMost(keventsGlobal, maxg)
  {
    kevents, keventsGlobal, ktot, maxs, maxg, sumg := kevents0, keventsGlobal0, 0, maxs0, maxg0, sumg0;
    assert DayBins(t00, es[..0]) == kevents0;
    assert AddBins(keventsGlobal0, kevents0) == keventsGlobal0;
    var q := 0;
    while q < |es|
      invariant 0 <= q <= |es|
      invariant Bucketed(t00, es[..q], keventsGlobal0, sumg0, kevents, keventsGlobal, ktot, sumg)
      invariant maxs >= maxs0 && AtMost(kevents, maxs)
      invariant maxg >= maxg0 && AtMost(keventsGlobal, maxg)
    {
      assert es[..q + 1] == es[..q] + [es[q]];
      kevents, keventsGlobal, ktot, maxs, maxg, sumg :=
        CountKeys(t00, es[..q], es[q], kevents, keventsGlobal, ktot, maxs, maxg, sumg, keventsGlobal0, sumg0);
      q := q + 1;
    }
    assert es[..q] == es;
  }

  /** After the events `es`: the day's bins and total, the global bins and
      the global sum, from the global bins `g0` and sum `sumg0` before it. */
  ghost predicate Bucketed(t00: int, es: seq<KeyCount>, g0: seq<int>, sumg0: int,
                           kevents: seq<int>, keventsGlobal: seq<int>, ktot: int, sumg: int)
  {
    |g0| == BinCount && kevents == DayBins(t00, es) && keventsGlobal == AddBins(g0, kevents) &&
    ktot == DayTotal(t00, es) && sumg == sumg0 + ktot
  }

  /** One pass of that loop (render/overview_app.js:229-243) on the event
      `kw` after the events `es`: the keys it adds to its bin, its global bin
      and the totals, if it has a bin, and the maxima raised to cover them. */
  method CountKeys(t00: int, ghost es: seq<KeyCount>, kw: KeyCount, kevents0: seq<int>, keventsGlobal0: seq<int>,
                   ktot0: int, maxs0: int, maxg0: int, sumg0: int, ghost g0: seq<int>, ghost sumgStart: int)
    returns (kevents: seq<int>, keventsGlobal: seq<int>, ktot: int, maxs: int, maxg: int, sumg: int)
    requires Bucketed(t00, es, g0, sumgStart, kevents0, keventsGlobal0, ktot0, sumg0)
    ensures Bucketed(t00, es + [kw], g0, sumgStart, kevents, keventsGlobal, ktot, sumg)
    ensures maxs >= maxs0 && maxg >= maxg0
    ensures AtMost(kevents0, maxs0) ==> AtMost(kevents, maxs)
    ensures AtMost(keventsGlobal0, maxg0) ==> AtMost(keventsGlobal, maxg)
  {
    BinsSnoc(t00, es, kw);
    kevents, keventsGlobal, ktot, maxs, maxg, sumg := kevents0, keventsGlobal0, ktot0, maxs0, maxg0, sumg0;
    var binix := (kw.t - t00) / TimeBin;
    if 0 <= binix < |kevents| {
      AddBinsUpdate(g0, kevents, binix, kw.s);
      var news := kevents[binix] + kw.s;
      kevents := kevents[binix := news];
      var newg := keventsGlobal[binix] + kw.s;
      if news > maxs {
        maxs := news;
      }
      keventsGlobal := keventsGlobal[binix := newg];
      if newg > maxg {
        maxg := newg;
      }
      sumg := sumg + kw.s;
      ktot := ktot + kw.s;
    }
  }
}
