/** prolific_deployment/render/day_app.js, the integer parts of the day page:
    parsing and ordering the coffee log, the schedule of the next coffee
    slots, the event durations with the first-seen title list, and the
    counters of the focus statistics. */
module DayApp {
  import opened Wrappers
  import opened Text
  import opened Seqs
  import opened Sorting
  import opened WindowEvents

  // ---------------------------------------------------------------------------
  // parseInt(x, 10)

  /** The characters JavaScript's `parseInt` skips before the number: white
      space and line terminators. */
  predicate JsSpace(c: char) {
    c == '\t' || c == '\n' || c == '\U{B}' || c == '\U{C}' || c == '\r' || c == ' '
    || c == '\U{A0}' || c == '\U{1680}' || ('\U{2000}' <= c <= '\U{200A}') || c == '\U{2028}'
    || c == '\U{2029}' || c == '\U{202F}' || c == '\U{205F}' || c == '\U{3000}' || c == '\U{FEFF}'
  }

  function JsLeadingSpace(s: string): (n: nat)
    ensures n <= |s|
    ensures n < |s| ==> !JsSpace(s[n])
  {
    if s == [] || !JsSpace(s[0]) then 0 else 1 + JsLeadingSpace(s[1..])
  }

  /** The length of the run of decimal digits `s` starts with. */
  function DigitRun(s: string): (n: nat)
    ensures n <= |s| && AllDigits(s[..n])
    ensures n < |s| ==> !IsDigit(s[n])
  {
    if s == [] || !IsDigit(s[0]) then 0
    else
      var k := DigitRun(s[1..]);
      assert s[..1 + k] == [s[0]] + s[1..][..k];
      1 + k
  }

  /** `parseInt(s, 10)`: leading white space, an optional sign, then the
      longest run of digits, whatever follows it; NaN (None) without a digit. */
  function JsParseInt(s: string): (r: Option<int>)
    ensures var t := s[JsLeadingSpace(s)..];
      var body := if t != [] && (t[0] == '-' || t[0] == '+') then t[1..] else t;
      (r.Some? <==> body != [] && IsDigit(body[0])) &&
      (r.Some? && r.value < 0 ==> t[0] == '-')
  {
    JsParseSigned(s[JsLeadingSpace(s)..])
  }

  function JsParseSigned(t: string): Option<int> {
    if t != [] && t[0] == '-' then
      match JsParseDigits(t[1..])
      case None => None
      case Some(v) => Some(0 - v)
    else if t != [] && t[0] == '+' then JsParseDigits(t[1..])
    else JsParseDigits(t)
  }

  function JsParseDigits(body: string): (r: Option<int>)
    ensures r.Some? ==> r.value >= 0
  {
    var n := DigitRun(body);
    if n == 0 then None else Some(DigitsValue(body[..n]))
  }

  lemma {:induction false} DigitRunOf(digits: string, rest: string)
    requires AllDigits(digits)
    requires rest == [] || !IsDigit(rest[0])
    ensures DigitRun(digits + rest) == |digits|
  {
    if digits != [] {
      assert (digits + rest)[1..] == digits[1..] + rest;
      DigitRunOf(digits[1..], rest);
    }
  }

  lemma DigitsRead(d: string, rest: string)
    requires |d| >= 1 && AllDigits(d)
    requires rest == [] || !IsDigit(rest[0])
    ensures JsParseDigits(d + rest) == Some(DigitsValue(d))
  {
    DigitRunOf(d, rest);
    assert (d + rest)[..|d|] == d;
  }

  lemma UnsignedRead(d: string, rest: string)
    requires |d| >= 1 && AllDigits(d)
    requires rest == [] || !IsDigit(rest[0])
    ensures JsParseInt(d + rest) == Some(DigitsValue(d))
  {
    var s := d + rest;
    assert s[0] == d[0] && !JsSpace(s[0]);
    assert s[JsLeadingSpace(s)..] == s;
    DigitsRead(d, rest);
  }

  lemma NegativeRead(d: string, rest: string)
    requires |d| >= 1 && AllDigits(d)
    requires rest == [] || !IsDigit(rest[0])
    ensures JsParseInt(['-'] + (d + rest)).Some?
    ensures JsParseInt(['-'] + (d + rest)).value == 0 - DigitsValue(d)
  {
    var s := ['-'] + (d + rest);
    assert JsLeadingSpace(s) == 0;
    assert s[JsLeadingSpace(s)..] == s;
    MinusRead(d + rest);
    DigitsRead(d, rest);
  }

  lemma MinusRead(x: string)
    ensures JsParseSigned(['-'] + x) == if JsParseDigits(x).Some? then Some(0 - JsParseDigits(x).value) else None
  {
    assert (['-'] + x)[1..] == x;
  }

  /** A number written in decimal reads back, whatever non-digit text follows
      it. */
  lemma JsParseIntOfString(n: int, rest: string)
    requires rest == [] || !IsDigit(rest[0])
    ensures JsParseInt(IntToString(n) + rest) == Some(n)
  {
    if n < 0 {
      var d := NatToString(-n);
      NegativeRead(d, rest);
      assert IntToString(n) + rest == ['-'] + (d + rest);
    } else {
      UnsignedRead(NatToString(n), rest);
    }
  }

  // ---------------------------------------------------------------------------
  // normalizeCoffeeEvents

  /** A coffee log entry as exported: its `t` and `mg` in decimal text. */
  datatype RawCoffee = RawCoffee(t: string, mg: string)

  datatype Coffee = Coffee(t: int, mg: int)

  function ParseCoffee(e: RawCoffee): (r: Option<Coffee>)
    ensures r.Some? <==> JsParseInt(e.t).Some? && JsParseInt(e.mg).Some? && JsParseInt(e.mg).value > 0
    ensures r.Some? ==> r.value == Coffee(JsParseInt(e.t).value, JsParseInt(e.mg).value)
  {
    var t := JsParseInt(e.t);
    var mg := JsParseInt(e.mg);
    if t.None? || mg.None? || mg.value <= 0 then None else Some(Coffee(t.value, mg.value))
  }

  predicate CoffeeLe(a: Coffee, b: Coffee) {
    a.t <= b.t
  }

  lemma CoffeeLeTotal()
    ensures TotalPreorder(CoffeeLe)
  {
  }

  /** normalizeCoffeeEvents(es) (prolific_deployment/render/day_app.js:261-269),
      with `es || []` as the Option. */
  function NormalizeCoffee(es: Option<seq<RawCoffee>>): (r: seq<Coffee>)
    ensures SortedBy(r, CoffeeLe)
    ensures multiset(r) == multiset(FilterMap(if es.Some? then es.value else [], ParseCoffee))
  {
    var xs := FilterMap(if es.Some? then es.value else [], ParseCoffee);
    CoffeeLeTotal();
    SortBySorted(xs, CoffeeLe);
    SortBy(xs, CoffeeLe)
  }

  lemma {:induction false} FilterMapMembers<T, U>(s: seq<T>, f: T -> Option<U>)
    ensures forall y :: y in FilterMap(s, f) <==> exists x :: x in s && f(x) == Some(y)
  {
    if s != [] {
      var init := s[..|s| - 1];
      FilterMapMembers(init, f);
      assert forall x :: x in s <==> x in init || x == s[|s| - 1];
    }
  }

  /** The plan sees exactly the entries whose time and amount parse and whose
      amount is positive, each as often as it was logged. */
  lemma NormalizeCoffeeKeeps(es: seq<RawCoffee>)
    ensures forall c :: c in NormalizeCoffee(Some(es)) <==>
      exists e :: e in es && ParseCoffee(e) == Some(c)
    ensures forall c :: c in NormalizeCoffee(Some(es)) ==> c.mg > 0
    ensures NormalizeCoffee(None) == []
  {
    var r := NormalizeCoffee(Some(es));
    var xs := FilterMap(es, ParseCoffee);
    assert multiset(r) == multiset(xs);
    FilterMapMembers(es, ParseCoffee);
    forall c ensures c in r <==> exists e :: e in es && ParseCoffee(e) == Some(c) {
      assert c in r <==> c in multiset(r);
      assert c in xs <==> c in multiset(xs);
    }
    forall c | c in r ensures c.mg > 0 {
      var e :| e in es && ParseCoffee(e) == Some(c);
    }
  }

  // ---------------------------------------------------------------------------
  // buildCoffeePlan

  const CoffeeDailyLimit: int := 3
  const CoffeeSpacingSeconds: int := 3 * 3600
  const CoffeeSleepBufferSeconds: int := 8 * 3600

  datatype CoffeePlan = CoffeePlan(cupsTaken: nat, cupsLeft: nat, sleepTs: int, cutoffTs: int,
                                   nowTs: int, nextSlots: seq<int>)

  function Max(a: int, b: int): int { if a < b then b else a }
  function Min(a: int, b: int): int { if a < b then a else b }

  /** When the next cup may be had: now, or three hours after the last one. */
  function EarliestNext(coffees: seq<Coffee>, nowTs: int): int {
    if coffees == [] then nowTs else Max(nowTs, coffees[|coffees| - 1].t + CoffeeSpacingSeconds)
  }

  /** How many slots three hours apart from `earliest` fit up to `cutoff`,
      allowing no more than `cupsLeft`. */
  function SlotCount(earliest: int, cutoff: int, cupsLeft: nat): nat {
    if earliest > cutoff then 0 else Min(cupsLeft, (cutoff - earliest) / CoffeeSpacingSeconds + 1)
  }

  /** The slots of buildCoffeePlan (prolific_deployment/render/day_app.js:281-298)
      for coffees in time order, with the bedtime `sleepTs` that parseSleepTime
      works out as an input; the caffeine estimates are not modelled. */
  method BuildCoffeePlan(coffees: seq<Coffee>, sleepTs: int, nowTs: int) returns (plan: CoffeePlan)
    ensures plan.cupsTaken == |coffees| && plan.cupsLeft == Max(0, CoffeeDailyLimit - |coffees|)
    ensures plan.sleepTs == sleepTs && plan.nowTs == nowTs
    ensures plan.cutoffTs == sleepTs - CoffeeSleepBufferSeconds
    ensures |plan.nextSlots| <= plan.cupsLeft
    ensures forall k :: 0 <= k < |plan.nextSlots| ==>
      plan.nextSlots[k] == EarliestNext(coffees, nowTs) + k * CoffeeSpacingSeconds &&
      plan.nextSlots[k] <= plan.cutoffTs
    ensures |plan.nextSlots| == plan.cupsLeft ||
      EarliestNext(coffees, nowTs) + |plan.nextSlots| * CoffeeSpacingSeconds > plan.cutoffTs
    ensures |plan.nextSlots| == SlotCount(EarliestNext(coffees, nowTs), plan.cutoffTs, plan.cupsLeft)
  {
    var cupsTaken := |coffees|;
    var cupsLeft := Max(0, CoffeeDailyLimit - cupsTaken);
    var cutoffTs := sleepTs - CoffeeSleepBufferSeconds;
    var earliestNextTs := nowTs;
    if cupsTaken > 0 {
      earliestNextTs := Max(earliestNextTs, coffees[cupsTaken - 1].t + CoffeeSpacingSeconds);
    }
    var nextSlots: seq<int> := [];
    var slotTs := earliestNextTs;
    var i := 0;
    while i < cupsLeft
      invariant 0 <= i <= cupsLeft && |nextSlots| == i
      invariant slotTs == earliestNextTs + i * CoffeeSpacingSeconds
      invariant forall k :: 0 <= k < i ==>
        nextSlots[k] == earliestNextTs + k * CoffeeSpacingSeconds && nextSlots[k] <= cutoffTs
    {
      if slotTs > cutoffTs {
        break;
      }
      nextSlots := nextSlots + [slotTs];
      slotTs := slotTs + CoffeeSpacingSeconds;
      i := i + 1;
    }
    plan := CoffeePlan(cupsTaken, cupsLeft, sleepTs, cutoffTs, nowTs, nextSlots);
    if i > 0 {
      assert nextSlots[i - 1] <= cutoffTs;
    }
    SlotsFitting(earliestNextTs, cutoffTs, cupsLeft, |nextSlots|);
  }

  /** Slots are taken while they fit: once the count is given by where they stop
      fitting, it is the closed form. */
  lemma SlotsFitting(earliest: int, cutoff: int, cupsLeft: nat, n: nat)
    requires n <= cupsLeft
    requires n > 0 ==> earliest + (n - 1) * CoffeeSpacingSeconds <= cutoff
    requires n == cupsLeft || earliest + n * CoffeeSpacingSeconds > cutoff
    ensures n == SlotCount(earliest, cutoff, cupsLeft)
  {
    if earliest <= cutoff {
      var q := (cutoff - earliest) / CoffeeSpacingSeconds;
      assert q * CoffeeSpacingSeconds <= cutoff - earliest < (q + 1) * CoffeeSpacingSeconds;
      assert n <= q + 1;
      assert n < cupsLeft ==> n >= q + 1;
    }
  }

  /** Coffees already at the daily limit leave no cup and no slot. */
  lemma NoSlotsAtLimit(earliest: int, cutoff: int)
    ensures SlotCount(earliest, cutoff, Max(0, CoffeeDailyLimit - 3)) == 0
  {
  }

  // ---------------------------------------------------------------------------
  // statEvents, with the globals ecounts and etypes

  /** The page's globals `ecounts` (titles to credited seconds) and `etypes`
      (the titles in the order first credited). */
  class DayView {
    var ecounts: map<string, int>
    var etypes: seq<string>

    /** `etypes` lists the titles of `ecounts`. */
    ghost predicate Valid()
      reads this
    {
      Listed(ecounts, etypes)
    }

    constructor ()
      ensures Valid() && ecounts == map[] && etypes == []
    {
      ecounts := map[];
      etypes := [];
    }

    /** The body of statEvents' loop for one event of title `tmap` lasting
        `dt` (prolific_deployment/render/day_app.js:661-667), with the first
        duration credited in full. */
    method CreditTitle(tmap: string, dt: int)
      requires Valid()
      modifies this
      ensures Valid()
      ensures ecounts == old(ecounts)[tmap := Lookup(old(ecounts), tmap) + dt]
      ensures etypes == if tmap in old(etypes) then old(etypes) else old(etypes) + [tmap]
    {
      ListedStep(ecounts, etypes, tmap, Lookup(ecounts, tmap) + dt);
      if tmap in ecounts {
        ecounts := ecounts[tmap := ecounts[tmap] + dt];
      } else {
        ecounts := ecounts[tmap := dt];
        etypes := etypes + [tmap];
      }
    }

    /** One pass of that loop (prolific_deployment/render/day_app.js:657-666)
        on event `i`: the previous event's `dt`, then its credit and title. */
    method StatEvent(es: array<WinEvent>, i: int, ghost e0: seq<WinEvent>, ghost c0: map<string, int>,
                     ghost t0: seq<string>)
      requires 1 <= i < es.Length == |e0| && Valid()
      requires es[..] == StampedTo(e0, i - 1) && ecounts == CreditTo(c0, e0, i) && etypes == ListTo(t0, e0, i)
      modifies this, es
      ensures Valid()
      ensures es[..] == StampedTo(e0, i) && ecounts == CreditTo(c0, e0, i + 1) && etypes == ListTo(t0, e0, i + 1)
    {
      var dt, tmap := StampPrevious(es, i, e0);
      CreditTitle(tmap, dt);
    }

    /** statEvents(es) (prolific_deployment/render/day_app.js:652-671): fills
        in every `dt`, credits every event but the last to its title, and
        lists each title the first time it is credited. A title's first
        duration is credited in full (see WindowEvents.CreditAsWritten). */
    method StatEvents(es: array<WinEvent>)
      requires Valid()
      modifies this, es
      ensures Valid()
      ensures es[..] == WithDurations(old(es[..]))
      ensures ecounts == Credit(old(ecounts), old(es[..]))
      ensures etypes == Register(old(etypes), NonFinalTitles(old(es[..])))
    {
      if es.Length == 0 {
        return;
      }
      ghost var e0 := es[..];
      ghost var c0 := ecounts;
      ghost var t0 := etypes;
      var n := es.Length;
      var i := 1;
      while i < n
        invariant 1 <= i <= n
        invariant es[..] == StampedTo(e0, i - 1)
        invariant ecounts == CreditTo(c0, e0, i)
        invariant etypes == ListTo(t0, e0, i)
        invariant Valid()
      {
        StatEvent(es, i, e0, c0, t0);
        i := i + 1;
      }
      ghost var before := es[..];
      es[n - 1] := es[n - 1].(dt := 1);
      assert es[..] == before[n - 1 := e0[n - 1].(dt := 1)];
      assert e0[..i] == e0;
      ListToRegister(t0, e0, i);
      StampedLast(e0);
    }
  }

  /** Counting `etypes` from an empty page: it lists exactly the titles of the
      credited events, each once. */
  lemma StatTitles(es: seq<WinEvent>)
    ensures NoDup(Register([], NonFinalTitles(es)))
    ensures forall x :: x in Register([], NonFinalTitles(es)) <==> x in NonFinalTitles(es)
  {
    RegisterFacts([], NonFinalTitles(es));
  }

  // ---------------------------------------------------------------------------
  // computeFocusTaxStats, the integer counters

  const IgnoredTitles: set<string> := {"Idle", "Locked Screen", "Task Switching"}

  /** An event the focus statistics look at: it has a title and a positive
      duration, and is not idle, locked or task switching. */
  predicate Counted(e: WinEvent) {
    e.m != "" && e.dt > 0 && e.m !in IgnoredTitles
  }

  predicate IsShortHop(e: WinEvent) { e.dt < 120 }
  predicate IsDeepBlock(e: WinEvent) { e.dt >= 1500 }

  function Focused(es: seq<WinEvent>): seq<WinEvent> {
    Filter(es, Counted)
  }

  /** The number of neighbours with different titles. */
  function Switches(fs: seq<WinEvent>): nat {
    if |fs| < 2 then 0
    else Switches(fs[..|fs| - 1]) + (if fs[|fs| - 2].m != fs[|fs| - 1].m then 1 else 0)
  }

  datatype FocusCounts = FocusCounts(activeSeconds: int, switches: nat, shortHops: nat, deepBlocks: nat)

  function FocusOf(es: seq<WinEvent>): FocusCounts {
    var fs := Focused(es);
    FocusCounts(SumDt(fs), Switches(fs), |Filter(fs, IsShortHop)|, |Filter(fs, IsDeepBlock)|)
  }

  /** The integer results of computeFocusTaxStats(es)
      (prolific_deployment/render/day_app.js:84-124, 158-166). */
  method ComputeFocusCounts(es: seq<WinEvent>) returns (stats: FocusCounts)
    ensures stats == FocusOf(es)
  {
    var fs: seq<WinEvent> := [];
    var q := 0;
    while q < |es|
      invariant 0 <= q <= |es|
      invariant fs == Focused(es[..q])
    {
      assert es[..q + 1][..q] == es[..q];
      var e := es[q];
      if e.m == "" || e.dt <= 0 {
      } else if e.m in IgnoredTitles {
      } else {
        fs := fs + [e];
      }
      q := q + 1;
    }
    assert es[..q] == es;

    var activeSeconds := 0;
    var shortHops := 0;
    var deepBlocks := 0;
    var a := 0;
    while a < |fs|
      invariant 0 <= a <= |fs|
      invariant activeSeconds == SumDt(fs[..a])
      invariant shortHops == |Filter(fs[..a], IsShortHop)|
      invariant deepBlocks == |Filter(fs[..a], IsDeepBlock)|
    {
      assert fs[..a + 1][..a] == fs[..a];
      var s := fs[a];
      activeSeconds := activeSeconds + s.dt;
      if s.dt < 120 {
        shortHops := shortHops + 1;
      }
      if s.dt >= 1500 {
        deepBlocks := deepBlocks + 1;
      }
      a := a + 1;
    }
    assert fs[..a] == fs;

    var switches := 0;
    var b := 1;
    while b < |fs|
      invariant fs != [] ==> 1 <= b <= |fs|
      invariant switches == (if fs == [] then 0 else Switches(fs[..b]))
    {
      assert fs[..b + 1][..b] == fs[..b];
      var prev := fs[b - 1];
      var cur := fs[b];
      if prev.m != cur.m {
        switches := switches + 1;
      }
      b := b + 1;
    }
    if fs != [] {
      assert fs[..b] == fs;
    }
    stats := FocusCounts(activeSeconds, switches, shortHops, deepBlocks);
  }

  /** The statistics look at exactly the counted events, in order. */
  lemma FocusedEvents(es: seq<WinEvent>)
    ensures forall i :: 0 <= i < |Focused(es)| ==> Focused(es)[i] in es && Counted(Focused(es)[i])
    ensures forall i :: 0 <= i < |es| && Counted(es[i]) ==> es[i] in Focused(es)
  {
    FilterMember(es, Counted);
  }

  lemma {:induction false} CountedBounds(fs: seq<WinEvent>)
    requires forall i :: 0 <= i < |fs| ==> Counted(fs[i])
    ensures |fs| > 0 ==> Switches(fs) <= |fs| - 1
    ensures |Filter(fs, IsShortHop)| + |Filter(fs, IsDeepBlock)| <= |fs|
    ensures SumDt(fs) >= |fs| + 1499 * |Filter(fs, IsDeepBlock)|
  {
    if fs != [] {
      CountedBounds(fs[..|fs| - 1]);
    }
  }

  /** How the counters bound one another: fewer switches than events, short
      hops and deep blocks never the same event, active time at least a
      second per event and 25 minutes per deep block, and positive exactly
      when some event is counted. */
  lemma FocusBounds(es: seq<WinEvent>)
    ensures var st := FocusOf(es);
      var n := |Focused(es)|;
      (n > 0 ==> st.switches < n) &&
      st.shortHops + st.deepBlocks <= n &&
      st.activeSeconds >= n + 1499 * st.deepBlocks &&
      (st.activeSeconds > 0 <==> n > 0)
  {
    var fs := Focused(es);
    FilterMember(es, Counted);
    CountedBounds(fs);
  }
}
