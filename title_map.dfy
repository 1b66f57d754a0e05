/** render/render_settings.js: `mapwin`, which maps a window title to a
    display category by the last rule of `title_mappings` whose pattern the
    title matches. Each case-insensitive regex is an abstract predicate; the
    two literal markers the collector writes are modelled as substring tests. */
module TitleMap {
  import opened Text
  import opened Collector

  /** One entry `{pattern, mapto}` of `title_mappings`. */
  datatype Rule = Rule(matches: string -> bool, mapto: string)

  const Misc: string := "MISC"

  /** The category of `w`: the `mapto` of the last rule that matches, or
      'MISC' when none does. */
  function LastMatch(rules: seq<Rule>, w: string): string {
    if rules == [] then Misc
    else if rules[|rules| - 1].matches(w) then rules[|rules| - 1].mapto
    else LastMatch(rules[..|rules| - 1], w)
  }

  /** mapwin (render/render_settings.js:27-37). */
  method MapWin(rules: seq<Rule>, w: string) returns (mappedTitle: string)
    ensures mappedTitle == LastMatch(rules, w)
  {
    var n := |rules|;
    mappedTitle := Misc;
    var i := 0;
    while i < n
      invariant 0 <= i <= n
      invariant mappedTitle == LastMatch(rules[..i], w)
    {
      assert rules[..i + 1][..i] == rules[..i];
      var patmap := rules[i];
      if patmap.matches(w) {
        mappedTitle := patmap.mapto;
      }
      i := i + 1;
    }
    assert rules[..i] == rules;
  }

  /** The category is 'MISC' with no rule matching, or else the `mapto` of a
      matching rule that no later rule overrides. */
  lemma {:induction false} LastMatchIs(rules: seq<Rule>, w: string)
    ensures (forall k :: 0 <= k < |rules| ==> !rules[k].matches(w)) ==> LastMatch(rules, w) == Misc
    ensures (exists k :: 0 <= k < |rules| && rules[k].matches(w)) ==>
      exists k :: 0 <= k < |rules| && rules[k].matches(w) && LastMatch(rules, w) == rules[k].mapto &&
        forall j :: k < j < |rules| ==> !rules[j].matches(w)
  {
    if rules != [] {
      var init := rules[..|rules| - 1];
      LastMatchIs(init, w);
      assert forall k :: 0 <= k < |init| ==> init[k] == rules[k];
      if !rules[|rules| - 1].matches(w) && exists k :: 0 <= k < |rules| && rules[k].matches(w) {
        var k :| 0 <= k < |rules| && rules[k].matches(w);
        assert init[k].matches(w);
      }
    }
  }

  /** When several rules match, the last of them decides. */
  lemma LaterRuleOverrides(rules: seq<Rule>, w: string, k: int)
    requires 0 <= k < |rules| && rules[k].matches(w)
    requires forall j :: k < j < |rules| ==> !rules[j].matches(w)
    ensures LastMatch(rules, w) == rules[k].mapto
  {
    LastMatchIs(rules, w);
    var k' :| 0 <= k' < |rules| && rules[k'].matches(w) && LastMatch(rules, w) == rules[k'].mapto &&
      forall j :: k' < j < |rules| ==> !rules[j].matches(w);
    assert k' == k;
  }

  /** The category is 'MISC' or some rule's `mapto`. */
  lemma {:induction false} LastMatchRange(rules: seq<Rule>, w: string)
    ensures LastMatch(rules, w) == Misc || exists k :: 0 <= k < |rules| && LastMatch(rules, w) == rules[k].mapto
  {
    if rules != [] && !rules[|rules| - 1].matches(w) {
      var init := rules[..|rules| - 1];
      LastMatchRange(init, w);
      if LastMatch(init, w) != Misc {
        var k :| 0 <= k < |init| && LastMatch(init, w) == init[k].mapto;
        assert rules[k] == init[k];
      }
    }
  }

  // ---------------------------------------------------------------------------
  // The shipped table

  /** `pattern` occurs in `w`: a regex without metacharacters or flags. */
  predicate Contains(w: string, pattern: string) {
    pattern <= w || (w != [] && Contains(w[1..], pattern))
  }

  function ContainsRule(pattern: string, mapto: string): Rule {
    Rule(w => Contains(w, pattern), mapto)
  }

  const IdleCategory: string := "Idle"
  const LockedCategory: string := "Locked Screen"

  /** The `mapto` values of the first 19 rules, in table order
      (render/render_settings.js:4-22). */
  const Categories: seq<string> := [
    "Browser", "VSCode", "Cursor", "JetBrains", "CAD / Design", "Terminal", "Notebook",
    "Dev Research", "Planning", "File Explorer", "Utility", "Downloads", "OBS", "Media",
    "Games", "Social", "AI Research", "VSCode Coding", "Task Switching"]

  /** title_mappings (render/render_settings.js:3-25), given the first 19
      case-insensitive patterns as predicates. */
  function TitleMappings(patterns: seq<string -> bool>): (rules: seq<Rule>)
    requires |patterns| == |Categories|
    ensures |rules| == |Categories| + 2
    ensures rules[|rules| - 2].mapto == IdleCategory && rules[|rules| - 1].mapto == LockedCategory
  {
    seq(|Categories|, k requires 0 <= k < |Categories| => Rule(patterns[k], Categories[k])) +
    [ContainsRule(IdleTitle, IdleCategory), ContainsRule(LockedTitle, LockedCategory)]
  }

  /** A title containing `__LOCKEDSCREEN` is always 'Locked Screen': that
      rule comes last. */
  lemma LockedScreenLast(patterns: seq<string -> bool>, w: string)
    requires |patterns| == |Categories|
    requires Contains(w, LockedTitle)
    ensures LastMatch(TitleMappings(patterns), w) == LockedCategory
  {
  }

  /** A title containing `__IDLE__` but not `__LOCKEDSCREEN` is 'Idle'. */
  lemma IdleSecondToLast(patterns: seq<string -> bool>, w: string)
    requires |patterns| == |Categories|
    requires Contains(w, IdleTitle) && !Contains(w, LockedTitle)
    ensures LastMatch(TitleMappings(patterns), w) == IdleCategory
  {
    var rules := TitleMappings(patterns);
    assert rules[..|rules| - 1][|rules| - 2] == rules[|rules| - 2];
  }

  /** Whatever the other patterns, a window line written while the user was
      idle shows as 'Idle' and one written with no foreground window as
      'Locked Screen'. */
  lemma SnapshotCategories(patterns: seq<string -> bool>, idleMs: int, fg: Foreground)
    requires |patterns| == |Categories|
    ensures IsIdle(idleMs) ==>
      LastMatch(TitleMappings(patterns), WindowPayload(ActiveWindowSnapshot(idleMs, fg))) == IdleCategory
    ensures !IsIdle(idleMs) && fg.hwnd == 0 ==>
      LastMatch(TitleMappings(patterns), WindowPayload(ActiveWindowSnapshot(idleMs, fg))) == LockedCategory
  {
    if IsIdle(idleMs) {
      var w := WindowPayload(ActiveWindowSnapshot(idleMs, fg));
      assert w == IdleTitle + " (idle)";
      PrefixContains(IdleTitle, " (idle)");
      assert !Contains(w, LockedTitle) by {
        assert w[2] != LockedTitle[2] && w[1..][2] != LockedTitle[2];
        assert w[1..][1..] == w[2..];
        NotContained(w[2..], LockedTitle);
      }
      IdleSecondToLast(patterns, w);
    } else if fg.hwnd == 0 {
      var w := WindowPayload(ActiveWindowSnapshot(idleMs, fg));
      assert w == LockedTitle + " (" + UnknownProcess + ")";
      PrefixContains(LockedTitle, " (" + UnknownProcess + ")");
      assert LockedTitle + (" (" + UnknownProcess + ")") == w;
      LockedScreenLast(patterns, w);
    }
  }

  lemma PrefixContains(p: string, rest: string)
    ensures Contains(p + rest, p)
  {
    assert p <= p + rest;
  }

  /** A pattern longer than every suffix it could start at does not occur. */
  lemma {:induction false} NotContained(w: string, pattern: string)
    requires |w| < |pattern|
    ensures !Contains(w, pattern)
  {
    if w != [] {
      NotContained(w[1..], pattern);
    }
  }
}
