/** The string handling the Python side relies on: `str.isspace`, `str.strip`,
    the CR/LF sanitiser, `split(" ", 1)`, `int(s)`, `str(n)`, iterating a text
    file line by line, and Python's ordering of strings. */
module Text {
  import opened Wrappers

  /** Python's `str.isspace` for one character. */
  predicate IsSpace(c: char) {
    c == ' ' || ('\t' <= c <= '\r') || ('\U{1C}' <= c <= '\U{1F}') || c == '\U{85}' || c == '\U{A0}'
    || c == '\U{1680}' || ('\U{2000}' <= c <= '\U{200A}') || c == '\U{2028}' || c == '\U{2029}'
    || c == '\U{202F}' || c == '\U{205F}' || c == '\U{3000}'
  }

  predicate AllSpace(s: string) {
    forall k :: 0 <= k < |s| ==> IsSpace(s[k])
  }

  /** Neither end of `s` is whitespace (what `strip` leaves behind). */
  predicate NoEdgeSpace(s: string) {
    s == [] || (!IsSpace(s[0]) && !IsSpace(s[|s| - 1]))
  }

  /** How many whitespace characters `s` starts with. */
  function LeadingSpace(s: string): (n: nat)
    ensures n <= |s|
    ensures forall k :: 0 <= k < n ==> IsSpace(s[k])
    ensures n < |s| ==> !IsSpace(s[n])
  {
    if s == [] || !IsSpace(s[0]) then 0 else 1 + LeadingSpace(s[1..])
  }

  /** Where the whitespace `s` ends with begins. */
  function TrailingSpace(s: string): (n: nat)
    ensures n <= |s|
    ensures forall k :: n <= k < |s| ==> IsSpace(s[k])
    ensures n > 0 ==> !IsSpace(s[n - 1])
  {
    if s == [] || !IsSpace(s[|s| - 1]) then |s| else TrailingSpace(s[..|s| - 1])
  }

  /** `s.strip()`: the text between the leading and the trailing whitespace. */
  function Strip(s: string): (r: string)
    ensures NoEdgeSpace(r)
  {
    var a := LeadingSpace(s);
    var t := s[a..];
    var b := TrailingSpace(t);
    assert b > 0 ==> t[0] == s[a];
    t[..b]
  }

  /** Leading whitespace is skipped over whole. */
  lemma {:induction false} LeadingPadded(pre: string, rest: string)
    requires AllSpace(pre)
    ensures LeadingSpace(pre + rest) == |pre| + LeadingSpace(rest)
    decreases |pre|
  {
    if pre != [] {
      assert (pre + rest)[1..] == pre[1..] + rest;
      LeadingPadded(pre[1..], rest);
    } else {
      assert pre + rest == rest;
    }
  }

  /** Trailing whitespace is skipped over whole. */
  lemma {:induction false} TrailingPadded(rest: string, post: string)
    requires AllSpace(post)
    ensures TrailingSpace(rest + post) == TrailingSpace(rest)
    decreases |post|
  {
    if post != [] {
      var u := rest + post;
      assert u[..|u| - 1] == rest + post[..|post| - 1];
      TrailingPadded(rest, post[..|post| - 1]);
    } else {
      assert rest + post == rest;
    }
  }

  /** `strip` removes exactly the whitespace padding around a core with no edge spaces. */
  lemma StripOf(pre: string, mid: string, post: string)
    requires AllSpace(pre) && AllSpace(post) && NoEdgeSpace(mid)
    ensures Strip(pre + mid + post) == mid
  {
    var u := pre + mid + post;
    assert u == pre + (mid + post);
    LeadingPadded(pre, mid + post);
    if mid == [] {
      assert mid + post == post + [];
      LeadingPadded(post, []);
      assert u[|pre| + |post|..] == [];
    } else {
      assert LeadingSpace(mid + post) == 0;
      assert u[|pre|..] == mid + post;
      TrailingPadded(mid, post);
      assert TrailingSpace(mid) == |mid|;
      assert (mid + post)[..|mid|] == mid;
    }
  }

  /** Stripping a string that is already trimmed gives it back. */
  lemma StripTrimmed(s: string)
    requires NoEdgeSpace(s)
    ensures Strip(s) == s
  {
    StripOf([], s, []);
    assert [] + s + [] == s;
  }

  /** CR and LF replaced by spaces: `.replace("\r", " ").replace("\n", " ")`. */
  function ReplaceLineBreaks(s: string): (r: string)
    ensures |r| == |s|
    ensures forall k :: 0 <= k < |s| ==>
              r[k] == (if s[k] == '\r' || s[k] == '\n' then ' ' else s[k])
  {
    if s == [] then []
    else [if s[0] == '\r' || s[0] == '\n' then ' ' else s[0]] + ReplaceLineBreaks(s[1..])
  }

  predicate NoLineBreak(s: string) {
    forall k :: 0 <= k < |s| ==> s[k] != '\r' && s[k] != '\n'
  }

  /** A string as every sanitiser leaves it: one line, trimmed. */
  predicate Clean(s: string) {
    NoLineBreak(s) && NoEdgeSpace(s)
  }

  /** `str(value).replace("\r", " ").replace("\n", " ").strip()`, the text
      sanitiser shared by the store, the note writer and the collector. */
  function Sanitize(s: string): (r: string)
    ensures Clean(r)
  {
    var u := ReplaceLineBreaks(s);
    var r := Strip(u);
    assert NoLineBreak(u);
    SubstringOfStrip(u);
    r
  }

  /** Strip keeps a one-line string on one line. */
  lemma SubstringOfStrip(s: string)
    requires NoLineBreak(s)
    ensures NoLineBreak(Strip(s))
  {
    var a := LeadingSpace(s);
    var t := s[a..];
    assert forall k :: 0 <= k < |t| ==> t[k] == s[a + k];
  }

  /** Sanitising a clean string changes nothing, so the sanitiser is idempotent. */
  lemma SanitizeClean(s: string)
    requires Clean(s)
    ensures Sanitize(s) == s
  {
    assert ReplaceLineBreaks(s) == s;
    StripTrimmed(s);
  }

  lemma SanitizeIdempotent(s: string)
    ensures Sanitize(Sanitize(s)) == Sanitize(s)
  {
    SanitizeClean(Sanitize(s));
  }

  /** `s.split(" ", 1)`: Some((head, tail)) split at the first space, None when
      the string has no space (a one-element list in Python). */
  function SplitFirstSpace(s: string): (r: Option<(string, string)>)
    ensures r.None? <==> ' ' !in s
    ensures r.Some? ==> s == r.value.0 + " " + r.value.1 && ' ' !in r.value.0
  {
    if s == [] then None
    else if s[0] == ' ' then Some(([], s[1..]))
    else match SplitFirstSpace(s[1..])
         case None => None
         case Some(p) => Some(([s[0]] + p.0, p.1))
  }

  /** Splitting a head without spaces joined to a tail by one space gives them back. */
  lemma {:induction false} SplitJoin(head: string, tail: string)
    requires ' ' !in head
    ensures SplitFirstSpace(head + " " + tail) == Some((head, tail))
  {
    var u := head + " " + tail;
    if head == [] {
      assert u == " " + tail;
      assert u[1..] == tail;
    } else {
      assert u[0] == head[0] && head[0] != ' ';
      assert u[1..] == head[1..] + " " + tail;
      assert forall k :: 0 <= k < |head| - 1 ==> head[1..][k] == head[k + 1];
      SplitJoin(head[1..], tail);
      assert [head[0]] + head[1..] == head;
    }
  }

  predicate IsDigit(c: char) { '0' <= c <= '9' }

  predicate AllDigits(s: string) {
    forall k :: 0 <= k < |s| ==> IsDigit(s[k])
  }

  function DigitValue(c: char): (d: int)
    requires IsDigit(c)
    ensures 0 <= d <= 9
  {
    c as int - '0' as int
  }

  function DigitChar(d: int): (c: char)
    requires 0 <= d <= 9
    ensures IsDigit(c) && DigitValue(c) == d
  {
    ('0' as int + d) as char
  }

  /** The number a string of decimal digits denotes. */
  function DigitsValue(s: string): (n: nat)
    requires AllDigits(s)
  {
    if s == [] then 0 else DigitsValue(s[..|s| - 1]) * 10 + DigitValue(s[|s| - 1])
  }

  /** `str(n)` for n >= 0: decimal digits, no leading zero. */
  function NatToString(n: nat): (s: string)
    ensures |s| >= 1 && AllDigits(s)
    ensures DigitsValue(s) == n
    ensures |s| > 1 ==> s[0] != '0'
  {
    if n < 10 then [DigitChar(n)]
    else
      var s := NatToString(n / 10) + [DigitChar(n % 10)];
      assert s[..|s| - 1] == NatToString(n / 10);
      s
  }

  /** `str(n)` for any integer. */
  function IntToString(n: int): (s: string)
    ensures |s| >= 1 && ' ' !in s && NoEdgeSpace(s) && NoLineBreak(s)
  {
    if n < 0 then "-" + NatToString(-n) else NatToString(n)
  }

  /** `int(s)` on text, for ASCII digits without `_` separators: surrounding
      whitespace allowed, an optional sign, then one or more digits. Only a
      leading '-' gives a negative value. */
  function ParseInt(s: string): (r: Option<int>)
    ensures r.Some? ==> Strip(s) != [] && (IsDigit(Strip(s)[0]) || Strip(s)[0] == '-' || Strip(s)[0] == '+')
    ensures r.Some? ==> forall k :: 1 <= k < |Strip(s)| ==> IsDigit(Strip(s)[k])
    ensures r.Some? && r.value < 0 ==> Strip(s)[0] == '-'
  {
    ParseSignedDigits(Strip(s))
  }

  /** An optional sign followed by one or more ASCII digits, nothing else. */
  function ParseSignedDigits(t: string): Option<int> {
    if |t| >= 2 && (t[0] == '-' || t[0] == '+') && AllDigits(t[1..]) then
      var magnitude: int := DigitsValue(t[1..]);
      Some(if t[0] == '-' then -magnitude else magnitude)
    else if |t| >= 1 && AllDigits(t) then
      Some(DigitsValue(t))
    else None
  }

  /** `int(str(n)) == n`. */
  lemma ParseIntToString(n: int)
    ensures ParseInt(IntToString(n)) == Some(n)
  {
    var s := IntToString(n);
    StripTrimmed(s);
    assert ParseInt(s) == ParseSignedDigits(s);
    if n < 0 {
      SignedNegative(NatToString(-n));
    } else {
      SignedUnsigned(NatToString(n));
    }
  }

  lemma SignedUnsigned(d: string)
    requires |d| >= 1 && AllDigits(d)
    ensures ParseSignedDigits(d) == Some(DigitsValue(d))
  {
    assert IsDigit(d[0]);
  }

  lemma SignedNegative(d: string)
    requires |d| >= 1 && AllDigits(d)
    ensures ParseSignedDigits("-" + d) == Some(0 - DigitsValue(d))
  {
    var s := "-" + d;
    assert s[0] == '-' && s[1..] == d;
  }

  /** Decimal digits never include a space, a sign or a line break. */
  lemma DigitsAreNotSpace(s: string)
    requires AllDigits(s)
    ensures ' ' !in s && NoLineBreak(s)
  {
    assert forall k :: 0 <= k < |s| ==> s[k] != ' ';
  }

  /** The lines a text-mode file yields: each line keeps its '\n'; a last line
      without one is yielded as it stands. */
  function Lines(s: string): (ls: seq<string>)
    ensures |ls| <= |s|
    decreases |s|
  {
    if s == [] then [] else
      var k := LineLength(s);
      [s[..k]] + Lines(s[k..])
  }

  /** The lines join back to the text: nothing is dropped or reordered. */
  lemma {:induction false} LinesConcat(s: string)
    ensures Concat(Lines(s)) == s
    decreases |s|
  {
    if s != [] {
      var k := LineLength(s);
      LinesConcat(s[k..]);
      var ls := Lines(s);
      assert ls == [s[..k]] + Lines(s[k..]);
      assert ls[0] == s[..k] && ls[1..] == Lines(s[k..]);
      assert Concat(ls) == s[..k] + Concat(Lines(s[k..]));
      assert s[..k] + s[k..] == s;
    }
  }

  /** Every line but the last is a whole line, and the last is non-empty
      with no '\n' before its end. */
  lemma {:induction false} LinesShape(s: string)
    ensures var ls := Lines(s);
      (forall i :: 0 <= i < |ls| - 1 ==> IsLine(ls[i])) &&
      (ls != [] ==> ls[|ls| - 1] != [] && '\n' !in ls[|ls| - 1][..|ls[|ls| - 1]| - 1])
    decreases |s|
  {
    if s != [] {
      var k := LineLength(s);
      LinesShape(s[k..]);
      var ls := Lines(s);
      assert ls == [s[..k]] + Lines(s[k..]);
      if s[k..] != [] {
        assert s[k - 1] == '\n';
        assert IsLine(ls[0]);
      }
    }
  }

  /** The lines joined back together. */
  function Concat(ls: seq<string>): string {
    if ls == [] then [] else ls[0] + Concat(ls[1..])
  }

  /** Length of the first line of `s`, its '\n' included. */
  function LineLength(s: string): (k: nat)
    requires s != []
    ensures 1 <= k <= |s|
    ensures forall j :: 0 <= j < k - 1 ==> s[j] != '\n'
    ensures s[k - 1] == '\n' || k == |s|
  {
    if s[0] == '\n' || |s| == 1 then 1 else 1 + LineLength(s[1..])
  }

  /** One line of a file: text without '\n' that ends with '\n'. */
  predicate IsLine(line: string) {
    |line| >= 1 && line[|line| - 1] == '\n' && forall j :: 0 <= j < |line| - 1 ==> line[j] != '\n'
  }

  /** A file whose text is empty or ends with a line break. */
  predicate EndsWithLineBreak(s: string) {
    s == [] || s[|s| - 1] == '\n'
  }

  /** Appending one line to a file adds exactly that line to what a reader sees. */
  lemma {:induction false} LinesAppend(s: string, line: string)
    requires EndsWithLineBreak(s) && IsLine(line)
    ensures Lines(s + line) == Lines(s) + [line]
    decreases |s|
  {
    if s == [] {
      assert s + line == line;
      LineLengthOfLine(line);
      assert line[..|line|] == line && line[|line|..] == [];
    } else {
      var k := LineLength(s);
      LinesFirstLine(s, line);
      LinesAppend(s[k..], line);
    }
  }

  /** Appending after a non-empty file leaves its first line alone. */
  lemma LinesFirstLine(s: string, line: string)
    requires s != [] && EndsWithLineBreak(s)
    ensures var k := LineLength(s);
      Lines(s + line) == [s[..k]] + Lines(s[k..] + line) && EndsWithLineBreak(s[k..])
  {
    var u := s + line;
    var k := LineLength(s);
    LineLengthPrefix(s, line);
    assert u[..k] == s[..k];
    assert u[k..] == s[k..] + line;
    var rest := s[k..];
    if rest != [] { assert rest[|rest| - 1] == s[|s| - 1]; }
  }

  lemma {:induction false} LineLengthOfLine(line: string)
    requires IsLine(line)
    ensures LineLength(line) == |line|
    decreases |line|
  {
    if |line| > 1 {
      assert line[0] != '\n';
      var tail := line[1..];
      assert IsLine(tail) by {
        assert tail[|tail| - 1] == line[|line| - 1];
        forall j | 0 <= j < |tail| - 1 ensures tail[j] != '\n' {
          assert tail[j] == line[j + 1];
        }
      }
      LineLengthOfLine(tail);
    }
  }

  lemma {:induction false} LineLengthPrefix(s: string, t: string)
    requires s != [] && EndsWithLineBreak(s)
    ensures LineLength(s + t) == LineLength(s)
    decreases |s|
  {
    if s[0] != '\n' && |s| > 1 {
      assert (s + t)[1..] == s[1..] + t;
      LineLengthPrefix(s[1..], t);
    }
  }

  /** Python's `<` on strings: lexicographic by code point. */
  predicate StrLess(a: string, b: string) {
    if a == [] then b != []
    else if b == [] then false
    else if a[0] != b[0] then a[0] < b[0]
    else StrLess(a[1..], b[1..])
  }

  /** `a <= b` on strings. */
  predicate StrLessEq(a: string, b: string) {
    a == b || StrLess(a, b)
  }

  lemma {:induction false} StrLessIrreflexive(a: string)
    ensures !StrLess(a, a)
  {
    if a != [] { StrLessIrreflexive(a[1..]); }
  }

  lemma {:induction false} StrLessTransitive(a: string, b: string, c: string)
    requires StrLess(a, b) && StrLess(b, c)
    ensures StrLess(a, c)
  {
    if a != [] && b != [] && c != [] && a[0] == b[0] && b[0] == c[0] {
      StrLessTransitive(a[1..], b[1..], c[1..]);
    }
  }

  lemma {:induction false} StrLessTotal(a: string, b: string)
    ensures a == b || StrLess(a, b) || StrLess(b, a)
  {
    if a != [] && b != [] && a[0] == b[0] {
      StrLessTotal(a[1..], b[1..]);
      if a[1..] == b[1..] {
        assert a == [a[0]] + a[1..] && b == [b[0]] + b[1..];
      }
    }
  }
}
