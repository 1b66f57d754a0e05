/** The flat log files: their kinds, the `<kind>_<t0>.txt` naming scheme, the
    glob patterns and the `LOG_NAME_RE` regular expression that recognise them
    (storage.py and export_events.py share both), and the discovery of day
    stamps from a directory listing. */
module LogFiles {
  import opened Wrappers
  import opened Text
  import opened Sorting

  datatype Kind = Window | Keyfreq | Notes | Blog

  function KindName(k: Kind): string {
    match k
    case Window => "window"
    case Keyfreq => "keyfreq"
    case Notes => "notes"
    case Blog => "blog"
  }

  /** The order of the glob patterns: `window_*.txt`, `keyfreq_*.txt`, `notes_*.txt`, `blog_*.txt`. */
  const PatternKinds: seq<Kind> := [Window, Keyfreq, Notes, Blog]

  function Prefix(k: Kind): string {
    KindName(k) + "_"
  }

  predicate HasPrefix(s: string, p: string) {
    |p| <= |s| && s[..|p|] == p
  }

  predicate HasSuffix(s: string, p: string) {
    |p| <= |s| && s[|s| - |p|..] == p
  }

  /** `fnmatch(name, "<kind>_*.txt")`: the prefix, then anything, then `.txt`. */
  predicate GlobMatch(k: Kind, name: string): (b: bool)
    ensures b ==> KindOfName(name) == Some(k)
  {
    if HasPrefix(name, Prefix(k)) then
      KindOfNameUnique(k, name);
      |Prefix(k)| + 4 <= |name| && HasSuffix(name, ".txt")
    else false
  }

  /** What a successful `LOG_NAME_RE.match(name)` captures: the kind, the digit
      run, and whether the name carried the one trailing line break that
      Python's `$` lets through. */
  datatype LogName = LogName(kind: Kind, digits: string, trailingBreak: bool)

  predicate ValidLogName(n: LogName) {
    |n.digits| >= 1 && AllDigits(n.digits)
  }

  /** The text a captured name was matched in. */
  function RenderLogName(n: LogName): string {
    Prefix(n.kind) + n.digits + ".txt" + (if n.trailingBreak then "\n" else "")
  }

  /** The day stamp the name carries: `int(match.group(2))`. */
  function NameStamp(n: LogName): nat
    requires ValidLogName(n)
  {
    DigitsValue(n.digits)
  }

  /** The kind whose `<kind>_` the name starts with, if any. */
  function KindOfName(name: string): (r: Option<Kind>)
    ensures r.Some? ==> HasPrefix(name, Prefix(r.value))
  {
    if HasPrefix(name, Prefix(Window)) then Some(Window)
    else if HasPrefix(name, Prefix(Keyfreq)) then Some(Keyfreq)
    else if HasPrefix(name, Prefix(Notes)) then Some(Notes)
    else if HasPrefix(name, Prefix(Blog)) then Some(Blog)
    else None
  }

  /** `^(window|keyfreq|notes|blog)_(\d+)\.txt$` applied to a base name. */
  function ParseLogName(name: string): (r: Option<LogName>)
    ensures r.Some? ==> ValidLogName(r.value) && RenderLogName(r.value) == name
  {
    match KindOfName(name)
    case None => None
    case Some(k) =>
      var rest := name[|Prefix(k)|..];
      assert name == Prefix(k) + rest;
      var r := ParseStampPart(k, rest);
      if r.Some? then
        RenderSplit(r.value);
        r
      else r
  }

  lemma RenderSplit(n: LogName)
    ensures RenderLogName(n) == Prefix(n.kind) + (n.digits + ".txt" + (if n.trailingBreak then "\n" else ""))
  {
  }

  /** The `(\d+)\.txt$` part, after the kind and its underscore. */
  function ParseStampPart(k: Kind, rest: string): (r: Option<LogName>)
    ensures r.Some? ==> ValidLogName(r.value) && r.value.kind == k
    ensures r.Some? ==> rest == r.value.digits + ".txt" + (if r.value.trailingBreak then "\n" else "")
  {
    if |rest| >= 6 && rest[|rest| - 5..] == ".txt\n" && AllDigits(rest[..|rest| - 5]) then
      var d := rest[..|rest| - 5];
      assert rest == d + rest[|rest| - 5..];
      Some(LogName(k, d, true))
    else if |rest| >= 5 && rest[|rest| - 4..] == ".txt" && AllDigits(rest[..|rest| - 4]) then
      var d := rest[..|rest| - 4];
      assert rest == d + rest[|rest| - 4..];
      Some(LogName(k, d, false))
    else None
  }

  /** A name that both the glob and the regular expression accept. */
  predicate IsLogFileName(k: Kind, name: string) {
    GlobMatch(k, name) && ParseLogName(name).Some?
  }

  /** The name a writer gives a day's file: `f"{prefix}_{day_stamp}.txt"`. */
  function LogFileName(k: Kind, t0: int): string {
    KindName(k) + "_" + IntToString(t0) + ".txt"
  }

  /** `os.path.join(dir, name)` for a directory not ending in a separator. */
  function JoinPath(dir: string, name: string): string {
    dir + "/" + name
  }

  /** `LOG_DIR`, the directory every writer and reader of the flat logs uses. */
  const LogDir: string := "logs"

  /** `os.path.join(LOG_DIR, f"{prefix}_{day_stamp}.txt")`: the file of day `t0`. */
  function DayFilePath(k: Kind, t0: int): string {
    JoinPath(LogDir, LogFileName(k, t0))
  }

  /** Only one kind's prefix can start a name: the four prefixes differ in their first letter. */
  lemma KindOfNameUnique(k: Kind, name: string)
    requires HasPrefix(name, Prefix(k))
    ensures KindOfName(name) == Some(k)
  {
    assert name[0] == Prefix(k)[0];
    forall j: Kind | j != k ensures !HasPrefix(name, Prefix(j)) {
      assert Prefix(j)[0] != Prefix(k)[0];
    }
  }

  /** The regular expression accepts exactly the renderings of valid captures:
      parsing a rendered name gives the capture back. */
  lemma ParseRender(n: LogName)
    requires ValidLogName(n)
    ensures ParseLogName(RenderLogName(n)) == Some(n)
  {
    var k := n.kind;
    var tail := n.digits + ".txt" + (if n.trailingBreak then "\n" else "");
    var name := RenderLogName(n);
    assert name == Prefix(k) + tail;
    assert name[..|Prefix(k)|] == Prefix(k);
    KindOfNameUnique(k, name);
    assert name[|Prefix(k)|..] == tail;
    StampPartRender(n);
  }

  lemma StampPartRender(n: LogName)
    requires ValidLogName(n)
    ensures ParseStampPart(n.kind, n.digits + ".txt" + (if n.trailingBreak then "\n" else "")) == Some(n)
  {
    if n.trailingBreak {
      StampPartBreak(n.kind, n.digits);
    } else {
      StampPartPlain(n.kind, n.digits);
    }
  }

  lemma StampPartBreak(k: Kind, d: string)
    requires |d| >= 1 && AllDigits(d)
    ensures ParseStampPart(k, d + ".txt" + "\n") == Some(LogName(k, d, true))
  {
    var rest := d + ".txt" + "\n";
    assert |rest| == |d| + 5;
    assert rest[..|rest| - 5] == d;
    assert rest[|rest| - 5..] == ".txt\n";
  }

  lemma StampPartPlain(k: Kind, d: string)
    requires |d| >= 1 && AllDigits(d)
    ensures ParseStampPart(k, d + ".txt" + "") == Some(LogName(k, d, false))
  {
    var rest := d + ".txt" + "";
    assert |rest| == |d| + 4;
    assert rest[|rest| - 1] == 't' != '\n';
    assert rest[..|rest| - 4] == d;
    assert rest[|rest| - 4..] == ".txt";
  }

  /** The glob pattern rules out the trailing line break that the regular
      expression alone would let through. */
  lemma GlobExcludesTrailingBreak(k: Kind, name: string)
    requires IsLogFileName(k, name)
    ensures !ParseLogName(name).value.trailingBreak
    ensures ParseLogName(name).value.kind == k
  {
    var n := ParseLogName(name).value;
    assert name[|name| - 1] == 't';
    KindOfNameUnique(k, name);
  }

  /** A day file named by a writer is found again by the readers, with its day stamp. */
  lemma LogFileNameRoundTrip(k: Kind, t0: nat)
    ensures IsLogFileName(k, LogFileName(k, t0))
    ensures ParseLogName(LogFileName(k, t0)) == Some(LogName(k, NatToString(t0), false))
    ensures NameStamp(ParseLogName(LogFileName(k, t0)).value) == t0
  {
    var n := LogName(k, NatToString(t0), false);
    var name := LogFileName(k, t0);
    assert RenderLogName(n) == name;
    ParseRender(n);
    assert name == Prefix(k) + NatToString(t0) + ".txt";
    assert name[|name| - 4..] == ".txt";
    assert name[..|Prefix(k)|] == Prefix(k);
  }

  /** The stamp a name contributes under one glob pattern, if it is that kind's log file. */
  function StampOf(k: Kind, name: string): Option<int> {
    if IsLogFileName(k, name) then Some(NameStamp(ParseLogName(name).value)) else None
  }

  /** The values `f` yields over a listing, as a set. */
  function Harvest(f: string -> Option<int>, names: seq<string>): set<int> {
    if names == [] then {}
    else
      var last := names[|names| - 1];
      Harvest(f, names[..|names| - 1]) + (if f(last).Some? then {f(last).value} else {})
  }

  lemma {:induction false} HarvestMember(f: string -> Option<int>, names: seq<string>, t: int)
    ensures t in Harvest(f, names) <==> exists i :: 0 <= i < |names| && f(names[i]) == Some(t)
  {
    if names != [] {
      var init := names[..|names| - 1];
      HarvestMember(f, init, t);
      if exists i :: 0 <= i < |init| && f(init[i]) == Some(t) {
        var i :| 0 <= i < |init| && f(init[i]) == Some(t);
        assert names[i] == init[i];
      }
      if exists i :: 0 <= i < |names| && f(names[i]) == Some(t) {
        var i :| 0 <= i < |names| && f(names[i]) == Some(t);
        if i < |init| { assert init[i] == names[i]; }
      }
    }
  }

  /** The day stamps that one glob pattern contributes, `g` telling the stamp of a name. */
  function KindStamps(g: (Kind, string) -> Option<int>, k: Kind, names: seq<string>): set<int> {
    Harvest(name => g(k, name), names)
  }

  /** The stamps of the first `p` glob patterns. */
  function PatternStamps(g: (Kind, string) -> Option<int>, p: nat, names: seq<string>): set<int>
    requires p <= |PatternKinds|
  {
    if p == 0 then {} else PatternStamps(g, p - 1, names) + KindStamps(g, PatternKinds[p - 1], names)
  }

  /** The day stamps of all four patterns. */
  function AllStamps(names: seq<string>): set<int> {
    PatternStamps(StampOf, |PatternKinds|, names)
  }

  /** collect_timestamps (export_events.py:52-64): every pattern is globbed in
      turn, matching names add their stamp to a set, and the set is returned
      sorted. */
  method CollectTimestamps(names: seq<string>) returns (stamps: seq<int>)
    ensures stamps == SortedElements(AllStamps(names))
  {
    var found: set<int> := {};
    var p := 0;
    while p < |PatternKinds|
      invariant 0 <= p <= |PatternKinds|
      invariant found == PatternStamps(StampOf, p, names)
    {
      var k := PatternKinds[p];
      var i := 0;
      while i < |names|
        invariant 0 <= i <= |names|
        invariant found == PatternStamps(StampOf, p, names) + KindStamps(StampOf, k, names[..i])
      {
        assert names[..i + 1][..i] == names[..i];
        var st := StampOf(k, names[i]);
        if st.Some? {
          found := found + {st.value};
        }
        i := i + 1;
      }
      assert names[..i] == names;
      p := p + 1;
    }
    stamps := SortedElements(found);
  }

  /** Membership in the four patterns' union, for any stamp function. */
  lemma PatternStampsMember(g: (Kind, string) -> Option<int>, names: seq<string>, t: int)
    ensures t in PatternStamps(g, |PatternKinds|, names) <==>
      exists k: Kind, i :: 0 <= i < |names| && g(k, names[i]) == Some(t)
  {
    var u := PatternStamps(g, |PatternKinds|, names);
    assert PatternStamps(g, 1, names) == KindStamps(g, Window, names);
    assert PatternStamps(g, 2, names) == PatternStamps(g, 1, names) + KindStamps(g, Keyfreq, names);
    assert PatternStamps(g, 3, names) == PatternStamps(g, 2, names) + KindStamps(g, Notes, names);
    assert u == KindStamps(g, Window, names) + KindStamps(g, Keyfreq, names)
                + KindStamps(g, Notes, names) + KindStamps(g, Blog, names);
    forall k: Kind ensures t in KindStamps(g, k, names) <==> exists i :: 0 <= i < |names| && g(k, names[i]) == Some(t) {
      HarvestMember(name => g(k, name), names, t);
    }
    if exists k: Kind, i :: 0 <= i < |names| && g(k, names[i]) == Some(t) {
      var k: Kind, i :| 0 <= i < |names| && g(k, names[i]) == Some(t);
      assert t in KindStamps(g, k, names);
      match k
      case Window => assert t in u;
      case Keyfreq => assert t in u;
      case Notes => assert t in u;
      case Blog => assert t in u;
    }
    if t in u {
      var k: Kind :=
        if t in KindStamps(g, Window, names) then Window
        else if t in KindStamps(g, Keyfreq, names) then Keyfreq
        else if t in KindStamps(g, Notes, names) then Notes
        else Blog;
      assert t in KindStamps(g, k, names);
      var i :| 0 <= i < |names| && g(k, names[i]) == Some(t);
    }
  }

  /** A stamp is collected exactly when some listed name is a log file of some kind carrying it. */
  lemma CollectedStamp(names: seq<string>, t: int)
    ensures t in SortedElements(AllStamps(names)) <==>
      exists k: Kind, i :: 0 <= i < |names| && StampOf(k, names[i]) == Some(t)
  {
    PatternStampsMember(StampOf, names, t);
  }
}
