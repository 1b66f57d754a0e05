/** The legacy flat-log importer of storage.py: finding the day files in the
    log directory (`_legacy_file_records`) and classifying the lines of one file
    the way `_import_legacy_event_file` does. */
module LegacyImport {
  import opened Wrappers
  import opened Text
  import opened Sorting
  import opened DayBoundary
  import opened LogFiles

  /** What `os.stat` and a full read tell about one file. */
  datatype FileData = FileData(content: string, mtime: int, size: int)

  /** One entry of the log directory. */
  datatype DirEntry = DirEntry(name: string, file: FileData)

  /** `(kind, day_t0, abspath)`, with the file's data as it was when listed. */
  datatype LegacyRecord = LegacyRecord(kind: Kind, dayT0: int, path: string, file: FileData)

  /** The files the four glob patterns yield, pattern by pattern. */
  function GlobbedFiles(listing: seq<DirEntry>): seq<DirEntry> {
    GlobbedUpTo(|PatternKinds|, listing)
  }

  function GlobbedUpTo(p: nat, listing: seq<DirEntry>): seq<DirEntry>
    requires p <= |PatternKinds|
  {
    if p == 0 then [] else GlobbedUpTo(p - 1, listing) + GlobOne(PatternKinds[p - 1], listing)
  }

  /** `glob.glob(os.path.join(logs_dir, "<kind>_*.txt"))`. */
  function GlobOne(k: Kind, listing: seq<DirEntry>): (r: seq<DirEntry>)
    ensures forall e :: e in r ==> e in listing && GlobMatch(k, e.name)
  {
    if listing == [] then []
    else
      var last := listing[|listing| - 1];
      GlobOne(k, listing[..|listing| - 1]) + (if GlobMatch(k, last.name) then [last] else [])
  }

  /** The records of the globbed files that LOG_NAME_RE accepts, in glob order. */
  function MatchedRecords(dir: string, files: seq<DirEntry>): seq<LegacyRecord> {
    if files == [] then []
    else
      var last := files[|files| - 1];
      MatchedRecords(dir, files[..|files| - 1]) +
        match ParseLogName(last.name)
        case None => []
        case Some(n) => [LegacyRecord(n.kind, NameStamp(n), JoinPath(dir, last.name), last.file)]
  }

  /** `key=lambda x: x[2]`: ordering by absolute path. */
  function PathLe(a: LegacyRecord, b: LegacyRecord): bool {
    StrLessEq(a.path, b.path)
  }

  lemma PathLeTotalPreorder()
    ensures TotalPreorder(PathLe)
  {
    forall a: LegacyRecord, b: LegacyRecord ensures PathLe(a, b) || PathLe(b, a) {
      StrLessTotal(a.path, b.path);
    }
    forall a: LegacyRecord, b: LegacyRecord, c: LegacyRecord | PathLe(a, b) && PathLe(b, c)
      ensures PathLe(a, c)
    {
      if a.path != b.path && b.path != c.path {
        StrLessTransitive(a.path, b.path, c.path);
      }
    }
  }

  /** _legacy_file_records (storage.py:225-238): glob, match, sort by path. */
  method LegacyFileRecords(dir: string, listing: seq<DirEntry>) returns (records: seq<LegacyRecord>)
    ensures records == SortBy(MatchedRecords(dir, GlobbedFiles(listing)), PathLe)
    ensures SortedBy(records, PathLe)
  {
    var files := GlobFiles(listing);
    var found := MatchFiles(dir, files);
    records := SortBy(found, PathLe);
    PathLeTotalPreorder();
    SortBySorted(found, PathLe);
  }

  /** storage.py:226-228: `files.extend(glob.glob(...))` for each pattern in turn. */
  method GlobFiles(listing: seq<DirEntry>) returns (files: seq<DirEntry>)
    ensures files == GlobbedFiles(listing)
  {
    files := [];
    var p := 0;
    while p < |PatternKinds|
      invariant 0 <= p <= |PatternKinds|
      invariant files == GlobbedUpTo(p, listing)
    {
      var k := PatternKinds[p];
      var i := 0;
      while i < |listing|
        invariant 0 <= i <= |listing|
        invariant files == GlobbedUpTo(p, listing) + GlobOne(k, listing[..i])
      {
        assert listing[..i + 1][..i] == listing[..i];
        if GlobMatch(k, listing[i].name) {
          files := files + [listing[i]];
        }
        i := i + 1;
      }
      assert listing[..i] == listing;
      p := p + 1;
    }
  }

  /** storage.py:229-237: keep the files whose base name LOG_NAME_RE accepts. */
  method MatchFiles(dir: string, files: seq<DirEntry>) returns (found: seq<LegacyRecord>)
    ensures found == MatchedRecords(dir, files)
  {
    found := [];
    var j := 0;
    while j < |files|
      invariant 0 <= j <= |files|
      invariant found == MatchedRecords(dir, files[..j])
    {
      assert files[..j + 1][..j] == files[..j];
      var name := files[j].name;
      match ParseLogName(name) {
        case None =>
        case Some(n) =>
          found := found + [LegacyRecord(n.kind, NameStamp(n), JoinPath(dir, name), files[j].file)];
      }
      j := j + 1;
    }
    assert files[..j] == files;
  }

  /** Every matched record comes from a listed file whose name the glob and the
      regular expression accept, and carries that name's kind, stamp and path. */
  lemma {:induction false} MatchedRecordsFrom(dir: string, files: seq<DirEntry>, r: LegacyRecord)
    requires r in MatchedRecords(dir, files)
    ensures exists e :: (e in files && ParseLogName(e.name).Some? &&
      r == LegacyRecord(ParseLogName(e.name).value.kind, NameStamp(ParseLogName(e.name).value),
                        JoinPath(dir, e.name), e.file))
  {
    var init := files[..|files| - 1];
    var last := files[|files| - 1];
    if r in MatchedRecords(dir, init) {
      MatchedRecordsFrom(dir, init, r);
      var e :| e in init && ParseLogName(e.name).Some? &&
        r == LegacyRecord(ParseLogName(e.name).value.kind, NameStamp(ParseLogName(e.name).value),
                          JoinPath(dir, e.name), e.file);
      assert e in files;
    } else {
      assert last in files;
    }
  }

  /** Each record names a listed file that one of the glob patterns matched. */
  lemma RecordFromListing(dir: string, listing: seq<DirEntry>, r: LegacyRecord)
    requires r in SortBy(MatchedRecords(dir, GlobbedFiles(listing)), PathLe)
    ensures exists e, k :: (e in listing && IsLogFileName(k, e.name) &&
      r == LegacyRecord(k, NameStamp(ParseLogName(e.name).value), JoinPath(dir, e.name), e.file))
  {
    var files := GlobbedFiles(listing);
    assert r in multiset(MatchedRecords(dir, files));
    MatchedRecordsFrom(dir, files, r);
    var e :| e in files && ParseLogName(e.name).Some? &&
      r == LegacyRecord(ParseLogName(e.name).value.kind, NameStamp(ParseLogName(e.name).value),
                        JoinPath(dir, e.name), e.file);
    var k := GlobbedKind(listing, e);
    GlobExcludesTrailingBreak(k, e.name);
  }

  /** A globbed file was matched by one of the patterns. */
  function GlobbedKind(listing: seq<DirEntry>, e: DirEntry): (k: Kind)
    requires e in GlobbedFiles(listing)
    ensures e in listing && GlobMatch(k, e.name)
  {
    assert GlobbedFiles(listing) == GlobOne(Window, listing) + GlobOne(Keyfreq, listing)
                                    + GlobOne(Notes, listing) + GlobOne(Blog, listing) by {
      assert GlobbedUpTo(1, listing) == GlobOne(Window, listing);
      assert GlobbedUpTo(2, listing) == GlobbedUpTo(1, listing) + GlobOne(Keyfreq, listing);
      assert GlobbedUpTo(3, listing) == GlobbedUpTo(2, listing) + GlobOne(Notes, listing);
    }
    if e in GlobOne(Window, listing) then Window
    else if e in GlobOne(Keyfreq, listing) then Keyfreq
    else if e in GlobOne(Notes, listing) then Notes
    else Blog
  }

  // ---------------------------------------------------------------------------
  // The lines of one event file.

  /** How the value field of a line turns out. */
  datatype ValueParse<V> = Value(v: V) | BadValue | SkipValue

  /** A window or notes value: sanitised; empty text drops the line. */
  function TextValue(raw: string): (r: ValueParse<string>)
    ensures r.Value? ==> Clean(r.v) && r.v != []
    ensures !r.BadValue?
  {
    var v := Sanitize(raw);
    if v == [] then SkipValue else Value(v)
  }

  /** A key count: `int(value_raw.strip())`; unparsable is malformed, negative is dropped. */
  function CountValue(raw: string): (r: ValueParse<int>)
    ensures r.Value? ==> r.v >= 0
  {
    match ParseInt(Strip(raw))
    case None => BadValue
    case Some(n) => if n < 0 then SkipValue else Value(n)
  }

  /** A line's fate in `_import_legacy_event_file`. */
  datatype LineOutcome<V> = Blank | Malformed | OutOfDay | Dropped | Accepted(t: int, v: V)

  /** storage.py:306-335 for one raw line of a file for day `dayT0`. */
  function ClassifyLine<V>(dayT0: int, raw: string, value: string -> ValueParse<V>): (r: LineOutcome<V>)
    ensures r.Accepted? ==> dayT0 <= r.t < dayT0 + DaySeconds && value(LineValueField(raw)) == Value(r.v)
  {
    var line := Strip(raw);
    if line == [] then Blank
    else match SplitFirstSpace(line)
      case None => Malformed
      case Some(parts) =>
        match ParseInt(parts.0)
        case None => Malformed
        case Some(stamp) =>
          if stamp < dayT0 || stamp >= dayT0 + DaySeconds then OutOfDay
          else match value(parts.1)
            case BadValue => Malformed
            case SkipValue => Dropped
            case Value(v) => Accepted(stamp, v)
  }

  /** A line whose stripped text is a stamp field, one space and a value field
      is judged by the stamp's day and the value rule alone. */
  lemma ClassifyFields<V>(dayT0: int, raw: string, a: string, b: string, t: int, value: string -> ValueParse<V>)
    requires Strip(raw) == a + " " + b && ' ' !in a && ParseInt(a) == Some(t)
    ensures ClassifyLine(dayT0, raw, value) ==
      if t < dayT0 || t >= dayT0 + DaySeconds then OutOfDay
      else if value(b).BadValue? then Malformed
      else if value(b).SkipValue? then Dropped
      else Accepted(t, value(b).v)
  {
    SplitJoin(a, b);
    assert |Strip(raw)| > 0;
  }

  /** The text after the first space of the stripped line (empty when there is none). */
  function LineValueField(raw: string): string {
    match SplitFirstSpace(Strip(raw))
    case None => []
    case Some(parts) => parts.1
  }

  /** The rows a file yields, in line order. */
  function AcceptedRows<V>(dayT0: int, lines: seq<string>, value: string -> ValueParse<V>): seq<(int, V)> {
    if lines == [] then []
    else
      var o := ClassifyLine(dayT0, lines[|lines| - 1], value);
      AcceptedRows(dayT0, lines[..|lines| - 1], value) + (if o.Accepted? then [(o.t, o.v)] else [])
  }

  /** How many of the lines are malformed. */
  function MalformedCount<V>(dayT0: int, lines: seq<string>, value: string -> ValueParse<V>): nat {
    if lines == [] then 0
    else
      MalformedCount(dayT0, lines[..|lines| - 1], value) +
        (if ClassifyLine(dayT0, lines[|lines| - 1], value).Malformed? then 1 else 0)
  }

  /** The line loop of `_import_legacy_event_file` (storage.py:303-335): rows in
      file order and the malformed count. */
  method ParseLegacyLines<V>(dayT0: int, content: string, value: string -> ValueParse<V>)
    returns (rows: seq<(int, V)>, malformed: nat)
    ensures rows == AcceptedRows(dayT0, Lines(content), value)
    ensures malformed == MalformedCount(dayT0, Lines(content), value)
    ensures |rows| + malformed <= |Lines(content)|
  {
    var lines := Lines(content);
    rows := [];
    malformed := 0;
    var i := 0;
    while i < |lines|
      invariant 0 <= i <= |lines|
      invariant rows == AcceptedRows(dayT0, lines[..i], value)
      invariant malformed == MalformedCount(dayT0, lines[..i], value)
      invariant |rows| + malformed <= i
    {
      LinesPrefix(dayT0, lines, i, value);
      var o := ClassifyLine(dayT0, lines[i], value);
      if o.Malformed? {
        malformed := malformed + 1;
      } else if o.Accepted? {
        rows := rows + [(o.t, o.v)];
      }
      i := i + 1;
    }
    assert lines[..i] == lines;
  }

  /** One more line adds its row, if accepted, or one to the malformed count. */
  lemma LinesPrefix<V>(dayT0: int, lines: seq<string>, i: int, value: string -> ValueParse<V>)
    requires 0 <= i < |lines|
    ensures var o := ClassifyLine(dayT0, lines[i], value);
      AcceptedRows(dayT0, lines[..i + 1], value) ==
        AcceptedRows(dayT0, lines[..i], value) + (if o.Accepted? then [(o.t, o.v)] else []) &&
      MalformedCount(dayT0, lines[..i + 1], value) ==
        MalformedCount(dayT0, lines[..i], value) + (if o.Malformed? then 1 else 0)
  {
    assert lines[..i + 1][..i] == lines[..i];
  }

  /** Every row a file yields lies in the file's day window and carries a value
      that the value rule produced, so any property of all such values holds of it. */
  lemma {:induction false} AcceptedRowsWithin<V>(dayT0: int, lines: seq<string>, value: string -> ValueParse<V>,
                                                 ok: V -> bool)
    requires forall raw :: value(raw).Value? ==> ok(value(raw).v)
    ensures forall k :: 0 <= k < |AcceptedRows(dayT0, lines, value)| ==>
      dayT0 <= AcceptedRows(dayT0, lines, value)[k].0 < dayT0 + DaySeconds &&
      ok(AcceptedRows(dayT0, lines, value)[k].1)
  {
    if lines != [] {
      var init := lines[..|lines| - 1];
      AcceptedRowsWithin(dayT0, init, value, ok);
      var o := ClassifyLine(dayT0, lines[|lines| - 1], value);
      var rows := AcceptedRows(dayT0, lines, value);
      var before := AcceptedRows(dayT0, init, value);
      if o.Accepted? {
        assert value(LineValueField(lines[|lines| - 1])) == Value(o.v);
        assert rows == before + [(o.t, o.v)];
        forall k | 0 <= k < |rows| ensures dayT0 <= rows[k].0 < dayT0 + DaySeconds && ok(rows[k].1) {
          if k < |before| {
            assert rows[k] == before[k];
          }
        }
      } else {
        assert rows == before + [];
        assert before + [] == before;
      }
    }
  }

  /** Imported window and note texts are clean and non-empty. */
  lemma TextRowsClean(dayT0: int, lines: seq<string>)
    ensures forall k :: 0 <= k < |AcceptedRows(dayT0, lines, TextValue)| ==>
      Clean(AcceptedRows(dayT0, lines, TextValue)[k].1) && AcceptedRows(dayT0, lines, TextValue)[k].1 != []
  {
    AcceptedRowsWithin(dayT0, lines, TextValue, v => Clean(v) && v != []);
  }

  /** Imported key counts are never negative. */
  lemma CountRowsNonNegative(dayT0: int, lines: seq<string>)
    ensures forall k :: 0 <= k < |AcceptedRows(dayT0, lines, CountValue)| ==>
      AcceptedRows(dayT0, lines, CountValue)[k].1 >= 0
  {
    AcceptedRowsWithin(dayT0, lines, CountValue, v => v >= 0);
  }

  /** Text lines are never malformed for a bad value: only a missing space or a bad stamp counts. */
  lemma TextMalformedMeansBadStamp(dayT0: int, raw: string)
    requires ClassifyLine(dayT0, raw, TextValue).Malformed?
    ensures Strip(raw) != [] &&
      (SplitFirstSpace(Strip(raw)).None? || ParseInt(SplitFirstSpace(Strip(raw)).value.0).None?)
  {
  }
}
