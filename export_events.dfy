/** The JSON exporter of export_events.py: reading the flat day logs back into
    events (`load_events`, `read_blog`) and building the per-day payloads and
    the manifest that `updateEvents` writes. */
module ExportEvents {
  import opened Wrappers
  import opened Text
  import opened Sorting
  import opened DayBoundary
  import opened LogFiles
  import opened Seqs

  /** The `"s"` of an exported event: the text after the stamp, or an int when cast. */
  datatype EventValue = Str(text: string) | Num(n: int)

  /** One `{"t": ..., "s": ...}` element of a payload. */
  datatype Event = Event(t: int, s: EventValue)

  // ---------------------------------------------------------------------------
  // load_events

  /** One raw line through the body of the loop of load_events
      (export_events.py:25-47); None when the line is skipped. */
  function LoadLine(raw: string, castInt: bool): (r: Option<Event>)
    ensures r.Some? ==> ' ' in Strip(raw)
    ensures r.Some? ==> (r.value.s.Num? <==> castInt)
  {
    var line := Strip(raw);
    if line == [] then None
    else match SplitFirstSpace(line)
      case None => None
      case Some(parts) =>
        match ParseInt(parts.0)
        case None => None
        case Some(stamp) =>
          if castInt then
            match ParseInt(Strip(parts.1))
            case None => None
            case Some(n) => Some(Event(stamp, Num(n)))
          else Some(Event(stamp, Str(parts.1)))
  }

  /** load_events' treatment of each line, as a function value. */
  function Loader(castInt: bool): string -> Option<Event> {
    raw => LoadLine(raw, castInt)
  }

  /** The events a sequence of lines yields, in line order. */
  function LoadedEvents(lines: seq<string>, castInt: bool): (r: seq<Event>)
    ensures |r| <= |lines|
  {
    FilterMap(lines, Loader(castInt))
  }

  /** What load_events returns for a file that may be missing. */
  function FileEvents(file: Option<string>, castInt: bool): seq<Event> {
    match file
    case None => []
    case Some(content) => LoadedEvents(Lines(content), castInt)
  }

  /** load_events (export_events.py:16-49): a missing file gives no events;
      otherwise every line is read, and `events` grows by one element for each
      line that survives the skips. */
  method LoadEvents(file: Option<string>, castInt: bool) returns (events: seq<Event>)
    ensures events == FileEvents(file, castInt)
    ensures file.None? ==> events == []
    ensures file.Some? ==> |events| <= |Lines(file.value)|
  {
    events := [];
    if file.None? {
      return;
    }
    var lines := Lines(file.value);
    var i := 0;
    while i < |lines|
      invariant 0 <= i <= |lines|
      invariant events == LoadedEvents(lines[..i], castInt)
    {
      LoadedEventsSnoc(lines, i, castInt);
      var e := LoadLine(lines[i], castInt);
      if e.Some? {
        events := events + [e.value];
      }
      i := i + 1;
    }
    assert lines[..i] == lines;
  }

  /** One more line adds its event, if any, at the end. */
  lemma LoadedEventsSnoc(lines: seq<string>, i: int, castInt: bool)
    requires 0 <= i < |lines|
    ensures LoadedEvents(lines[..i + 1], castInt) ==
      LoadedEvents(lines[..i], castInt) + (if LoadLine(lines[i], castInt).Some? then [LoadLine(lines[i], castInt).value] else [])
  {
    assert lines[..i + 1][..i] == lines[..i];
  }

  /** Reading two runs of lines one after the other gives their events one
      after the other: the reader neither reorders nor deduplicates. */
  lemma LoadedEventsAppend(a: seq<string>, b: seq<string>, castInt: bool)
    ensures LoadedEvents(a + b, castInt) == LoadedEvents(a, castInt) + LoadedEvents(b, castInt)
  {
    FilterMapAppend(a, b, Loader(castInt));
  }

  /** When no line is skipped there is exactly one event per line, in line order:
      no day window, no deduplication. */
  lemma LoadedEventsOnePerLine(lines: seq<string>, castInt: bool)
    requires forall k :: 0 <= k < |lines| ==> LoadLine(lines[k], castInt).Some?
    ensures |LoadedEvents(lines, castInt)| == |lines|
    ensures forall k :: 0 <= k < |lines| ==> LoadedEvents(lines, castInt)[k] == LoadLine(lines[k], castInt).value
  {
    FilterMapTotal(lines, Loader(castInt));
  }

  /** Lines that are all skipped yield no events. */
  lemma LoadedEventsNone(lines: seq<string>, castInt: bool)
    requires forall k :: 0 <= k < |lines| ==> LoadLine(lines[k], castInt).None?
    ensures LoadedEvents(lines, castInt) == []
  {
    FilterMapNone(lines, Loader(castInt));
  }

  /** A blank or whitespace-only line is skipped. */
  lemma LoadBlank(raw: string, castInt: bool)
    requires AllSpace(raw)
    ensures LoadLine(raw, castInt).None?
  {
    StripOf(raw, [], []);
    assert raw + [] + [] == raw;
  }

  /** The fields of a line: `head` has no space, `head + " " + tail` is
      trimmed and only whitespace follows it. A line of this shape is skipped
      exactly when `head` is no integer (or, when casting, `tail` is none);
      otherwise the event carries `head` as its stamp and `tail` verbatim, or
      cast, as its value. */
  lemma LoadFields(head: string, tail: string, post: string, castInt: bool)
    requires AllSpace(post) && ' ' !in head && NoEdgeSpace(head + " " + tail)
    ensures LoadLine(head + " " + tail + post, castInt) ==
      (if ParseInt(head).None? then None
       else if !castInt then Some(Event(ParseInt(head).value, Str(tail)))
       else if ParseInt(Strip(tail)).None? then None
       else Some(Event(ParseInt(head).value, Num(ParseInt(Strip(tail)).value))))
  {
    StripOf([], head + " " + tail, post);
    assert [] + (head + " " + tail) + post == head + " " + tail + post;
    SplitJoin(head, tail);
  }

  // ---------------------------------------------------------------------------
  // read_blog and the per-day payload

  /** read_blog (export_events.py:67-71): a missing file reads as empty text. */
  function ReadBlog(file: Option<string>): (r: string)
    ensures file.None? ==> r == []
    ensures file.Some? ==> r == file.value
  {
    match file
    case None => []
    case Some(content) => content
  }

  /** The file at `path`, if there is one. */
  function ReadFile(files: map<string, string>, path: string): Option<string> {
    if path in files then Some(files[path]) else None
  }

  /** The JSON object written to `events_<t0>.json`. */
  datatype Payload = Payload(window: seq<Event>, keyfreq: seq<Event>, notes: seq<Event>, blog: string)

  /** The payload of day `t0` (export_events.py:93-102). */
  function DayPayload(files: map<string, string>, t0: int): Payload {
    Payload(FileEvents(ReadFile(files, DayFilePath(Window, t0)), false),
            FileEvents(ReadFile(files, DayFilePath(Keyfreq, t0)), true),
            FileEvents(ReadFile(files, DayFilePath(Notes, t0)), false),
            ReadBlog(ReadFile(files, DayFilePath(Blog, t0))))
  }

  // ---------------------------------------------------------------------------
  // The manifest `export_list.json`

  datatype ManifestEntry = ManifestEntry(t0: int, t1: int, fname: string)

  /** `f"events_{t0}.json"`. */
  function ExportName(t0: int): string {
    "events_" + IntToString(t0) + ".json"
  }

  function EntryFor(t0: int): ManifestEntry {
    ManifestEntry(t0, t0 + DaySeconds, ExportName(t0))
  }

  /** The manifest over the collected stamps, one entry each. */
  function Manifest(stamps: seq<int>): (m: seq<ManifestEntry>)
    ensures |m| == |stamps|
  {
    Map(stamps, EntryFor)
  }

  /** Entry `i` of the manifest is the entry of the `i`-th stamp. */
  lemma ManifestAt(stamps: seq<int>)
    ensures forall i :: 0 <= i < |stamps| ==> Manifest(stamps)[i] == EntryFor(stamps[i])
  {
    forall i | 0 <= i < |stamps| ensures Manifest(stamps)[i] == EntryFor(stamps[i]) {
      MapAt(stamps, EntryFor, i);
    }
  }

  /** The name and contents of the file written for day `t0`. */
  function DayFile(files: map<string, string>, t0: int): (string, Payload) {
    (ExportName(t0), DayPayload(files, t0))
  }

  /** The files written for the given days, in order. */
  function DayFiles(files: map<string, string>, stamps: seq<int>): (r: seq<(string, Payload)>)
    ensures |r| == |stamps|
  {
    if stamps == [] then [] else DayFiles(files, stamps[..|stamps| - 1]) + [DayFile(files, stamps[|stamps| - 1])]
  }

  /** What one run of updateEvents writes: every day's output name and payload,
      and the manifest. */
  datatype Export = Export(days: seq<(string, Payload)>, manifest: seq<ManifestEntry>)

  /** updateEvents (export_events.py:74-112) over the base names of the log
      directory and the contents of its files: nothing is written when no day
      stamp is found; otherwise one payload and one manifest entry per
      collected stamp, in ascending order. */
  method UpdateEvents(names: seq<string>, files: map<string, string>) returns (r: Option<Export>)
    ensures r.None? <==> AllStamps(names) == {}
    ensures r.Some? ==>
      var stamps := SortedElements(AllStamps(names));
      r.value.manifest == Manifest(stamps) &&
      r.value.days == DayFiles(files, stamps)
  {
    var stamps := CollectTimestamps(names);
    if |stamps| == 0 {
      return None;
    }
    var days, manifest := ExportDays(files, stamps);
    r := Some(Export(days, manifest));
  }

  /** The loop of updateEvents (export_events.py:88-107) over the collected stamps. */
  method ExportDays(files: map<string, string>, stamps: seq<int>)
    returns (days: seq<(string, Payload)>, manifest: seq<ManifestEntry>)
    ensures manifest == Manifest(stamps)
    ensures days == DayFiles(files, stamps)
  {
    days := [];
    manifest := [];
    var i := 0;
    while i < |stamps|
      invariant 0 <= i <= |stamps|
      invariant manifest == Manifest(stamps[..i])
      invariant days == DayFiles(files, stamps[..i])
    {
      var t0 := stamps[i];
      var outName, payload := ExportDay(files, t0);
      DayFilesSnoc(files, stamps, i);
      days := days + [(outName, payload)];
      ManifestSnoc(stamps, i);
      manifest := manifest + [ManifestEntry(t0, t0 + DaySeconds, outName)];
      i := i + 1;
    }
    assert stamps[..i] == stamps;
  }

  lemma DayFilesSnoc(files: map<string, string>, stamps: seq<int>, i: nat)
    requires i < |stamps|
    ensures DayFiles(files, stamps[..i + 1]) == DayFiles(files, stamps[..i]) + [DayFile(files, stamps[i])]
  {
    assert stamps[..i + 1][..i] == stamps[..i];
  }

  lemma ManifestSnoc(stamps: seq<int>, i: nat)
    requires i < |stamps|
    ensures Manifest(stamps[..i + 1]) == Manifest(stamps[..i]) + [EntryFor(stamps[i])]
  {
    assert stamps[..i + 1][..i] == stamps[..i];
  }

  /** The body of the loop of updateEvents for one day (export_events.py:89-104):
      the output name and the payload read from the day's four files. */
  method ExportDay(files: map<string, string>, t0: int) returns (outName: string, payload: Payload)
    ensures (outName, payload) == DayFile(files, t0)
  {
    outName := ExportName(t0);
    var window := LoadEvents(ReadFile(files, DayFilePath(Window, t0)), false);
    var keyfreq := LoadEvents(ReadFile(files, DayFilePath(Keyfreq, t0)), true);
    var notes := LoadEvents(ReadFile(files, DayFilePath(Notes, t0)), false);
    var blog := ReadBlog(ReadFile(files, DayFilePath(Blog, t0)));
    payload := Payload(window, keyfreq, notes, blog);
  }

  /** Different days get different output files. */
  lemma ExportNameInjective(a: int, b: int)
    requires ExportName(a) == ExportName(b)
    ensures a == b
  {
    var na := ExportName(a);
    assert na[7..|na| - 5] == IntToString(a);
    assert ExportName(b)[7..|ExportName(b)| - 5] == IntToString(b);
    ParseIntToString(a);
    ParseIntToString(b);
  }

  /** A manifest over strictly ascending stamps is in strictly ascending day
      order, each entry spans one day, and no two entries share an output file. */
  lemma ManifestShape(stamps: seq<int>)
    requires StrictlyIncreasing(stamps)
    ensures var m := Manifest(stamps);
      (forall i, j :: 0 <= i < j < |m| ==> m[i].t0 < m[j].t0 && m[i].fname != m[j].fname) &&
      (forall i :: 0 <= i < |m| ==> m[i].t0 == stamps[i] && m[i].t1 == m[i].t0 + DaySeconds &&
                                    m[i].fname == ExportName(m[i].t0))
  {
    var m := Manifest(stamps);
    ManifestAt(stamps);
    forall i, j | 0 <= i < j < |m| ensures m[i].fname != m[j].fname {
      if m[i].fname == m[j].fname {
        ExportNameInjective(m[i].t0, m[j].t0);
      }
    }
  }

  /** The manifest of a listing has the shape above, and its days are exactly
      the stamps of the listed log files. */
  lemma ManifestOfListing(names: seq<string>, t: int)
    ensures StrictlyIncreasing(SortedElements(AllStamps(names)))
    ensures (exists i :: 0 <= i < |Manifest(SortedElements(AllStamps(names)))| &&
                         Manifest(SortedElements(AllStamps(names)))[i].t0 == t) <==>
      (exists k: Kind, i :: 0 <= i < |names| && StampOf(k, names[i]) == Some(t))
  {
    var stamps := SortedElements(AllStamps(names));
    var m := Manifest(stamps);
    ManifestAt(stamps);
    CollectedStamp(names, t);
    if t in stamps {
      var i :| 0 <= i < |stamps| && stamps[i] == t;
      assert m[i].t0 == t;
    }
  }
}
