/** note.py: the file name, the sanitised note and the line that `log_note`
    appends; the append itself is left to the caller. */
module Note {
  import opened Wrappers
  import opened Text
  import opened DayBoundary
  import opened LogFiles
  import opened LegacyImport
  import opened ExportEvents
  import opened LineFormat

  /** The file log_note appends to and the line it appends. */
  datatype NoteWrite = NoteWrite(path: string, line: string)

  /** log_note(note, timestamp) (note.py:7-34) with the clock reading `now`:
      the day is rewindTime of the timestamp, whose error it passes on. */
  function LogNote(note: string, timestamp: Option<int>, now: int, offset: int): (r: Result<NoteWrite>)
    ensures r.Err? <==> !Rewindable(NoteTime(timestamp, now), offset)
  {
    var ts := NoteTime(timestamp, now);
    match RewindTime(ts, offset)
    case Err(e) => Err(e)
    case Ok(logTime) => Ok(NoteWrite(DayFilePath(Notes, logTime), FormatLine(ts, Sanitize(note))))
  }

  /** The note goes to the notes file of the day its timestamp falls in, as
      one whole line. */
  lemma NoteTarget(note: string, timestamp: Option<int>, now: int, offset: int)
    requires LogNote(note, timestamp, now, offset).Ok?
    ensures var ts := NoteTime(timestamp, now);
      var w := LogNote(note, timestamp, now, offset).value;
      exists d :: IsDayStart(d, offset) && d <= ts < d + DaySeconds &&
        w.path == JoinPath(LogDir, LogFileName(Notes, d)) && IsLine(w.line)
  {
    var ts := NoteTime(timestamp, now);
    var d := RewindTime(ts, offset).value;
    FormattedIsLine(ts, Sanitize(note));
    assert JoinPath(LogDir, LogFileName(Notes, d)) == LogNote(note, timestamp, now, offset).value.path;
  }

  /** For a day on or after the epoch, the readers find the note's file as a
      notes log of that very day. */
  lemma NoteFileFound(note: string, timestamp: Option<int>, now: int, offset: int)
    requires LogNote(note, timestamp, now, offset).Ok?
    requires RewindTime(NoteTime(timestamp, now), offset).value >= 0
    ensures var d := RewindTime(NoteTime(timestamp, now), offset).value;
      LogNote(note, timestamp, now, offset).value.path == JoinPath(LogDir, LogFileName(Notes, d)) &&
      IsLogFileName(Notes, LogFileName(Notes, d)) &&
      ParseLogName(LogFileName(Notes, d)).value.kind == Notes &&
      NameStamp(ParseLogName(LogFileName(Notes, d)).value) == d
  {
    LogFileNameRoundTrip(Notes, RewindTime(NoteTime(timestamp, now), offset).value);
  }

  /** Round trip: appending a non-empty note to its file adds exactly the
      event `{t: timestamp, s: safe_note}` to what load_events returns, and
      exactly the row `(timestamp, safe_note)` to what the storage importer
      takes from the file for that day, which lies in the day's window. */
  lemma NoteReadBack(note: string, timestamp: Option<int>, now: int, offset: int, content: string)
    requires LogNote(note, timestamp, now, offset).Ok?
    requires Sanitize(note) != [] && EndsWithLineBreak(content)
    ensures var ts := NoteTime(timestamp, now);
      var line := LogNote(note, timestamp, now, offset).value.line;
      FileEvents(Some(content + line), false) == FileEvents(Some(content), false) + [Event(ts, Str(Sanitize(note)))]
    ensures var ts := NoteTime(timestamp, now);
      var d := RewindTime(ts, offset).value;
      var line := LogNote(note, timestamp, now, offset).value.line;
      AcceptedRows(d, Lines(content + line), TextValue) == AcceptedRows(d, Lines(content), TextValue) + [(ts, Sanitize(note))] &&
      MalformedCount(d, Lines(content + line), TextValue) == MalformedCount(d, Lines(content), TextValue) &&
      d <= ts < d + DaySeconds
  {
    var ts := NoteTime(timestamp, now);
    var d := RewindTime(ts, offset).value;
    AppendThenExport(content, ts, Sanitize(note));
    AppendThenImport(content, d, ts, Sanitize(note));
  }

  /** A note that sanitises to nothing still writes a line; load_events skips
      it and the storage importer counts it as malformed. */
  lemma EmptyNoteLine(note: string, timestamp: Option<int>, now: int, offset: int)
    requires LogNote(note, timestamp, now, offset).Ok? && Sanitize(note) == []
    ensures var line := LogNote(note, timestamp, now, offset).value.line;
      LoadLine(line, false).None? &&
      ClassifyLine(RewindTime(NoteTime(timestamp, now), offset).value, line, TextValue).Malformed?
  {
    EmptyValueLine(RewindTime(NoteTime(timestamp, now), offset).value, NoteTime(timestamp, now));
  }
}
