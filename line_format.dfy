/** The flat-log line `"<ts> <value>\n"` that note.py and prolific.py append and
    that export_events.py and the storage importer read back, with the round
    trips between the writers and both readers. */
module LineFormat {
  import opened Wrappers
  import opened Text
  import opened DayBoundary
  import opened LegacyImport
  import opened ExportEvents

  /** `f"{t} {value}\n"`: what the writers append for one event. */
  function FormatLine(t: int, value: string): string {
    IntToString(t) + " " + value + "\n"
  }

  /** A one-line value gives exactly one line of the file. */
  lemma FormattedIsLine(t: int, value: string)
    requires NoLineBreak(value)
    ensures IsLine(FormatLine(t, value))
  {
    var line := FormatLine(t, value);
    var stamp := IntToString(t);
    forall j | 0 <= j < |line| - 1 ensures line[j] != '\n' {
      if j < |stamp| {
        assert line[j] == stamp[j];
      } else if j > |stamp| {
        assert line[j] == value[j - |stamp| - 1];
      }
    }
  }

  /** The stripped formatted line is the stamp, one space and the value. */
  lemma FormattedStrip(t: int, value: string)
    requires Clean(value) && value != []
    ensures Strip(FormatLine(t, value)) == IntToString(t) + " " + value
  {
    var mid := IntToString(t) + " " + value;
    assert mid[0] == IntToString(t)[0];
    assert mid[|mid| - 1] == value[|value| - 1];
    StripOf([], mid, "\n");
    assert [] + mid + "\n" == FormatLine(t, value);
  }

  /** load_events reads a written text value back verbatim, with its stamp. */
  lemma ExportReadsText(t: int, value: string)
    requires Clean(value) && value != []
    ensures LoadLine(FormatLine(t, value), false) == Some(Event(t, Str(value)))
  {
    var mid := IntToString(t) + " " + value;
    assert mid[0] == IntToString(t)[0];
    assert mid[|mid| - 1] == value[|value| - 1];
    LoadFields(IntToString(t), value, "\n", false);
    ParseIntToString(t);
  }

  /** load_events with `cast_int_value` reads a written count back as that integer. */
  lemma ExportReadsCount(t: int, n: int)
    ensures LoadLine(FormatLine(t, IntToString(n)), true) == Some(Event(t, Num(n)))
  {
    var value := IntToString(n);
    var mid := IntToString(t) + " " + value;
    assert mid[0] == IntToString(t)[0];
    assert mid[|mid| - 1] == value[|value| - 1];
    LoadFields(IntToString(t), value, "\n", true);
    ParseIntToString(t);
    StripTrimmed(value);
    ParseIntToString(n);
  }

  /** The storage importer accepts a written text value exactly when its stamp
      lies in the file's day, and then stores the value unchanged. */
  lemma ImporterReadsText(dayT0: int, t: int, value: string)
    requires Clean(value) && value != []
    ensures ClassifyLine(dayT0, FormatLine(t, value), TextValue) ==
      (if dayT0 <= t < dayT0 + DaySeconds then Accepted(t, value) else OutOfDay)
  {
    FormattedStrip(t, value);
    ParseIntToString(t);
    ClassifyFields(dayT0, FormatLine(t, value), IntToString(t), value, t, TextValue);
    SanitizeClean(value);
  }

  /** The importer takes a written non-negative count in the file's day as it
      stands, and drops a negative one. */
  lemma ImporterReadsCount(dayT0: int, t: int, n: int)
    requires dayT0 <= t < dayT0 + DaySeconds
    ensures ClassifyLine(dayT0, FormatLine(t, IntToString(n)), CountValue) ==
      (if n >= 0 then Accepted(t, n) else Dropped)
  {
    var value := IntToString(n);
    FormattedStrip(t, value);
    ParseIntToString(t);
    ClassifyFields(dayT0, FormatLine(t, value), IntToString(t), value, t, CountValue);
    StripTrimmed(value);
    ParseIntToString(n);
  }

  /** A line written for an empty value has no space once stripped: load_events
      skips it, and the importer counts it as malformed. */
  lemma EmptyValueLine(dayT0: int, t: int)
    ensures LoadLine(FormatLine(t, []), false).None?
    ensures ClassifyLine(dayT0, FormatLine(t, []), TextValue).Malformed?
  {
    EmptyValueStripped(t);
    assert SplitFirstSpace(IntToString(t)).None?;
  }

  /** Stripped, such a line is its timestamp alone. */
  lemma EmptyValueStripped(t: int)
    ensures Strip(FormatLine(t, [])) == IntToString(t)
  {
    var stamp := IntToString(t);
    StripOf([], stamp, " \n");
    assert stamp + " " + [] == stamp + " ";
    assert stamp + " " + "\n" == [] + stamp + " \n";
  }

  /** Appending a written text line to a file in whole lines adds exactly one
      event at the end of what load_events returns. */
  lemma AppendThenExport(content: string, t: int, value: string)
    requires EndsWithLineBreak(content) && Clean(value) && value != []
    ensures FileEvents(Some(content + FormatLine(t, value)), false) ==
      FileEvents(Some(content), false) + [Event(t, Str(value))]
  {
    var line := FormatLine(t, value);
    FormattedIsLine(t, value);
    LinesAppend(content, line);
    ExportReadsText(t, value);
    var ls := Lines(content);
    assert (ls + [line])[..|ls|] == ls;
  }

  /** Appending a written text line in the file's day adds exactly one row at
      the end of what the importer takes from the file, and no malformed line. */
  lemma AppendThenImport(content: string, dayT0: int, t: int, value: string)
    requires EndsWithLineBreak(content) && Clean(value) && value != []
    requires dayT0 <= t < dayT0 + DaySeconds
    ensures AcceptedRows(dayT0, Lines(content + FormatLine(t, value)), TextValue) ==
      AcceptedRows(dayT0, Lines(content), TextValue) + [(t, value)]
    ensures MalformedCount(dayT0, Lines(content + FormatLine(t, value)), TextValue) ==
      MalformedCount(dayT0, Lines(content), TextValue)
  {
    var line := FormatLine(t, value);
    FormattedIsLine(t, value);
    LinesAppend(content, line);
    ImporterReadsText(dayT0, t, value);
    var ls := Lines(content);
    assert (ls + [line])[..|ls|] == ls;
  }
}
