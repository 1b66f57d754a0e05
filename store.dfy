/** The SQLite event store of storage.py, held in memory: three event tables
    with AUTOINCREMENT ids, the blog table keyed by day, and the legacy-import
    ledger keyed by file path. Every operation is a function from the old
    contents to the new; the class EventStore performs them in place. */
module Store {
  import opened Wrappers
  import opened Text
  import opened Seqs
  import opened Sorting
  import opened DayBoundary
  import opened LogFiles
  import opened LegacyImport

  /** The columns `(t, day_t0, s, source_path)` of an event row. */
  datatype Fields<V> = Fields(t: int, dayT0: int, s: V, source: Option<string>)

  /** An event row with its primary key. */
  datatype Row<V> = Row(id: nat, f: Fields<V>)

  /** An event table: its rows in insertion order and the next AUTOINCREMENT id. */
  datatype Table<V> = Table(rows: seq<Row<V>>, nextId: nat)

  /** A `blog_entries` row (its key `day_t0` is the map key). */
  datatype BlogEntry = BlogEntry(post: string, updatedAt: int, source: Option<string>)

  /** A `legacy_import_state` row (its key `source_path` is the map key). */
  datatype LedgerEntry = LedgerEntry(mtime: int, size: int, importedAt: int)

  /** The whole database. */
  datatype Database = Database(window: Table<string>, keyfreq: Table<int>, notes: Table<string>,
                               blog: map<int, BlogEntry>, ledger: map<string, LedgerEntry>)

  /** A fresh table: AUTOINCREMENT hands out 1 first. */
  function EmptyTable<V(==)>(): Table<V> {
    Table([], 1)
  }

  /** What init_db (storage.py:55-101) creates. */
  function EmptyDatabase(): Database {
    Database(EmptyTable(), EmptyTable(), EmptyTable(), map[], map[])
  }

  /** Ids are ascending in insertion order and below the counter. */
  predicate ValidTable<V(==)>(tb: Table<V>) {
    (forall i :: 0 <= i < |tb.rows| ==> tb.rows[i].id < tb.nextId) &&
    (forall i, j :: 0 <= i < j < |tb.rows| ==> tb.rows[i].id < tb.rows[j].id)
  }

  predicate ValidDatabase(db: Database) {
    ValidTable(db.window) && ValidTable(db.keyfreq) && ValidTable(db.notes)
  }

  // ---------------------------------------------------------------------------
  // Rows, ids and sources.

  /** The column values of the rows, ids dropped. */
  function Entries<V(==)>(rows: seq<Row<V>>): (es: seq<Fields<V>>)
    ensures |es| == |rows|
  {
    seq(|rows|, i requires 0 <= i < |rows| => rows[i].f)
  }

  lemma EntriesAppend<V>(a: seq<Row<V>>, b: seq<Row<V>>)
    ensures Entries(a + b) == Entries(a) + Entries(b)
  {
  }

  /** `fs` numbered with consecutive ids starting at `n`. */
  function Numbered<V(==)>(n: nat, fs: seq<Fields<V>>): (rows: seq<Row<V>>)
    ensures Entries(rows) == fs
  {
    seq(|fs|, i requires 0 <= i < |fs| => Row(n + i, fs[i]))
  }

  /** `INSERT` (or `executemany`) of `fs` in order. */
  function Append<V(==)>(tb: Table<V>, fs: seq<Fields<V>>): (r: Table<V>)
    ensures Entries(r.rows) == Entries(tb.rows) + fs
    ensures ValidTable(tb) ==> ValidTable(r)
  {
    var rows := Numbered(tb.nextId, fs);
    EntriesAppend(tb.rows, rows);
    Table(tb.rows + rows, tb.nextId + |fs|)
  }

  /** A source path in `paths`: what `WHERE source_path = ?` selects (NULL never matches). */
  predicate Tagged(source: Option<string>, paths: set<string>) {
    source.Some? && source.value in paths
  }

  function KeepRow<V(==)>(paths: set<string>): Row<V> -> bool {
    (r: Row<V>) => !Tagged(r.f.source, paths)
  }

  function KeepFields<V(==)>(paths: set<string>): Fields<V> -> bool {
    (e: Fields<V>) => !Tagged(e.source, paths)
  }

  /** `DELETE FROM <table> WHERE source_path = ?`. */
  function Clear<V(==)>(tb: Table<V>, path: string): (r: Table<V>)
    ensures Entries(r.rows) == Filter(Entries(tb.rows), KeepFields({path}))
    ensures ValidTable(tb) ==> ValidTable(r)
  {
    var rows := Filter(tb.rows, KeepRow({path}));
    EntriesFilter(tb.rows, {path});
    ClearKeepsValid(tb, path);
    Table(rows, tb.nextId)
  }

  lemma ClearKeepsValid<V>(tb: Table<V>, path: string)
    ensures ValidTable(tb) ==> ValidTable(Table(Filter(tb.rows, KeepRow({path})), tb.nextId))
  {
    if ValidTable(tb) {
      var r := Filter(tb.rows, KeepRow({path}));
      assert Pairwise(tb.rows, IdBefore);
      FilterPairwise(tb.rows, KeepRow({path}), IdBefore);
      FilterMember(tb.rows, KeepRow({path}));
      forall i | 0 <= i < |r| ensures r[i].id < tb.nextId {
        var k :| 0 <= k < |tb.rows| && tb.rows[k] == r[i];
      }
    }
  }

  /** Removing rows commutes with dropping ids. */
  lemma {:induction false} EntriesFilter<V>(rows: seq<Row<V>>, paths: set<string>)
    ensures Entries(Filter(rows, KeepRow(paths))) == Filter(Entries(rows), KeepFields(paths))
  {
    if rows != [] {
      var init := rows[..|rows| - 1];
      var last := rows[|rows| - 1];
      EntriesFilter(init, paths);
      var kept := if KeepRow(paths)(last) then [last] else [];
      EntriesAppend(Filter(init, KeepRow(paths)), kept);
      var es := Entries(rows);
      assert es[..|es| - 1] == Entries(init);
      assert es[|es| - 1] == last.f;
    }
  }

  function IdBefore<V>(a: Row<V>, b: Row<V>): bool {
    a.id < b.id
  }

  // ---------------------------------------------------------------------------
  // Queries.

  function OnDay<V(==)>(day: int): Row<V> -> bool {
    (r: Row<V>) => r.f.dayT0 == day
  }

  /** `WHERE day_t0 = ?`. */
  function DayRows<V(==)>(tb: Table<V>, day: int): seq<Row<V>> {
    Filter(tb.rows, OnDay(day))
  }

  /** `ORDER BY t ASC, id ASC`. */
  function TidLe<V(==)>(a: Row<V>, b: Row<V>): bool {
    a.f.t < b.f.t || (a.f.t == b.f.t && a.id <= b.id)
  }

  lemma TidLeTotalPreorder<V(!new)>()
    ensures TotalPreorder(TidLe<V>)
  {
  }

  /** The rows fetch_window_events / fetch_keyfreq_events / fetch_notes_events select, in their order. */
  function FetchRows<V(==)>(tb: Table<V>, day: int): seq<Row<V>> {
    SortBy(DayRows(tb, day), TidLe)
  }

  /** fetch_* (storage.py:178-205): `[{t, s}]` of one day, ordered by `(t, id)`. */
  function FetchEvents<V(==)>(tb: Table<V>, day: int): (r: seq<(int, V)>)
    ensures |r| == |FetchRows(tb, day)|
  {
    var rows := FetchRows(tb, day);
    seq(|rows|, i requires 0 <= i < |rows| => (rows[i].f.t, rows[i].f.s))
  }

  /** A fetch is exactly the day's rows, as a permutation, ordered by `(t, id)`. */
  lemma FetchDay<V(!new)>(tb: Table<V>, day: int)
    ensures multiset(FetchRows(tb, day)) == multiset(DayRows(tb, day))
    ensures forall r :: r in FetchRows(tb, day) <==> r in tb.rows && r.f.dayT0 == day
    ensures SortedBy(FetchRows(tb, day), TidLe)
  {
    TidLeTotalPreorder<V>();
    SortBySorted(DayRows(tb, day), TidLe);
    FilterMember(tb.rows, OnDay(day));
    forall r ensures r in FetchRows(tb, day) <==> r in tb.rows && r.f.dayT0 == day {
      assert r in FetchRows(tb, day) <==> r in multiset(DayRows(tb, day));
      if r in tb.rows && r.f.dayT0 == day {
        var k :| 0 <= k < |tb.rows| && tb.rows[k] == r;
      }
    }
  }

  /** The fetched events come in non-decreasing `t`. */
  lemma FetchOrdered<V(!new)>(tb: Table<V>, day: int)
    ensures var r := FetchEvents(tb, day);
      forall i, j :: 0 <= i < j < |r| ==> r[i].0 <= r[j].0
  {
    FetchDay(tb, day);
  }

  /** The fetched `(t, s)` pairs are those of the day's rows. */
  lemma FetchEventsOfDay<V(!new)>(tb: Table<V>, day: int, t: int, s: V)
    ensures (t, s) in FetchEvents(tb, day) <==>
      exists r :: r in tb.rows && r.f.dayT0 == day && r.f.t == t && r.f.s == s
  {
    FetchDay(tb, day);
    var rows := FetchRows(tb, day);
    var ev := FetchEvents(tb, day);
    if (t, s) in ev {
      var i :| 0 <= i < |ev| && ev[i] == (t, s);
      assert rows[i] in rows;
    }
    if exists r :: r in tb.rows && r.f.dayT0 == day && r.f.t == t && r.f.s == s {
      var r :| r in tb.rows && r.f.dayT0 == day && r.f.t == t && r.f.s == s;
      assert r in rows;
      var i :| 0 <= i < |rows| && rows[i] == r;
      assert ev[i] == (t, s);
    }
  }

  /** The day stamps used by a table. */
  function TableDays<V(==)>(tb: Table<V>): set<int> {
    set r | r in tb.rows :: r.f.dayT0
  }

  /** The `UNION` of `day_t0` over the four tables. */
  function AllDays(db: Database): set<int> {
    TableDays(db.window) + TableDays(db.keyfreq) + TableDays(db.notes) + db.blog.Keys
  }

  /** list_day_timestamps (storage.py:208-222): every day in use, once, ascending. */
  function ListDayTimestamps(db: Database): (r: seq<int>)
    ensures StrictlyIncreasing(r)
    ensures forall d :: d in r <==> d in AllDays(db)
  {
    SortedElements(AllDays(db))
  }

  // ---------------------------------------------------------------------------
  // Live writes.

  /** A live insert: the row is stamped with rewindTime(ts) and has no source;
      a timestamp rewindTime rejects makes it raise and nothing is written. */
  function LiveInsert<V(==)>(tb: Table<V>, offset: int, ts: int, s: V): (r: Result<Table<V>>)
    ensures r.Err? <==> !Rewindable(ts, offset)
    ensures r.Ok? ==> Entries(r.value.rows) == Entries(tb.rows) + [Fields(ts, RewindTime(ts, offset).value, s, None)]
  {
    match RewindTime(ts, offset)
    case Err(e) => Err(e)
    case Ok(d) => Ok(Append(tb, [Fields(ts, d, s, None)]))
  }

  /** The count insert_keyfreq_event stores: `max(0, int(count))`. */
  function ClampCount(count: int): (c: int)
    ensures c >= 0 && c >= count
    ensures count >= 0 ==> c == count
  {
    if count < 0 then 0 else count
  }

  /** upsert_blog_entry's effect: the day's entry holds `post`, `now` and no source,
      whether or not it existed. */
  function UpsertBlog(blog: map<int, BlogEntry>, day: int, post: string, now: int): map<int, BlogEntry> {
    blog[day := BlogEntry(post, now, None)]
  }

  /** get_blog_entry (storage.py:168-175): the post, or "" for a day without one. */
  function GetBlogEntry(blog: map<int, BlogEntry>, day: int): (r: string)
    ensures day !in blog ==> r == []
  {
    if day in blog then blog[day].post else []
  }

  /** An upsert is read back, and leaves every other day as it was. */
  lemma UpsertThenGet(blog: map<int, BlogEntry>, day: int, post: string, now: int, other: int)
    ensures GetBlogEntry(UpsertBlog(blog, day, post, now), day) == post
    ensures UpsertBlog(blog, day, post, now)[day].source.None?
    ensures other != day ==> GetBlogEntry(UpsertBlog(blog, day, post, now), other) == GetBlogEntry(blog, other)
    ensures UpsertBlog(blog, day, post, now).Keys == blog.Keys + {day}
  {
  }

  /** A live event is fetched back for its day and listed among the days. */
  lemma InsertThenFetch<V(!new)>(tb: Table<V>, offset: int, ts: int, s: V)
    requires Rewindable(ts, offset)
    ensures var d := RewindTime(ts, offset).value;
      (ts, s) in FetchEvents(LiveInsert(tb, offset, ts, s).value, d) &&
      d in TableDays(LiveInsert(tb, offset, ts, s).value)
  {
    var d := RewindTime(ts, offset).value;
    var nt := LiveInsert(tb, offset, ts, s).value;
    var es := Entries(nt.rows);
    assert es[|es| - 1] == Fields(ts, d, s, None);
    var r := nt.rows[|nt.rows| - 1];
    assert r.f == es[|es| - 1];
    assert r in nt.rows;
    FetchEventsOfDay(nt, d, ts, s);
  }

  // ---------------------------------------------------------------------------
  // The legacy-import ledger.

  /** _needs_import (storage.py:241-254): whether to import, with the file's
      current `(mtime, size)`. */
  function NeedsImport(ledger: map<string, LedgerEntry>, path: string, file: FileData, force: bool)
    : (r: (bool, int, int))
    ensures r.1 == file.mtime && r.2 == file.size
  {
    if force then (true, file.mtime, file.size)
    else if path !in ledger then (true, file.mtime, file.size)
    else (ledger[path].mtime != file.mtime || ledger[path].size != file.size, file.mtime, file.size)
  }

  /** _mark_imported (storage.py:257-268): upsert of the ledger row. */
  function MarkImported(ledger: map<string, LedgerEntry>, path: string, mtime: int, size: int, now: int)
    : map<string, LedgerEntry>
  {
    ledger[path := LedgerEntry(mtime, size, now)]
  }

  /** The ledger decides: a forced run, an unknown file, or a changed mtime or
      size is imported; a file whose `(mtime, size)` the ledger holds is not. */
  lemma NeedsImportDecides(ledger: map<string, LedgerEntry>, path: string, file: FileData, force: bool)
    ensures force ==> NeedsImport(ledger, path, file, force).0
    ensures path !in ledger ==> NeedsImport(ledger, path, file, force).0
    ensures !force && path in ledger ==>
      (NeedsImport(ledger, path, file, force).0 <==>
         ledger[path].mtime != file.mtime || ledger[path].size != file.size)
  {
  }

  /** Marking a file imported makes the next unforced check skip it while it is
      unchanged, and leaves the other paths' rows alone. */
  lemma MarkThenSkip(ledger: map<string, LedgerEntry>, path: string, file: FileData, now: int, other: string)
    ensures !NeedsImport(MarkImported(ledger, path, file.mtime, file.size, now), path, file, false).0
    ensures other != path ==> (other in MarkImported(ledger, path, file.mtime, file.size, now) <==> other in ledger)
    ensures other != path && other in ledger ==>
      MarkImported(ledger, path, file.mtime, file.size, now)[other] == ledger[other]
  {
  }

  // ---------------------------------------------------------------------------
  // One legacy file.

  /** Blog entries not imported from any of `paths`. */
  function KeepBlog(blog: map<int, BlogEntry>, paths: set<string>): (r: map<int, BlogEntry>)
    ensures forall d :: d in r <==> d in blog && !Tagged(blog[d].source, paths)
    ensures forall d :: d in r ==> r[d] == blog[d]
  {
    map d | d in blog && !Tagged(blog[d].source, paths) :: blog[d]
  }

  /** _clear_imported_rows (storage.py:271-279): delete the kind's rows imported from `path`. */
  function ClearImportedRows(db: Database, kind: Kind, path: string): (r: Database)
    ensures r.ledger == db.ledger
  {
    match kind
    case Window => db.(window := Clear(db.window, path))
    case Keyfreq => db.(keyfreq := Clear(db.keyfreq, path))
    case Notes => db.(notes := Clear(db.notes, path))
    case Blog => db.(blog := KeepBlog(db.blog, {path}))
  }

  /** The accepted `(stamp, value)` pairs as rows of the record's day and path. */
  function Tag<V(==)>(rec: LegacyRecord, pairs: seq<(int, V)>): (fs: seq<Fields<V>>)
    ensures |fs| == |pairs|
  {
    seq(|pairs|, i requires 0 <= i < |pairs| => Fields(pairs[i].0, rec.dayT0, pairs[i].1, Some(rec.path)))
  }

  /** The rows the import builds from a non-blog file. */
  function FileRows<V(==)>(rec: LegacyRecord, value: string -> ValueParse<V>): seq<Fields<V>> {
    Tag(rec, AcceptedRows(rec.dayT0, Lines(rec.file.content), value))
  }

  function FileMalformed<V(==)>(rec: LegacyRecord, value: string -> ValueParse<V>): nat {
    MalformedCount(rec.dayT0, Lines(rec.file.content), value)
  }

  /** The entry a blog file becomes. */
  function BlogOf(rec: LegacyRecord, now: int): BlogEntry {
    BlogEntry(rec.file.content, now, Some(rec.path))
  }

  /** _import_legacy_event_file (storage.py:282-356): the new database with the
      counts `(inserted, malformed)`. A blog file replaces its day's entry and
      counts as one row; the other kinds append their accepted lines. */
  function ImportFile(db: Database, rec: LegacyRecord, now: int): (r: (Database, nat, nat))
    ensures r.0.ledger == db.ledger
  {
    match rec.kind
    case Blog => (db.(blog := db.blog[rec.dayT0 := BlogOf(rec, now)]), 1, 0)
    case Window =>
      (db.(window := Append(db.window, FileRows(rec, TextValue))),
       |FileRows(rec, TextValue)|, FileMalformed(rec, TextValue))
    case Keyfreq =>
      (db.(keyfreq := Append(db.keyfreq, FileRows(rec, CountValue))),
       |FileRows(rec, CountValue)|, FileMalformed(rec, CountValue))
    case Notes =>
      (db.(notes := Append(db.notes, FileRows(rec, TextValue))),
       |FileRows(rec, TextValue)|, FileMalformed(rec, TextValue))
  }

  /** Every row a file yields lies in the file's day window and names the file. */
  lemma FileRowsWithin<V>(rec: LegacyRecord, value: string -> ValueParse<V>)
    ensures forall k :: 0 <= k < |FileRows(rec, value)| ==>
      FileRows(rec, value)[k].source == Some(rec.path) &&
      FileRows(rec, value)[k].dayT0 == rec.dayT0 &&
      rec.dayT0 <= FileRows(rec, value)[k].t < rec.dayT0 + DaySeconds
  {
    AcceptedRowsWithin(rec.dayT0, Lines(rec.file.content), value, (v: V) => true);
  }

  // ---------------------------------------------------------------------------
  // The backfill run.

  /** The `summary` dict of backfill_from_legacy_logs. */
  datatype Summary = Summary(filesSeen: nat, filesImported: nat, rowsInserted: nat, rowsMalformed: nat)

  function Plus(a: Summary, b: Summary): Summary {
    Summary(a.filesSeen + b.filesSeen, a.filesImported + b.filesImported,
            a.rowsInserted + b.rowsInserted, a.rowsMalformed + b.rowsMalformed)
  }

  /** One iteration of the loop in storage.py:377-389. The clock reads `now`. */
  function Step(db: Database, rec: LegacyRecord, force: bool, now: int): (r: (Database, Summary))
    ensures r.1.filesSeen == 1 && r.1.filesImported <= 1
    ensures r.1.filesImported == 1 <==> NeedsImport(db.ledger, rec.path, rec.file, force).0
    ensures !NeedsImport(db.ledger, rec.path, rec.file, force).0 ==> r == (db, Summary(1, 0, 0, 0))
    ensures NeedsImport(db.ledger, rec.path, rec.file, force).0 ==>
              r.0.ledger == db.ledger[rec.path := LedgerEntry(rec.file.mtime, rec.file.size, now)]
  {
    var check := NeedsImport(db.ledger, rec.path, rec.file, force);
    if !check.0 then (db, Summary(1, 0, 0, 0))
    else
      var imported := ImportFile(ClearImportedRows(db, rec.kind, rec.path), rec, now);
      (imported.0.(ledger := MarkImported(imported.0.ledger, rec.path, check.1, check.2, now)),
       Summary(1, 1, imported.1, imported.2))
  }

  /** The loop over `records`, in order. */
  function Run(db: Database, recs: seq<LegacyRecord>, force: bool, now: int): (r: (Database, Summary))
    ensures r.1.filesSeen == |recs| && r.1.filesImported <= |recs|
    ensures force ==> r.1.filesImported == |recs|
  {
    if recs == [] then (db, Summary(0, 0, 0, 0))
    else
      var before := Run(db, recs[..|recs| - 1], force, now);
      var step := Step(before.0, recs[|recs| - 1], force, now);
      (step.0, Plus(before.1, step.1))
  }

  lemma RunSnoc(db: Database, recs: seq<LegacyRecord>, i: nat, force: bool, now: int)
    requires i < |recs|
    ensures var before := Run(db, recs[..i], force, now);
      var step := Step(before.0, recs[i], force, now);
      Run(db, recs[..i + 1], force, now) == (step.0, Plus(before.1, step.1))
  {
    assert recs[..i + 1][..i] == recs[..i];
  }

  /** backfill_from_legacy_logs (storage.py:359-391) over a directory listing. */
  function Backfill(db: Database, dir: string, listing: seq<DirEntry>, force: bool, now: int): (r: (Database, Summary))
    ensures r.1.filesSeen == |MatchedRecords(dir, GlobbedFiles(listing))|
    ensures r.1.filesImported <= r.1.filesSeen && (force ==> r.1.filesImported == r.1.filesSeen)
  {
    var found := MatchedRecords(dir, GlobbedFiles(listing));
    assert |SortBy(found, PathLe)| == |multiset(SortBy(found, PathLe))| == |found|;
    Run(db, SortBy(MatchedRecords(dir, GlobbedFiles(listing)), PathLe), force, now)
  }

  // ---------------------------------------------------------------------------
  // The store, updated in place.

  class EventStore {
    var window: Table<string>
    var keyfreq: Table<int>
    var notes: Table<string>
    var blog: map<int, BlogEntry>
    var ledger: map<string, LedgerEntry>
    /** The local time zone, as seconds east of UTC. */
    const offset: int

    function Db(): Database
      reads this
    {
      Database(window, keyfreq, notes, blog, ledger)
    }

    /** init_db on an empty database file. */
    constructor (offset: int)
      ensures Db() == EmptyDatabase() && this.offset == offset
    {
      window := EmptyTable();
      keyfreq := EmptyTable();
      notes := EmptyTable();
      blog := map[];
      ledger := map[];
      this.offset := offset;
    }

    /** insert_window_event (storage.py:108-117). */
    method InsertWindowEvent(ts: int, title: string) returns (r: Result<()>)
      modifies this
      ensures r.Err? <==> !Rewindable(ts, offset)
      ensures r.Err? ==> Db() == old(Db())
      ensures r.Ok? ==> Db() == old(Db()).(window := LiveInsert(old(window), offset, ts, Sanitize(title)).value)
    {
      var t := LiveInsert(window, offset, ts, Sanitize(title));
      match t
      case Err(e) => r := Err(e);
      case Ok(tb) => window := tb; r := Ok(());
    }

    /** insert_keyfreq_event (storage.py:120-129). */
    method InsertKeyfreqEvent(ts: int, count: int) returns (r: Result<()>)
      modifies this
      ensures r.Err? <==> !Rewindable(ts, offset)
      ensures r.Err? ==> Db() == old(Db())
      ensures r.Ok? ==> Db() == old(Db()).(keyfreq := LiveInsert(old(keyfreq), offset, ts, ClampCount(count)).value)
    {
      var t := LiveInsert(keyfreq, offset, ts, ClampCount(count));
      match t
      case Err(e) => r := Err(e);
      case Ok(tb) => keyfreq := tb; r := Ok(());
    }

    /** insert_note_event (storage.py:132-141); `now` is the clock reading. */
    method InsertNoteEvent(note: string, timestamp: Option<int>, now: int) returns (r: Result<()>)
      modifies this
      ensures r.Err? <==> !Rewindable(NoteTime(timestamp, now), offset)
      ensures r.Err? ==> Db() == old(Db())
      ensures r.Ok? ==>
        Db() == old(Db()).(notes := LiveInsert(old(notes), offset, NoteTime(timestamp, now), Sanitize(note)).value)
    {
      var t := LiveInsert(notes, offset, NoteTime(timestamp, now), Sanitize(note));
      match t
      case Err(e) => r := Err(e);
      case Ok(tb) => notes := tb; r := Ok(());
    }

    /** upsert_blog_entry (storage.py:144-160); `now` is the clock reading. */
    method UpsertBlogEntry(day: int, post: string, now: int)
      modifies this
      ensures Db() == old(Db()).(blog := UpsertBlog(old(blog), day, post, now))
    {
      blog := UpsertBlog(blog, day, post, now);
    }

    /** upsert_blog_for_timestamp (storage.py:163-165). */
    method UpsertBlogForTimestamp(ts: int, post: string, now: int) returns (r: Result<()>)
      modifies this
      ensures r.Err? <==> !Rewindable(ts, offset)
      ensures r.Err? ==> Db() == old(Db())
      ensures r.Ok? ==> Db() == old(Db()).(blog := UpsertBlog(old(blog), RewindTime(ts, offset).value, post, now))
    {
      match RewindTime(ts, offset)
      case Err(e) => r := Err(e);
      case Ok(d) => UpsertBlogEntry(d, post, now); r := Ok(());
    }

    /** _mark_imported. */
    method MarkImportedFile(path: string, mtime: int, size: int, now: int)
      modifies this
      ensures Db() == old(Db()).(ledger := MarkImported(old(ledger), path, mtime, size, now))
    {
      ledger := MarkImported(ledger, path, mtime, size, now);
    }

    /** _clear_imported_rows. */
    method ClearImported(kind: Kind, path: string)
      modifies this
      ensures Db() == ClearImportedRows(old(Db()), kind, path)
    {
      match kind
      case Window => window := Clear(window, path);
      case Keyfreq => keyfreq := Clear(keyfreq, path);
      case Notes => notes := Clear(notes, path);
      case Blog => blog := KeepBlog(blog, {path});
    }

    /** _import_legacy_event_file: the line loop, then one `executemany`. */
    method ImportLegacyEventFile(rec: LegacyRecord, now: int) returns (inserted: nat, malformed: nat)
      modifies this
      ensures (Db(), inserted, malformed) == ImportFile(old(Db()), rec, now)
    {
      match rec.kind
      case Blog =>
        blog := blog[rec.dayT0 := BlogOf(rec, now)];
        inserted, malformed := 1, 0;
      case Window =>
        var rows;
        rows, malformed := ParseLegacyLines(rec.dayT0, rec.file.content, TextValue);
        window := Append(window, Tag(rec, rows));
        inserted := |rows|;
      case Keyfreq =>
        var rows;
        rows, malformed := ParseLegacyLines(rec.dayT0, rec.file.content, CountValue);
        keyfreq := Append(keyfreq, Tag(rec, rows));
        inserted := |rows|;
      case Notes =>
        var rows;
        rows, malformed := ParseLegacyLines(rec.dayT0, rec.file.content, TextValue);
        notes := Append(notes, Tag(rec, rows));
        inserted := |rows|;
    }

    /** One iteration of backfill_from_legacy_logs' loop (storage.py:378-389). */
    method BackfillStep(rec: LegacyRecord, force: bool, now: int) returns (delta: Summary)
      modifies this
      ensures (Db(), delta) == Step(old(Db()), rec, force, now)
    {
      delta := Summary(1, 0, 0, 0);
      var check := NeedsImport(ledger, rec.path, rec.file, force);
      if check.0 {
        ClearImported(rec.kind, rec.path);
        var inserted, malformed := ImportLegacyEventFile(rec, now);
        MarkImportedFile(rec.path, check.1, check.2, now);
        delta := Summary(1, 1, inserted, malformed);
      }
    }

    /** backfill_from_legacy_logs: `listing` is the log directory's contents,
        `now` the clock reading. */
    method BackfillFromLegacyLogs(dir: string, listing: seq<DirEntry>, force: bool, now: int)
      returns (summary: Summary)
      modifies this
      ensures (Db(), summary) == Backfill(old(Db()), dir, listing, force, now)
    {
      var records := LegacyFileRecords(dir, listing);
      summary := Summary(0, 0, 0, 0);
      var i := 0;
      while i < |records|
        invariant 0 <= i <= |records|
        invariant (Db(), summary) == Run(old(Db()), records[..i], force, now)
      {
        var delta := BackfillStep(records[i], force, now);
        summary := Plus(summary, delta);
        RunSnoc(old(Db()), records, i, force, now);
        i := i + 1;
      }
      assert records[..i] == records;
    }
  }
}
