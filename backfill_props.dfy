/** What backfill_from_legacy_logs (storage.py:359-391) guarantees: live rows
    are never touched, imported rows come from their file's day window, an
    unforced rerun changes nothing, and a forced rerun leaves the same contents. */
module BackfillProps {
  import opened Wrappers
  import opened Seqs
  import opened Sorting
  import opened DayBoundary
  import opened LogFiles
  import opened LegacyImport
  import opened Store

  /** What importing `rec` does to the table of kind `k`, whose lines `value` parses. */
  function TableStep<V(==)>(tb: Table<V>, rec: LegacyRecord, k: Kind, value: string -> ValueParse<V>): Table<V> {
    if rec.kind == k then Append(Clear(tb, rec.path), FileRows(rec, value)) else tb
  }

  function WindowOf(db: Database): Table<string> { db.window }
  function KeyfreqOf(db: Database): Table<int> { db.keyfreq }
  function NotesOf(db: Database): Table<string> { db.notes }

  /** `get` selects the table that the files of kind `k` feed, parsed by `value`. */
  ghost predicate IsTableOf<V(!new)>(get: Database -> Table<V>, k: Kind, value: string -> ValueParse<V>) {
    forall db, rec, force, now :: get(Step(db, rec, force, now).0) ==
      (if NeedsImport(db.ledger, rec.path, rec.file, force).0 then TableStep(get(db), rec, k, value) else get(db))
  }

  lemma StepWindow(db: Database, rec: LegacyRecord, force: bool, now: int)
    ensures Step(db, rec, force, now).0.window ==
      (if NeedsImport(db.ledger, rec.path, rec.file, force).0 then TableStep(db.window, rec, Window, TextValue) else db.window)
  {
  }

  lemma StepKeyfreq(db: Database, rec: LegacyRecord, force: bool, now: int)
    ensures Step(db, rec, force, now).0.keyfreq ==
      (if NeedsImport(db.ledger, rec.path, rec.file, force).0 then TableStep(db.keyfreq, rec, Keyfreq, CountValue) else db.keyfreq)
  {
  }

  lemma StepNotes(db: Database, rec: LegacyRecord, force: bool, now: int)
    ensures Step(db, rec, force, now).0.notes ==
      (if NeedsImport(db.ledger, rec.path, rec.file, force).0 then TableStep(db.notes, rec, Notes, TextValue) else db.notes)
  {
  }

  /** Each event table is fed by the files of its own kind only. */
  lemma TablesOfKinds()
    ensures IsTableOf(WindowOf, Window, TextValue)
    ensures IsTableOf(KeyfreqOf, Keyfreq, CountValue)
    ensures IsTableOf(NotesOf, Notes, TextValue)
  {
    forall db, rec, force, now ensures WindowOf(Step(db, rec, force, now).0) ==
      (if NeedsImport(db.ledger, rec.path, rec.file, force).0 then TableStep(WindowOf(db), rec, Window, TextValue) else WindowOf(db))
    {
      StepWindow(db, rec, force, now);
    }
    forall db, rec, force, now ensures KeyfreqOf(Step(db, rec, force, now).0) ==
      (if NeedsImport(db.ledger, rec.path, rec.file, force).0 then TableStep(KeyfreqOf(db), rec, Keyfreq, CountValue) else KeyfreqOf(db))
    {
      StepKeyfreq(db, rec, force, now);
    }
    forall db, rec, force, now ensures NotesOf(Step(db, rec, force, now).0) ==
      (if NeedsImport(db.ledger, rec.path, rec.file, force).0 then TableStep(NotesOf(db), rec, Notes, TextValue) else NotesOf(db))
    {
      StepNotes(db, rec, force, now);
    }
  }

  // ---------------------------------------------------------------------------
  // Live rows are never touched.

  /** A row written by a live insert (`source_path` NULL). */
  predicate IsLiveRow<V>(r: Row<V>) {
    r.f.source.None?
  }

  function LiveRows<V>(tb: Table<V>): seq<Row<V>> {
    Filter(tb.rows, IsLiveRow)
  }

  /** The rows an import appends all carry a source. */
  lemma NumberedTagged<V>(n: nat, rec: LegacyRecord, value: string -> ValueParse<V>)
    ensures forall x :: x in Numbered(n, FileRows(rec, value)) ==> (!IsLiveRow(x) &&
      x.f.source == Some(rec.path) && x.f.dayT0 == rec.dayT0 && rec.dayT0 <= x.f.t < rec.dayT0 + DaySeconds)
  {
    var fs := FileRows(rec, value);
    var nums := Numbered(n, fs);
    FileRowsWithin(rec, value);
    forall x | x in nums
      ensures x.f.source == Some(rec.path) && x.f.dayT0 == rec.dayT0 && rec.dayT0 <= x.f.t < rec.dayT0 + DaySeconds
    {
      var i :| 0 <= i < |nums| && nums[i] == x;
      assert Entries(nums)[i] == fs[i];
    }
  }

  lemma TableStepKeepsLive<V>(tb: Table<V>, rec: LegacyRecord, k: Kind, value: string -> ValueParse<V>)
    ensures LiveRows(TableStep(tb, rec, k, value)) == LiveRows(tb)
  {
    if rec.kind == k {
      var c := Clear(tb, rec.path);
      FilterTwice(tb.rows, KeepRow({rec.path}), IsLiveRow, IsLiveRow);
      var nums := Numbered(c.nextId, FileRows(rec, value));
      FilterAppend(c.rows, nums, IsLiveRow);
      NumberedTagged(c.nextId, rec, value);
      FilterDropsAll(nums, IsLiveRow);
    }
  }

  lemma {:induction false} RunKeepsLive<V(!new)>(db: Database, recs: seq<LegacyRecord>, force: bool, now: int,
                                                get: Database -> Table<V>, k: Kind, value: string -> ValueParse<V>)
    requires IsTableOf(get, k, value)
    ensures LiveRows(get(Run(db, recs, force, now).0)) == LiveRows(get(db))
  {
    if recs != [] {
      var init := recs[..|recs| - 1];
      RunKeepsLive(db, init, force, now, get, k, value);
      var before := Run(db, init, force, now).0;
      TableStepKeepsLive(get(before), recs[|recs| - 1], k, value);
      assert get(Step(before, recs[|recs| - 1], force, now).0) ==
        (if NeedsImport(before.ledger, recs[|recs| - 1].path, recs[|recs| - 1].file, force).0
         then TableStep(get(before), recs[|recs| - 1], k, value) else get(before));
    }
  }

  /** A backfill, forced or not, leaves every live row of every event table
      exactly where it was, id included. */
  lemma BackfillKeepsLiveRows(db: Database, recs: seq<LegacyRecord>, force: bool, now: int)
    ensures LiveRows(Run(db, recs, force, now).0.window) == LiveRows(db.window)
    ensures LiveRows(Run(db, recs, force, now).0.keyfreq) == LiveRows(db.keyfreq)
    ensures LiveRows(Run(db, recs, force, now).0.notes) == LiveRows(db.notes)
  {
    TablesOfKinds();
    RunKeepsLive(db, recs, force, now, WindowOf, Window, TextValue);
    RunKeepsLive(db, recs, force, now, KeyfreqOf, Keyfreq, CountValue);
    RunKeepsLive(db, recs, force, now, NotesOf, Notes, TextValue);
  }

  // ---------------------------------------------------------------------------
  // Imported rows come from their files.

  /** `row` was imported from one of `recs` of kind `k`: it names that file and
      lies in its day window. */
  ghost predicate FromRecord<V>(row: Row<V>, recs: seq<LegacyRecord>, k: Kind) {
    exists r :: r in recs && r.kind == k && row.f.source == Some(r.path) && row.f.dayT0 == r.dayT0 &&
      r.dayT0 <= row.f.t < r.dayT0 + DaySeconds
  }

  lemma TableStepRows<V>(tb: Table<V>, rec: LegacyRecord, k: Kind, value: string -> ValueParse<V>)
    ensures forall row :: row in TableStep(tb, rec, k, value).rows ==> row in tb.rows || FromRecord(row, [rec], k)
  {
    if rec.kind == k {
      var c := Clear(tb, rec.path);
      var nums := Numbered(c.nextId, FileRows(rec, value));
      NumberedTagged(c.nextId, rec, value);
      FilterMember(tb.rows, KeepRow({rec.path}));
      forall row | row in c.rows ensures row in tb.rows {
        var i :| 0 <= i < |c.rows| && c.rows[i] == row;
      }
      forall row | row in nums ensures FromRecord(row, [rec], k) {
        assert rec in [rec];
      }
      assert TableStep(tb, rec, k, value).rows == c.rows + nums;
    }
  }

  lemma {:induction false} RunRows<V(!new)>(db: Database, recs: seq<LegacyRecord>, force: bool, now: int,
                                           get: Database -> Table<V>, k: Kind, value: string -> ValueParse<V>)
    requires IsTableOf(get, k, value)
    ensures forall row :: row in get(Run(db, recs, force, now).0).rows ==> row in get(db).rows || FromRecord(row, recs, k)
  {
    if recs != [] {
      var init := recs[..|recs| - 1];
      var rec := recs[|recs| - 1];
      RunRows(db, init, force, now, get, k, value);
      var before := Run(db, init, force, now).0;
      TableStepRows(get(before), rec, k, value);
      assert get(Step(before, rec, force, now).0) ==
        (if NeedsImport(before.ledger, rec.path, rec.file, force).0 then TableStep(get(before), rec, k, value) else get(before));
      forall row: Row<V> | FromRecord(row, init, k) ensures FromRecord(row, recs, k) {
        var r :| r in init && r.kind == k && row.f.source == Some(r.path) && row.f.dayT0 == r.dayT0 &&
          r.dayT0 <= row.f.t < r.dayT0 + DaySeconds;
        assert r in recs;
      }
      forall row: Row<V> | FromRecord(row, [rec], k) ensures FromRecord(row, recs, k) {
        assert rec in recs;
      }
    }
  }

  /** Every row a backfill leaves in an event table was there before, or was
      imported from one of the listed files of that table's kind, carries that
      file's path and day, and lies inside that day's window. */
  lemma BackfillRowsFromFiles(db: Database, recs: seq<LegacyRecord>, force: bool, now: int)
    ensures forall row :: row in Run(db, recs, force, now).0.window.rows ==>
      row in db.window.rows || FromRecord(row, recs, Window)
    ensures forall row :: row in Run(db, recs, force, now).0.keyfreq.rows ==>
      row in db.keyfreq.rows || FromRecord(row, recs, Keyfreq)
    ensures forall row :: row in Run(db, recs, force, now).0.notes.rows ==>
      row in db.notes.rows || FromRecord(row, recs, Notes)
  {
    TablesOfKinds();
    RunRows(db, recs, force, now, WindowOf, Window, TextValue);
    RunRows(db, recs, force, now, KeyfreqOf, Keyfreq, CountValue);
    RunRows(db, recs, force, now, NotesOf, Notes, TextValue);
  }

  lemma StepBlog(db: Database, rec: LegacyRecord, force: bool, now: int)
    ensures Step(db, rec, force, now).0.blog ==
      (if NeedsImport(db.ledger, rec.path, rec.file, force).0 && rec.kind == Blog
       then KeepBlog(db.blog, {rec.path})[rec.dayT0 := BlogOf(rec, now)] else db.blog)
  {
  }

  /** A live blog entry survives a backfill unless a blog file names its day. */
  lemma {:induction false} BackfillKeepsLiveBlog(db: Database, recs: seq<LegacyRecord>, force: bool, now: int, d: int)
    requires d in db.blog && db.blog[d].source.None?
    requires forall r :: r in recs && r.kind == Blog ==> r.dayT0 != d
    ensures d in Run(db, recs, force, now).0.blog && Run(db, recs, force, now).0.blog[d] == db.blog[d]
  {
    if recs != [] {
      var init := recs[..|recs| - 1];
      var last := recs[|recs| - 1];
      forall r | r in init && r.kind == Blog ensures r.dayT0 != d {
        var i :| 0 <= i < |init| && init[i] == r;
        assert recs[i] == r;
      }
      BackfillKeepsLiveBlog(db, init, force, now, d);
      assert last in recs;
      StepBlog(Run(db, init, force, now).0, last, force, now);
    }
  }

  /** A blog file that is imported replaces its day's entry, even one that a
      live upsert wrote: the `ON CONFLICT` clause of storage.py:294-297. */
  lemma BlogFileReplacesItsDay(db: Database, rec: LegacyRecord, force: bool, now: int)
    requires rec.kind == Blog && NeedsImport(db.ledger, rec.path, rec.file, force).0
    ensures var blog := Step(db, rec, force, now).0.blog;
      rec.dayT0 in blog && blog[rec.dayT0] == BlogEntry(rec.file.content, now, Some(rec.path))
  {
    StepBlog(db, rec, force, now);
  }

  // ---------------------------------------------------------------------------
  // The ledger and the unforced rerun.

  /** No two records name the same path with different file data. */
  predicate ConsistentFiles(recs: seq<LegacyRecord>) {
    forall i, j :: 0 <= i < |recs| && 0 <= j < |recs| && recs[i].path == recs[j].path ==> recs[i].file == recs[j].file
  }

  /** The ledger holds every record's current `(mtime, size)`. */
  ghost predicate LedgerCovers(ledger: map<string, LedgerEntry>, recs: seq<LegacyRecord>) {
    forall r :: r in recs ==> r.path in ledger && ledger[r.path].mtime == r.file.mtime && ledger[r.path].size == r.file.size
  }

  /** A step leaves the step's file recorded at its current `(mtime, size)` and
      every other ledger row as it was. */
  lemma StepLedger(db: Database, rec: LegacyRecord, force: bool, now: int)
    ensures var l := Step(db, rec, force, now).0.ledger;
      rec.path in l && l[rec.path].mtime == rec.file.mtime && l[rec.path].size == rec.file.size
    ensures var l := Step(db, rec, force, now).0.ledger;
      forall p :: p != rec.path ==> (p in l <==> p in db.ledger) && (p in l ==> l[p] == db.ledger[p])
  {
    match rec.kind {
      case Window =>
      case Keyfreq =>
      case Notes =>
      case Blog =>
    }
  }

  lemma {:induction false} RunCoversLedger(db: Database, recs: seq<LegacyRecord>, force: bool, now: int)
    requires ConsistentFiles(recs)
    ensures LedgerCovers(Run(db, recs, force, now).0.ledger, recs)
  {
    if recs != [] {
      var init := recs[..|recs| - 1];
      var rec := recs[|recs| - 1];
      assert ConsistentFiles(init) by {
        forall i, j | 0 <= i < |init| && 0 <= j < |init| && init[i].path == init[j].path
          ensures init[i].file == init[j].file
        {
          assert init[i] == recs[i] && init[j] == recs[j];
        }
      }
      RunCoversLedger(db, init, force, now);
      var before := Run(db, init, force, now).0;
      StepLedger(before, rec, force, now);
      forall r | r in recs
        ensures var l := Run(db, recs, force, now).0.ledger;
          r.path in l && l[r.path].mtime == r.file.mtime && l[r.path].size == r.file.size
      {
        var i :| 0 <= i < |recs| && recs[i] == r;
        if r.path == rec.path {
          assert recs[|recs| - 1] == rec;
        } else {
          assert r in init by { assert init[i] == r; }
        }
      }
    }
  }

  lemma {:induction false} SkipWhenCovered(db: Database, recs: seq<LegacyRecord>, now: int)
    requires LedgerCovers(db.ledger, recs)
    ensures Run(db, recs, false, now) == (db, Summary(|recs|, 0, 0, 0))
  {
    if recs != [] {
      var init := recs[..|recs| - 1];
      assert LedgerCovers(db.ledger, init) by {
        forall r | r in init ensures r in recs {
          var i :| 0 <= i < |init| && init[i] == r;
          assert recs[i] == r;
        }
      }
      SkipWhenCovered(db, init, now);
      assert recs[|recs| - 1] in recs;
    }
  }

  /** After any backfill, running it again without `force` on the same files
      imports nothing and changes nothing: every file is seen and skipped. */
  lemma UnforcedRerunChangesNothing(db: Database, recs: seq<LegacyRecord>, force: bool, now1: int, now2: int)
    requires ConsistentFiles(recs)
    ensures var after := Run(db, recs, force, now1).0;
      Run(after, recs, false, now2) == (after, Summary(|recs|, 0, 0, 0))
  {
    RunCoversLedger(db, recs, force, now1);
    SkipWhenCovered(Run(db, recs, force, now1).0, recs, now2);
  }

  // ---------------------------------------------------------------------------
  // The forced rerun.

  /** No two records share a path. */
  predicate DistinctPaths(recs: seq<LegacyRecord>) {
    forall i, j :: 0 <= i < j < |recs| ==> recs[i].path != recs[j].path
  }

  /** The paths of the records of kind `k`. */
  function KindPaths(recs: seq<LegacyRecord>, k: Kind): set<string> {
    if recs == [] then {}
    else
      var last := recs[|recs| - 1];
      KindPaths(recs[..|recs| - 1], k) + (if last.kind == k then {last.path} else {})
  }

  /** The rows the records of kind `k` yield, file after file. */
  function Emitted<V(==)>(recs: seq<LegacyRecord>, k: Kind, value: string -> ValueParse<V>): seq<Fields<V>> {
    if recs == [] then []
    else
      var last := recs[|recs| - 1];
      Emitted(recs[..|recs| - 1], k, value) + (if last.kind == k then FileRows(last, value) else [])
  }

  /** A forced run as seen by the table of kind `k`: every record is imported. */
  function TableRun<V(==)>(tb: Table<V>, recs: seq<LegacyRecord>, k: Kind, value: string -> ValueParse<V>): Table<V> {
    if recs == [] then tb
    else TableStep(TableRun(tb, recs[..|recs| - 1], k, value), recs[|recs| - 1], k, value)
  }

  lemma {:induction false} ForcedTableRun<V(!new)>(db: Database, recs: seq<LegacyRecord>, now: int,
                                                  get: Database -> Table<V>, k: Kind, value: string -> ValueParse<V>)
    requires IsTableOf(get, k, value)
    ensures get(Run(db, recs, true, now).0) == TableRun(get(db), recs, k, value)
  {
    if recs != [] {
      var init := recs[..|recs| - 1];
      var rec := recs[|recs| - 1];
      ForcedTableRun(db, init, now, get, k, value);
      var before := Run(db, init, true, now).0;
      assert get(Step(before, rec, true, now).0) ==
        (if NeedsImport(before.ledger, rec.path, rec.file, true).0 then TableStep(get(before), rec, k, value) else get(before));
    }
  }

  lemma {:induction false} KindPathsMember(recs: seq<LegacyRecord>, k: Kind, x: string)
    requires x in KindPaths(recs, k)
    ensures exists i :: 0 <= i < |recs| && recs[i].kind == k && recs[i].path == x
  {
    var init := recs[..|recs| - 1];
    if x in KindPaths(init, k) {
      KindPathsMember(init, k, x);
      var i :| 0 <= i < |init| && init[i].kind == k && init[i].path == x;
      assert recs[i] == init[i];
    } else {
      assert recs[|recs| - 1].path == x;
    }
  }

  /** With distinct paths, a record's path is not among the earlier ones. */
  lemma PathNotEarlier(recs: seq<LegacyRecord>, k: Kind)
    requires DistinctPaths(recs) && recs != []
    ensures recs[|recs| - 1].path !in KindPaths(recs[..|recs| - 1], k)
  {
    var init := recs[..|recs| - 1];
    forall x | x in KindPaths(init, k) ensures x != recs[|recs| - 1].path {
      KindPathsMember(init, k, x);
      var i :| 0 <= i < |init| && init[i].kind == k && init[i].path == x;
      assert recs[i] == init[i];
    }
  }

  lemma DistinctInit(recs: seq<LegacyRecord>)
    requires DistinctPaths(recs) && recs != []
    ensures DistinctPaths(recs[..|recs| - 1])
  {
    var init := recs[..|recs| - 1];
    forall i, j | 0 <= i < j < |init| ensures init[i].path != init[j].path {
      assert init[i] == recs[i] && init[j] == recs[j];
    }
  }

  lemma {:induction false} EmittedTagged<V>(recs: seq<LegacyRecord>, k: Kind, value: string -> ValueParse<V>)
    ensures forall e :: e in Emitted(recs, k, value) ==> Tagged(e.source, KindPaths(recs, k))
  {
    if recs != [] {
      var init := recs[..|recs| - 1];
      var last := recs[|recs| - 1];
      EmittedTagged(init, k, value);
      if last.kind == k {
        FileRowsWithin(last, value);
        var fr := FileRows(last, value);
        forall e | e in fr ensures e.source == Some(last.path) {
          var i :| 0 <= i < |fr| && fr[i] == e;
        }
      }
    }
  }

  /** Deleting one more file's rows from "earlier rows minus the run's files,
      then the rows of each file", and appending that file's rows. */
  lemma ClearThenAppend<V>(es: seq<Fields<V>>, p0: set<string>, p: string, em0: seq<Fields<V>>, fr: seq<Fields<V>>)
    requires p !in p0
    requires forall e :: e in em0 ==> Tagged(e.source, p0)
    ensures Filter(Filter(es, KeepFields(p0)) + em0, KeepFields({p})) + fr ==
      Filter(es, KeepFields(p0 + {p})) + (em0 + fr)
  {
    var a := Filter(es, KeepFields(p0));
    assert Filter(a + em0, KeepFields({p})) == Filter(a, KeepFields({p})) + Filter(em0, KeepFields({p})) by {
      FilterAppend(a, em0, KeepFields({p}));
    }
    assert Filter(a, KeepFields({p})) == Filter(es, KeepFields(p0 + {p})) by {
      FilterTwice(es, KeepFields(p0), KeepFields({p}), KeepFields(p0 + {p}));
    }
    assert Filter(em0, KeepFields({p})) == em0 by {
      FilterKeepsAll(em0, KeepFields({p}));
    }
  }

  /** After a forced run, a table holds its earlier rows minus those of the
      run's files, followed by the rows of each file in turn. */
  lemma {:induction false} TableRunEntries<V>(tb: Table<V>, recs: seq<LegacyRecord>, k: Kind, value: string -> ValueParse<V>)
    requires DistinctPaths(recs)
    ensures Entries(TableRun(tb, recs, k, value).rows) ==
      Filter(Entries(tb.rows), KeepFields(KindPaths(recs, k))) + Emitted(recs, k, value)
  {
    var es := Entries(tb.rows);
    if recs == [] {
      FilterKeepsAll(es, KeepFields<V>({}));
    } else {
      var init := recs[..|recs| - 1];
      var last := recs[|recs| - 1];
      DistinctInit(recs);
      TableRunEntries(tb, init, k, value);
      if last.kind == k {
        var prev := TableRun(tb, init, k, value);
        var fr := FileRows(last, value);
        var p0 := KindPaths(init, k);
        var em0 := Emitted(init, k, value);
        assert Entries(prev.rows) == Filter(es, KeepFields(p0)) + em0;
        assert Entries(TableRun(tb, recs, k, value).rows) == Filter(Entries(prev.rows), KeepFields({last.path})) + fr;
        assert Emitted(recs, k, value) == em0 + fr;
        assert KindPaths(recs, k) == p0 + {last.path};
        assert Filter(Filter(es, KeepFields(p0)) + em0, KeepFields({last.path})) + fr ==
          Filter(es, KeepFields(p0 + {last.path})) + (em0 + fr) by {
          PathNotEarlier(recs, k);
          EmittedTagged(init, k, value);
          ClearThenAppend(es, p0, last.path, em0, fr);
        }
      } else {
        assert TableRun(tb, recs, k, value) == TableRun(tb, init, k, value);
        assert Emitted(recs, k, value) == Emitted(init, k, value);
        assert KindPaths(recs, k) == KindPaths(init, k);
      }
    }
  }

  /** A second forced run over the same files leaves a table's rows, ids aside, as the first did. */
  lemma TableRunTwice<V>(tb: Table<V>, recs: seq<LegacyRecord>, k: Kind, value: string -> ValueParse<V>)
    requires DistinctPaths(recs)
    ensures Entries(TableRun(TableRun(tb, recs, k, value), recs, k, value).rows) ==
      Entries(TableRun(tb, recs, k, value).rows)
  {
    var once := TableRun(tb, recs, k, value);
    TableRunEntries(tb, recs, k, value);
    TableRunEntries(once, recs, k, value);
    EmittedTagged(recs, k, value);
    RefilterAppend(Entries(tb.rows), Emitted(recs, k, value), KeepFields(KindPaths(recs, k)));
  }

  /** The blog entries a forced run writes, day by day. */
  function BlogImports(recs: seq<LegacyRecord>, now: int): map<int, BlogEntry> {
    if recs == [] then map[]
    else
      var last := recs[|recs| - 1];
      var b := BlogImports(recs[..|recs| - 1], now);
      if last.kind == Blog then b[last.dayT0 := BlogOf(last, now)] else b
  }

  lemma {:induction false} BlogImportsTagged(recs: seq<LegacyRecord>, now: int)
    ensures forall d :: d in BlogImports(recs, now) ==> Tagged(BlogImports(recs, now)[d].source, KindPaths(recs, Blog))
  {
    if recs != [] {
      BlogImportsTagged(recs[..|recs| - 1], now);
    }
  }

  lemma {:induction false} BlogImportsKeys(recs: seq<LegacyRecord>, now1: int, now2: int)
    ensures BlogImports(recs, now1).Keys == BlogImports(recs, now2).Keys
  {
    if recs != [] {
      BlogImportsKeys(recs[..|recs| - 1], now1, now2);
    }
  }

  lemma KeepBlogOverlay(a: map<int, BlogEntry>, u: map<int, BlogEntry>, paths: set<string>, p: string)
    requires forall d :: d in u ==> !Tagged(u[d].source, {p})
    ensures KeepBlog(KeepBlog(a, paths) + u, {p}) == KeepBlog(a, paths + {p}) + u
  {
    var l := KeepBlog(KeepBlog(a, paths) + u, {p});
    var r := KeepBlog(a, paths + {p}) + u;
    forall d ensures (d in l <==> d in r) && (d in l ==> l[d] == r[d]) {
    }
  }

  lemma {:induction false} ForcedBlog(db: Database, recs: seq<LegacyRecord>, now: int)
    requires DistinctPaths(recs)
    ensures Run(db, recs, true, now).0.blog == KeepBlog(db.blog, KindPaths(recs, Blog)) + BlogImports(recs, now)
  {
    if recs == [] {
      assert KeepBlog(db.blog, {}) == db.blog;
    } else {
      var init := recs[..|recs| - 1];
      var last := recs[|recs| - 1];
      DistinctInit(recs);
      ForcedBlog(db, init, now);
      var before := Run(db, init, true, now).0;
      StepBlogForced(before, last, now);
      if last.kind == Blog {
        var u := BlogImports(init, now);
        var p0 := KindPaths(init, Blog);
        assert KindPaths(recs, Blog) == p0 + {last.path};
        assert BlogImports(recs, now) == u[last.dayT0 := BlogOf(last, now)];
        assert KeepBlog(before.blog, {last.path}) == KeepBlog(db.blog, p0 + {last.path}) + u by {
          PathNotEarlier(recs, Blog);
          BlogImportsTagged(init, now);
          KeepBlogOverlay(db.blog, u, p0, last.path);
        }
        OverlayUpdate(KeepBlog(db.blog, p0 + {last.path}), u, last.dayT0, BlogOf(last, now));
      } else {
        assert KindPaths(recs, Blog) == KindPaths(init, Blog);
        assert BlogImports(recs, now) == BlogImports(init, now);
      }
    }
  }

  lemma OverlayUpdate<K, W>(x: map<K, W>, u: map<K, W>, key: K, w: W)
    ensures (x + u)[key := w] == x + u[key := w]
  {
  }

  lemma StepBlogForced(db: Database, rec: LegacyRecord, now: int)
    ensures Step(db, rec, true, now).0.blog ==
      (if rec.kind == Blog then KeepBlog(db.blog, {rec.path})[rec.dayT0 := BlogOf(rec, now)] else db.blog)
  {
  }

  lemma BlogTwice(a: map<int, BlogEntry>, u1: map<int, BlogEntry>, u2: map<int, BlogEntry>, paths: set<string>)
    requires forall d :: d in u1 ==> Tagged(u1[d].source, paths)
    requires u1.Keys == u2.Keys
    ensures KeepBlog(KeepBlog(a, paths) + u1, paths) + u2 == KeepBlog(a, paths) + u2
  {
    var l := KeepBlog(KeepBlog(a, paths) + u1, paths) + u2;
    var r := KeepBlog(a, paths) + u2;
    forall d ensures (d in l <==> d in r) && (d in l ==> l[d] == r[d]) {
    }
  }

  /** The ledger rows a forced run writes. */
  function LedgerImports(recs: seq<LegacyRecord>, now: int): map<string, LedgerEntry> {
    if recs == [] then map[]
    else
      var last := recs[|recs| - 1];
      LedgerImports(recs[..|recs| - 1], now)[last.path := LedgerEntry(last.file.mtime, last.file.size, now)]
  }

  lemma {:induction false} ForcedLedger(db: Database, recs: seq<LegacyRecord>, now: int)
    ensures Run(db, recs, true, now).0.ledger == db.ledger + LedgerImports(recs, now)
  {
    if recs == [] {
      assert db.ledger + map[] == db.ledger;
    } else {
      var init := recs[..|recs| - 1];
      var last := recs[|recs| - 1];
      var entry := LedgerEntry(last.file.mtime, last.file.size, now);
      var before := Run(db, init, true, now).0;
      ForcedLedger(db, init, now);
      assert Run(db, recs, true, now).0 == Step(before, last, true, now).0;
      StepLedgerForced(before, last, now);
      assert LedgerImports(recs, now) == LedgerImports(init, now)[last.path := entry];
      OverlayUpdate(db.ledger, LedgerImports(init, now), last.path, entry);
    }
  }

  /** A forced step writes the file's ledger row and no other. */
  lemma StepLedgerForced(db: Database, rec: LegacyRecord, now: int)
    ensures Step(db, rec, true, now).0.ledger ==
      db.ledger[rec.path := LedgerEntry(rec.file.mtime, rec.file.size, now)]
  {
    match rec.kind {
      case Window =>
      case Keyfreq =>
      case Notes =>
      case Blog =>
    }
  }

  lemma {:induction false} LedgerImportsKeys(recs: seq<LegacyRecord>, now1: int, now2: int)
    ensures LedgerImports(recs, now1).Keys == LedgerImports(recs, now2).Keys
  {
    if recs != [] {
      LedgerImportsKeys(recs[..|recs| - 1], now1, now2);
    }
  }

  /** What a database holds, AUTOINCREMENT ids and counters aside. */
  datatype Contents = Contents(window: seq<Fields<string>>, keyfreq: seq<Fields<int>>, notes: seq<Fields<string>>,
                               blog: map<int, BlogEntry>, ledger: map<string, LedgerEntry>)

  function ContentsOf(db: Database): Contents {
    Contents(Entries(db.window.rows), Entries(db.keyfreq.rows), Entries(db.notes.rows), db.blog, db.ledger)
  }

  /** Forcing a second backfill over the same files (distinct paths) leaves the
      database with the contents a single forced backfill at that time leaves:
      every imported row once, ids aside. */
  lemma ForcedRerunSameContents(db: Database, recs: seq<LegacyRecord>, now1: int, now2: int)
    requires DistinctPaths(recs)
    ensures ContentsOf(Run(Run(db, recs, true, now1).0, recs, true, now2).0) == ContentsOf(Run(db, recs, true, now2).0)
  {
    TablesOfKinds();
    TableRerun(db, recs, now1, now2, WindowOf, Window, TextValue);
    TableRerun(db, recs, now1, now2, KeyfreqOf, Keyfreq, CountValue);
    TableRerun(db, recs, now1, now2, NotesOf, Notes, TextValue);
    BlogRerun(db, recs, now1, now2);
    LedgerRerun(db, recs, now1, now2);
  }

  /** The rerun property for one event table. */
  lemma TableRerun<V(!new)>(db: Database, recs: seq<LegacyRecord>, now1: int, now2: int,
                            get: Database -> Table<V>, k: Kind, value: string -> ValueParse<V>)
    requires DistinctPaths(recs)
    requires IsTableOf(get, k, value)
    ensures Entries(get(Run(Run(db, recs, true, now1).0, recs, true, now2).0).rows) ==
      Entries(get(Run(db, recs, true, now2).0).rows)
  {
    var d1 := Run(db, recs, true, now1).0;
    ForcedTableRun(db, recs, now1, get, k, value);
    ForcedTableRun(d1, recs, now2, get, k, value);
    ForcedTableRun(db, recs, now2, get, k, value);
    TableRunTwice(get(db), recs, k, value);
  }

  /** The rerun property for the blog table. */
  lemma BlogRerun(db: Database, recs: seq<LegacyRecord>, now1: int, now2: int)
    requires DistinctPaths(recs)
    ensures Run(Run(db, recs, true, now1).0, recs, true, now2).0.blog == Run(db, recs, true, now2).0.blog
  {
    var d1 := Run(db, recs, true, now1).0;
    ForcedBlog(db, recs, now1);
    ForcedBlog(d1, recs, now2);
    ForcedBlog(db, recs, now2);
    BlogImportsTagged(recs, now1);
    BlogImportsKeys(recs, now1, now2);
    BlogTwice(db.blog, BlogImports(recs, now1), BlogImports(recs, now2), KindPaths(recs, Blog));
  }

  /** The rerun property for the ledger. */
  lemma LedgerRerun(db: Database, recs: seq<LegacyRecord>, now1: int, now2: int)
    ensures Run(Run(db, recs, true, now1).0, recs, true, now2).0.ledger == Run(db, recs, true, now2).0.ledger
  {
    var d1 := Run(db, recs, true, now1).0;
    ForcedLedger(db, recs, now1);
    ForcedLedger(d1, recs, now2);
    ForcedLedger(db, recs, now2);
    LedgerImportsKeys(recs, now1, now2);
    assert db.ledger + LedgerImports(recs, now1) + LedgerImports(recs, now2) == db.ledger + LedgerImports(recs, now2);
  }

  // ---------------------------------------------------------------------------
  // Reruns over a directory listing.

  /** No two entries of a directory share a name. */
  predicate DistinctNames(files: seq<DirEntry>) {
    forall i, j :: 0 <= i < j < |files| ==> files[i].name != files[j].name
  }

  /** One pattern's glob keeps a subsequence of the listing. */
  lemma {:induction false} GlobOneDistinct(k: Kind, listing: seq<DirEntry>)
    requires DistinctNames(listing)
    ensures DistinctNames(GlobOne(k, listing))
  {
    if listing != [] {
      var init := listing[..|listing| - 1];
      var last := listing[|listing| - 1];
      assert DistinctNames(init);
      GlobOneDistinct(k, init);
      var g := GlobOne(k, init);
      forall e | e in g ensures e.name != last.name {
        var i :| 0 <= i < |init| && init[i] == e;
        assert listing[i] == e;
      }
    }
  }

  lemma DistinctNamesAppend(a: seq<DirEntry>, b: seq<DirEntry>)
    requires DistinctNames(a) && DistinctNames(b)
    requires forall x, y :: x in a && y in b ==> x.name != y.name
    ensures DistinctNames(a + b)
  {
    forall i, j | 0 <= i < j < |a + b| ensures (a + b)[i].name != (a + b)[j].name {
      if j < |a| {
        assert (a + b)[i] == a[i] && (a + b)[j] == a[j];
      } else if i >= |a| {
        assert (a + b)[i] == b[i - |a|] && (a + b)[j] == b[j - |a|];
      } else {
        assert (a + b)[i] in a && (a + b)[j] in b;
      }
    }
  }

  /** The first `p` globs together never repeat a name, and each of their files
      matches one of the first `p` patterns. */
  lemma {:induction false} GlobbedUpToDistinct(p: nat, listing: seq<DirEntry>)
    requires p <= |PatternKinds| && DistinctNames(listing)
    ensures DistinctNames(GlobbedUpTo(p, listing))
    ensures forall e :: e in GlobbedUpTo(p, listing) ==> exists q :: 0 <= q < p && GlobMatch(PatternKinds[q], e.name)
  {
    if p > 0 {
      GlobbedUpToDistinct(p - 1, listing);
      GlobOneDistinct(PatternKinds[p - 1], listing);
      var a := GlobbedUpTo(p - 1, listing);
      var b := GlobOne(PatternKinds[p - 1], listing);
      assert GlobbedUpTo(p, listing) == a + b;
      forall x, y | x in a && y in b ensures x.name != y.name {
        var q :| 0 <= q < p - 1 && GlobMatch(PatternKinds[q], x.name);
        assert KindOfName(x.name) == Some(PatternKinds[q]) != Some(PatternKinds[p - 1]) == KindOfName(y.name);
      }
      DistinctNamesAppend(a, b);
      forall e | e in a + b ensures exists q :: 0 <= q < p && GlobMatch(PatternKinds[q], e.name) {
        if e in b {
          assert GlobMatch(PatternKinds[p - 1], e.name);
        }
      }
    }
  }

  /** `os.path.join` onto one directory tells names apart. */
  lemma JoinPathInjective(dir: string, a: string, b: string)
    requires a != b
    ensures JoinPath(dir, a) != JoinPath(dir, b)
  {
    assert a == JoinPath(dir, a)[|dir| + 1..];
    assert b == JoinPath(dir, b)[|dir| + 1..];
  }

  /** Files with distinct names give records with distinct paths. */
  lemma {:induction false} MatchedRecordsDistinct(dir: string, files: seq<DirEntry>)
    requires DistinctNames(files)
    ensures DistinctPaths(MatchedRecords(dir, files))
  {
    if files != [] {
      var init := files[..|files| - 1];
      var last := files[|files| - 1];
      assert DistinctNames(init);
      MatchedRecordsDistinct(dir, init);
      var m := MatchedRecords(dir, init);
      var tail := MatchedRecords(dir, [last]);
      MatchedSnoc(dir, files);
      forall e | e in init ensures e.name != last.name {
        var i :| 0 <= i < |init| && init[i] == e;
        assert files[i] == e;
      }
      PathsOtherThan(dir, init, last.name);
      forall y | y in tail ensures y.path == JoinPath(dir, last.name) {
        MatchedRecordsFrom(dir, [last], y);
      }
      DistinctPathsAppend(m, tail);
    }
  }

  /** The records of a listing are those of all but its last file, then the last one's. */
  lemma MatchedSnoc(dir: string, files: seq<DirEntry>)
    requires files != []
    ensures MatchedRecords(dir, files) ==
      MatchedRecords(dir, files[..|files| - 1]) + MatchedRecords(dir, [files[|files| - 1]])
  {
    assert [files[|files| - 1]][..0] == [];
  }

  /** Files none of which is called `name` give no record at the path of `name`. */
  lemma PathsOtherThan(dir: string, files: seq<DirEntry>, name: string)
    requires forall e :: e in files ==> e.name != name
    ensures forall x :: x in MatchedRecords(dir, files) ==> x.path != JoinPath(dir, name)
  {
    forall x | x in MatchedRecords(dir, files) ensures x.path != JoinPath(dir, name) {
      MatchedRecordsFrom(dir, files, x);
      var e :| e in files && x.path == JoinPath(dir, e.name);
      JoinPathInjective(dir, e.name, name);
    }
  }

  /** Two record sequences with distinct paths, and no path in both, append to one. */
  lemma DistinctPathsAppend(a: seq<LegacyRecord>, b: seq<LegacyRecord>)
    requires DistinctPaths(a) && |b| <= 1
    requires forall x, y :: x in a && y in b ==> x.path != y.path
    ensures DistinctPaths(a + b)
  {
    forall i, j | 0 <= i < j < |a + b| ensures (a + b)[i].path != (a + b)[j].path {
      if j < |a| {
        assert (a + b)[i] == a[i] && (a + b)[j] == a[j];
      } else {
        assert (a + b)[i] == a[i] && (a + b)[j] == b[j - |a|];
      }
    }
  }

  /** Records with distinct paths hold each record at most once. */
  lemma {:induction false} DistinctPathsCount(recs: seq<LegacyRecord>, x: LegacyRecord)
    requires DistinctPaths(recs)
    ensures multiset(recs)[x] <= 1
  {
    if recs != [] {
      var init := recs[..|recs| - 1];
      var last := recs[|recs| - 1];
      assert recs == init + [last];
      assert DistinctPaths(init);
      DistinctPathsCount(init, x);
      if last == x {
        assert x !in init by {
          forall k | 0 <= k < |init| ensures init[k] != x {
            assert init[k] == recs[k];
          }
        }
      }
    }
  }

  /** In a sequence that holds each value at most once, two positions hold different values. */
  lemma NoRepeat(t: seq<LegacyRecord>, i: int, j: int)
    requires 0 <= i < j < |t| && forall x :: multiset(t)[x] <= 1
    ensures t[i] != t[j]
  {
    assert t == t[..j] + t[j..];
    assert multiset(t) == multiset(t[..j]) + multiset(t[j..]);
    assert t[..j][i] == t[i] && t[j..][0] == t[j];
    assert multiset(t)[t[i]] <= 1;
    assert t[i] in multiset(t[..j]);
    assert t[j] in multiset(t[j..]);
  }

  /** Reordering keeps paths distinct. */
  lemma DistinctPathsPermuted(s: seq<LegacyRecord>, t: seq<LegacyRecord>)
    requires multiset(s) == multiset(t) && DistinctPaths(s)
    ensures DistinctPaths(t)
  {
    forall x ensures multiset(t)[x] <= 1 {
      DistinctPathsCount(s, x);
    }
    forall i, j | 0 <= i < j < |t| ensures t[i].path != t[j].path {
      NoRepeat(t, i, j);
      assert t[i] in multiset(s) && t[j] in multiset(s);
      var a :| 0 <= a < |s| && s[a] == t[i];
      var b :| 0 <= b < |s| && s[b] == t[j];
      assert a != b;
    }
  }

  /** The records a backfill reads from a directory have distinct paths. */
  lemma ListingRecordsDistinct(dir: string, listing: seq<DirEntry>)
    requires DistinctNames(listing)
    ensures DistinctPaths(SortBy(MatchedRecords(dir, GlobbedFiles(listing)), PathLe))
  {
    GlobbedUpToDistinct(|PatternKinds|, listing);
    MatchedRecordsDistinct(dir, GlobbedFiles(listing));
    DistinctPathsPermuted(MatchedRecords(dir, GlobbedFiles(listing)),
                          SortBy(MatchedRecords(dir, GlobbedFiles(listing)), PathLe));
  }

  /** Backfilling a directory a second time without `force` sees the same
      files, imports none of them and changes nothing. */
  lemma UnforcedBackfillRerun(db: Database, dir: string, listing: seq<DirEntry>, force: bool, now1: int, now2: int)
    requires DistinctNames(listing)
    ensures var first := Backfill(db, dir, listing, force, now1);
      Backfill(first.0, dir, listing, false, now2) == (first.0, Summary(first.1.filesSeen, 0, 0, 0))
  {
    var recs := SortBy(MatchedRecords(dir, GlobbedFiles(listing)), PathLe);
    ListingRecordsDistinct(dir, listing);
    assert ConsistentFiles(recs);
    UnforcedRerunChangesNothing(db, recs, force, now1, now2);
  }

  /** Backfilling a directory twice with `force` leaves the contents that one
      forced backfill at the second time leaves. */
  lemma ForcedBackfillRerun(db: Database, dir: string, listing: seq<DirEntry>, now1: int, now2: int)
    requires DistinctNames(listing)
    ensures ContentsOf(Backfill(Backfill(db, dir, listing, true, now1).0, dir, listing, true, now2).0) ==
      ContentsOf(Backfill(db, dir, listing, true, now2).0)
  {
    ListingRecordsDistinct(dir, listing);
    ForcedRerunSameContents(db, SortBy(MatchedRecords(dir, GlobbedFiles(listing)), PathLe), now1, now2);
  }
}
