// The administrative-metadata workflow (admin.py). It reads the command
// line and a CSV file whose header names arrangement columns ("arrange:X").
// When the number of those columns is odd, every row is rejected into the
// error list; otherwise each row becomes an arrangement dictionary, whose
// "...Label" entries select the records to complete. The first record the
// database returns either lacks some of the entries, and then receives all
// of them and the run ends, or has them all, and the run ends with an
// error.

module Admin {
  import opened Common
  import opened Records
  import RecordStore
  import Columns

  const ERROR_INVALID_ARGUMENT_STRING := "e01"
  const ERROR_CANNOT_OPEN_CSV_FILE := "e02"
  const ERROR_INVALID_HEADER_ROW := "e05"
  const ERROR_CANNOT_FIND_DOCUMENT := "e17"
  const ERROR_FILE_ARGUMENT := "e22"
  /** `exit()` without a code. */
  const NO_CODE := ""

  const MSG_INVALID_HEADER_ROW := "The header in the input CSV file is invalid."
  const MSG_CANNOT_FIND_DOCUMENT := "Document not found in the database. '{}'."
  const MSG_FILE_ARGUMENT := "Required argument '-f' not passed in the command line."

  /** The minimum number of columns per row (minNumCols). */
  const MIN_NUM_COLS := 2

  /** An entry of the error-code module: the exit code and the message. */
  datatype ErrorCode = ErrorCode(code: string, message: string)

  /** The command line after argparse: the number of arguments and the
    * CSV path given with `-f`, if any. */
  datatype Args = Args(count: nat, file: Option<string>)

  /** The CSV file: None when it cannot be opened, otherwise its first row
    * (None for an empty file) and the rows after it. */
  datatype Csv = Csv(firstRow: Option<seq<string>>, rows: seq<seq<string>>)

  /** The order in which the database returns the records of a query. */
  datatype Env = Env(order: set<string> -> seq<string>)

  /** The database lists every query's records, each exactly once. */
  ghost predicate OrderLists(env: Env)
  {
    forall found :: RecordStore.Listing(env.order(found), found)
  }

  /** The record store, the error list and the reports written. */
  datatype State = State(store: RecordStore.Store, errors: seq<seq<string>>, reports: seq<seq<seq<string>>>)

  /** How the run ends, or that it carries on. */
  datatype Ending = Running | Exited(code: string) | Crashed

  /** errorCSV: the error list, when it is not empty, is written as a
    * report. */
  function ErrorCSV(s: State): State
  {
    if |s.errors| > 0 then s.(reports := s.reports + [s.errors]) else s
  }

  /** An error message added to the list, the report written, and exit. */
  function Fail(s: State, msg: string, code: string): (Ending, State)
  {
    (Exited(code), ErrorCSV(s.(errors := s.errors + [[msg]])))
  }

  // ---------------------------------------------------------------------
  // The rows after the header

  /** The error-list entry of a rejected row. */
  function RejectedRow(row: seq<string>): seq<string>
  {
    row + [Columns.NOT_VALID_INPUT]
  }

  /** The rows read after the header, with `numCols` arrangement columns:
    * the rows kept for processing and the state after the rejections. A
    * rejected row is added to the error list and the report is written
    * again. */
  function ReadSpec(numCols: nat, rows: seq<seq<string>>, s: State): (seq<seq<string>>, State)
    decreases |rows|
  {
    if rows == [] then ([], s)
    else if numCols % MIN_NUM_COLS != 0 then
      ReadSpec(numCols, rows[1..], ErrorCSV(s.(errors := s.errors + [RejectedRow(rows[0])])))
    else
      var r := ReadSpec(numCols, rows[1..], s);
      ([rows[0]] + r.0, r.1)
  }

  /** Acceptance depends on the header alone: with an even number of
    * arrangement columns every row is kept and nothing is reported; with
    * an odd number none is kept, each row is added to the error list with
    * its comment, and one report is written per row. */
  lemma {:induction false} ReadRule(numCols: nat, rows: seq<seq<string>>, s: State)
    ensures var r := ReadSpec(numCols, rows, s);
      (numCols % MIN_NUM_COLS == 0 ==> r == (rows, s)) &&
      (numCols % MIN_NUM_COLS != 0 ==>
         r.0 == [] && r.1.store == s.store &&
         r.1.errors == s.errors + seq(|rows|, i requires 0 <= i < |rows| => RejectedRow(rows[i])) &&
         |r.1.reports| == |s.reports| + |rows|)
    decreases |rows|
  {
    if rows != [] {
      if numCols % MIN_NUM_COLS != 0 {
        var s' := ErrorCSV(s.(errors := s.errors + [RejectedRow(rows[0])]));
        ReadRule(numCols, rows[1..], s');
        var rest := seq(|rows| - 1, i requires 0 <= i < |rows| - 1 => RejectedRow(rows[1..][i]));
        var all := seq(|rows|, i requires 0 <= i < |rows| => RejectedRow(rows[i]));
        assert all == [RejectedRow(rows[0])] + rest;
      } else {
        ReadRule(numCols, rows[1..], s);
        assert [rows[0]] + rows[1..] == rows;
      }
    }
  }

  /** The loop of main over the rows after the header. */
  method ReadRows(numCols: nat, rows: seq<seq<string>>, s: State) returns (kept: seq<seq<string>>, t: State)
    ensures (kept, t) == ReadSpec(numCols, rows, s)
  {
    kept, t := [], s;
    var i := 0;
    assert rows[0..] == rows;
    assert [] + ReadSpec(numCols, rows, s).0 == ReadSpec(numCols, rows, s).0;
    while i < |rows|
      invariant 0 <= i <= |rows|
      invariant var r := ReadSpec(numCols, rows[i..], t); ReadSpec(numCols, rows, s) == (kept + r.0, r.1)
    {
      assert rows[i..][1..] == rows[i + 1..];
      ghost var r := ReadSpec(numCols, rows[i + 1..], t);
      if numCols % MIN_NUM_COLS != 0 {
        t := ErrorCSV(t.(errors := t.errors + [RejectedRow(rows[i])]));
      } else {
        assert kept + ([rows[i]] + r.0) == (kept + [rows[i]]) + r.0;
        kept := kept + [rows[i]];
      }
      i := i + 1;
    }
    assert rows[i..] == [];
    assert kept + [] == kept;
  }

  // ---------------------------------------------------------------------
  // The query

  /** The labels of the arrangement dictionary that take part in the
    * query: those that contain "Label". */
  function QueryLabels(info: map<string, string>): set<string>
  {
    set l | l in info && Contains(l, "Label")
  }

  /** The records the query `admin.arrangement.<label> == value`, for every
    * query label, selects. */
  function Select(store: RecordStore.Store, info: map<string, string>): set<string>
  {
    set id | id in store && forall l :: l in QueryLabels(info) ==> RecordStore.HasArrangement(store[id], l, info[l])
  }

  /** The value of a column whose tag has no "Label" (a name column) plays
    * no part in the selection. */
  lemma SelectIgnoresNames(store: RecordStore.Store, info: map<string, string>, k: string, v: string)
    requires !Contains(k, "Label")
    ensures Select(store, info[k := v]) == Select(store, info)
    ensures Select(store, info - {k}) == Select(store, info)
  {
    assert QueryLabels(info[k := v]) == QueryLabels(info);
    assert QueryLabels(info - {k}) == QueryLabels(info);
  }

  /** The loop that builds the query: one condition per label that
    * contains "Label", for the keys of the dictionary in order. */
  method BuildQuery(keys: seq<string>, info: map<string, string>) returns (query: seq<string>)
    requires forall k :: k in info <==> k in keys
    ensures forall l :: l in query <==> l in QueryLabels(info)
  {
    query := [];
    for i := 0 to |keys|
      invariant forall l :: l in query <==> l in keys[..i] && Contains(l, "Label")
    {
      assert keys[..i + 1] == keys[..i] + [keys[i]];
      if Contains(keys[i], "Label") {
        query := query + [keys[i]];
      }
    }
    assert keys[..|keys|] == keys;
  }

  // ---------------------------------------------------------------------
  // One document

  /** The arrangement dictionary as stored values. */
  function Texts(info: map<string, string>): map<string, Value>
  {
    map k | k in info :: Text(info[k])
  }

  /** What the visit of the first document leads to: the document with
    * the dictionary merged into its arrangement, or the finding that it
    * already holds every key. */
  datatype Visit = Merged(doc: Record) | AlreadyUpdated

  function VisitDoc(info: map<string, string>, doc: Record): Visit
  {
    if exists k :: k in info && k !in doc.arrangement then Merged(doc.(arrangement := doc.arrangement + Texts(info)))
    else AlreadyUpdated
  }

  /** A merged document holds every entry of the dictionary, so the same
    * query selects it again, and a second visit finds it already updated;
    * nothing but its arrangement changes. */
  lemma MergeCompletes(info: map<string, string>, doc: Record)
    requires VisitDoc(info, doc).Merged?
    ensures var d := VisitDoc(info, doc).doc;
      d.(arrangement := doc.arrangement) == doc &&
      (forall l :: l in info ==> RecordStore.HasArrangement(d, l, info[l])) &&
      (forall k :: k in doc.arrangement && k !in info ==> d.arrangement[k] == doc.arrangement[k]) &&
      VisitDoc(info, d) == AlreadyUpdated
  {
    var d := VisitDoc(info, doc).doc;
    forall k | k in info ensures k in d.arrangement {
      assert k in Texts(info);
    }
  }

  /** The loop over the keys with its flag: whether some key is missing
    * from the document's arrangement. */
  method HasMissingKey(keys: seq<string>, doc: Record) returns (missing: bool)
    ensures missing <==> exists k :: k in keys && k !in doc.arrangement
  {
    var i := 0;
    while i < |keys|
      invariant 0 <= i <= |keys|
      invariant forall j :: 0 <= j < i ==> keys[j] in doc.arrangement
    {
      if keys[i] !in doc.arrangement {
        return true;
      }
      i := i + 1;
    }
    return false;
  }

  /** adminRecord. An empty query makes the database raise. No record ends
    * the run with ERROR_CANNOT_FIND_DOCUMENT. The first record returned
    * ends it either way: merged and written back by its `_id`, then a bare
    * `exit()`; or, already holding every key, with ERROR_ADMIN_UPDATED,
    * which `updated` gives when the error-code module defines it (None:
    * the lookup raises). */
  function AdminRecordSpec(env: Env, updated: Option<ErrorCode>, info: map<string, string>, s: State): (Ending, State)
  {
    if QueryLabels(info) == {} then (Crashed, s)
    else
      var records := RecordStore.Fetch(s.store, env.order(Select(s.store, info)));
      if |records| == 0 then Fail(s, MSG_CANNOT_FIND_DOCUMENT, ERROR_CANNOT_FIND_DOCUMENT)
      else VisitEnd(updated, info, records[0], s)
  }

  /** How the visit of the first document returned ends the run. */
  function VisitEnd(updated: Option<ErrorCode>, info: map<string, string>, doc: Record, s: State): (Ending, State)
  {
    match VisitDoc(info, doc)
    case Merged(d) => (Exited(NO_CODE), s.(store := RecordStore.WriteBack(s.store, doc.id, d)))
    case AlreadyUpdated =>
      if updated.None? then (Crashed, s) else Fail(s, updated.value.message, updated.value.code)
  }

  /** With an order that lists the query's records, a query that selects
    * no record ends the run with ERROR_CANNOT_FIND_DOCUMENT, reported, and
    * one that selects some record visits one of them. */
  lemma AdminNotFound(env: Env, updated: Option<ErrorCode>, info: map<string, string>, s: State)
    requires QueryLabels(info) != {}
    requires RecordStore.Listing(env.order(Select(s.store, info)), Select(s.store, info))
    ensures Select(s.store, info) == {} ==>
      AdminRecordSpec(env, updated, info, s) == Fail(s, MSG_CANNOT_FIND_DOCUMENT, ERROR_CANNOT_FIND_DOCUMENT)
    ensures Select(s.store, info) != {} ==>
      exists id :: id in Select(s.store, info) && AdminRecordSpec(env, updated, info, s) == VisitEnd(updated, info, s.store[id], s)
  {
    var found := Select(s.store, info);
    var ids := env.order(found);
    if found == {} {
      assert ids == [];
    } else {
      var some :| some in found;
      RecordStore.FetchNonEmpty(s.store, ids, some);
      var id := FetchedId(s.store, ids);
      assert AdminRecordSpec(env, updated, info, s) == VisitEnd(updated, info, s.store[id], s);
    }
  }

  method AdminRecord(env: Env, updated: Option<ErrorCode>, keys: seq<string>, info: map<string, string>, s: State)
    returns (e: Ending, t: State)
    requires forall k :: k in info <==> k in keys
    ensures (e, t) == AdminRecordSpec(env, updated, info, s)
  {
    var query := BuildQuery(keys, info);
    if query == [] {
      assert QueryLabels(info) == {};
      return Crashed, s;
    }
    assert query[0] in QueryLabels(info);
    var records := RecordStore.Fetch(s.store, env.order(Select(s.store, info)));
    if |records| == 0 {
      e, t := Exited(ERROR_CANNOT_FIND_DOCUMENT), ErrorCSV(s.(errors := s.errors + [[MSG_CANNOT_FIND_DOCUMENT]]));
      return;
    }
    var document := records[0];
    var missing := HasMissingKey(keys, document);
    if missing {
      var merged := document.(arrangement := document.arrangement + Texts(info));
      return Exited(NO_CODE), s.(store := RecordStore.WriteBack(s.store, document.id, merged));
    }
    if updated.None? {
      return Crashed, s;
    }
    e, t := Exited(updated.value.code), ErrorCSV(s.(errors := s.errors + [[updated.value.message]]));
  }

  /** adminRecord never returns: every call ends the run. */
  lemma AdminRecordEnds(env: Env, updated: Option<ErrorCode>, info: map<string, string>, s: State)
    ensures !AdminRecordSpec(env, updated, info, s).0.Running?
  {
  }

  /** On a store keyed by `_id`, with an order that lists the query's
    * records, adminRecord changes at most one record, one the query
    * selects, and in it only the arrangement, into which every entry of
    * the dictionary is merged. */
  lemma AdminRecordChanges(env: Env, updated: Option<ErrorCode>, info: map<string, string>, s: State)
    requires RecordStore.Keyed(s.store)
    requires RecordStore.Listing(env.order(Select(s.store, info)), Select(s.store, info))
    ensures var t := AdminRecordSpec(env, updated, info, s).1;
      OneMerged(s.store, t.store, info)
  {
    var t := AdminRecordSpec(env, updated, info, s).1;
    if QueryLabels(info) != {} {
      var ids := env.order(Select(s.store, info));
      var records := RecordStore.Fetch(s.store, ids);
      if |records| > 0 && VisitDoc(info, records[0]).Merged? {
        var doc := records[0];
        var id := FetchedId(s.store, ids);
        assert id in Select(s.store, info);
        var d := VisitDoc(info, doc).doc;
        MergeCompletes(info, doc);
        assert doc == s.store[id] && d.id == id;
        assert s.store[id].entities + d.entities == d.entities;
        assert t.store == s.store[id := d];
        assert MergedAt(s.store, t.store, info, id);
      } else {
        assert t.store == s.store;
        assert MergedAt(s.store, t.store, info, "") by {
          assert forall k :: k in s.store ==> t.store[k] == s.store[k];
        }
      }
    } else {
      assert MergedAt(s.store, t.store, info, "") by {
        assert forall k :: k in s.store ==> t.store[k] == s.store[k];
      }
    }
  }

  /** The id of the first fetched record. */
  lemma {:induction false} FetchedId(store: RecordStore.Store, ids: seq<string>) returns (id: string)
    requires |RecordStore.Fetch(store, ids)| > 0
    ensures id in ids && id in store && RecordStore.Fetch(store, ids)[0] == store[id]
    decreases |ids|
  {
    if ids[0] in store {
      id := ids[0];
    } else {
      id := FetchedId(store, ids[1..]);
    }
  }

  /** `b` is `a` with at most the record `id` changed, one that the query
    * of `info` selects, and that one only in its arrangement, which holds
    * every entry of `info`. */
  ghost predicate MergedAt(a: RecordStore.Store, b: RecordStore.Store, info: map<string, string>, id: string)
  {
    a.Keys == b.Keys &&
    (forall k :: k in a && k != id ==> b[k] == a[k]) &&
    (id in a && b[id] != a[id] ==>
       id in Select(a, info) &&
       b[id].(arrangement := a[id].arrangement) == a[id] &&
       forall l :: l in info ==> RecordStore.HasArrangement(b[id], l, info[l]))
  }

  ghost predicate OneMerged(a: RecordStore.Store, b: RecordStore.Store, info: map<string, string>)
  {
    exists id :: MergedAt(a, b, info, id)
  }

  // ---------------------------------------------------------------------
  // The run

  /** The command line: no arguments at all exits without a report; a
    * missing `-f` is reported. */
  datatype Parsed = Parsed(csvFile: string) | Refused(code: string, msg: Option<string>)

  function ParseSpec(a: Args): Parsed
  {
    if a.count == 0 then Refused(ERROR_INVALID_ARGUMENT_STRING, None)
    else if a.file.None? then Refused(ERROR_FILE_ARGUMENT, Some(MSG_FILE_ARGUMENT))
    else Parsed(a.file.value)
  }

  /** One row processed: its arrangement dictionary (IndexError when the
    * row is shorter than the tags) given to adminRecord. */
  function RowStep(env: Env, updated: Option<ErrorCode>, tags: seq<string>, row: seq<string>, s: State): (Ending, State)
  {
    match Columns.InfoOf(row, tags)
    case None => (Crashed, s)
    case Some(info) => AdminRecordSpec(env, updated, info, s)
  }

  function RowsSpec(env: Env, updated: Option<ErrorCode>, tags: seq<string>, rows: seq<seq<string>>, s: State): (Ending, State)
    decreases |rows|
  {
    if rows == [] then (Running, s)
    else
      var r := RowStep(env, updated, tags, rows[0], s);
      if r.0.Running? then RowsSpec(env, updated, tags, rows[1..], r.1) else r
  }

  /** Only the first kept row is ever processed: it ends the run. */
  lemma FirstRowOnly(env: Env, updated: Option<ErrorCode>, tags: seq<string>, rows: seq<seq<string>>, s: State)
    requires rows != []
    ensures RowsSpec(env, updated, tags, rows, s) == RowStep(env, updated, tags, rows[0], s)
    ensures !RowsSpec(env, updated, tags, rows, s).0.Running?
  {
    if Columns.InfoOf(rows[0], tags).Some? {
      AdminRecordEnds(env, updated, Columns.InfoOf(rows[0], tags).value, s);
    }
  }

  /** main: the command line, the CSV file, the header (recorded with a
    * "Comments" column at the head of the error list), the rows and the
    * records. The label and vocabulary files and the database connection
    * are not part of this model. */
  function RunSpec(env: Env, updated: Option<ErrorCode>, args: Args, csv: Option<Csv>,
                   store: RecordStore.Store): (Ending, State)
  {
    var s := State(store, [], []);
    match ParseSpec(args)
    case Refused(code, msg) => if msg.None? then (Exited(code), s) else Fail(s, msg.value, code)
    case Parsed(_) =>
      if csv.None? then (Exited(ERROR_CANNOT_OPEN_CSV_FILE), s)
      else if csv.value.firstRow.None? then (Crashed, s)
      else if csv.value.firstRow.value == [] then Fail(s, MSG_INVALID_HEADER_ROW, ERROR_INVALID_HEADER_ROW)
      else
        var hdr := csv.value.firstRow.value;
        var tags := Columns.NameOrLabelTagsOf(hdr);
        var read := ReadSpec(|tags|, csv.value.rows, s.(errors := [hdr + ["Comments"]]));
        RowsSpec(env, updated, tags, read.0, read.1)
  }

  /** The loop of main over the kept rows. */
  method ProcessRows(env: Env, updated: Option<ErrorCode>, tags: seq<string>, rows: seq<seq<string>>, s: State)
    returns (e: Ending, t: State)
    ensures (e, t) == RowsSpec(env, updated, tags, rows, s)
  {
    e, t := Running, s;
    var i := 0;
    assert rows[0..] == rows;
    while i < |rows|
      invariant 0 <= i <= |rows|
      invariant RowsSpec(env, updated, tags, rows[i..], t) == RowsSpec(env, updated, tags, rows, s)
    {
      assert rows[i..][1..] == rows[i + 1..];
      var info := Columns.ArrangementInfo(rows[i], tags);
      if info.None? {
        return Crashed, t;
      }
      InfoKeys(rows[i], tags);
      var e', t' := AdminRecord(env, updated, tags, info.value, t);
      if !e'.Running? {
        return e', t';
      }
      t := t';
      i := i + 1;
    }
  }

  /** The keys of a row's arrangement dictionary are its tags. */
  lemma InfoKeys(row: seq<string>, tags: seq<string>)
    requires Columns.InfoOf(row, tags).Some?
    ensures forall k :: k in Columns.InfoOf(row, tags).value <==> k in tags
  {
    Columns.TaggedKeys(row, tags, 0, |tags|);
    forall k | k in tags ensures k in Columns.InfoOf(row, tags).value {
      var j :| 0 <= j < |tags| && tags[j] == k;
    }
  }

  /** main. */
  method RunAdmin(env: Env, updated: Option<ErrorCode>, args: Args, csv: Option<Csv>, store: RecordStore.Store)
    returns (e: Ending, t: State)
    ensures (e, t) == RunSpec(env, updated, args, csv, store)
  {
    t := State(store, [], []);
    if args.count == 0 {
      return Exited(ERROR_INVALID_ARGUMENT_STRING), t;
    }
    if args.file.None? {
      e, t := Exited(ERROR_FILE_ARGUMENT), ErrorCSV(t.(errors := t.errors + [[MSG_FILE_ARGUMENT]]));
      return;
    }
    if csv.None? {
      return Exited(ERROR_CANNOT_OPEN_CSV_FILE), t;
    }
    var firstRow := csv.value.firstRow;
    if firstRow.None? {
      return Crashed, t;
    }
    if |firstRow.value| == 0 {
      e, t := Exited(ERROR_INVALID_HEADER_ROW), ErrorCSV(t.(errors := t.errors + [[MSG_INVALID_HEADER_ROW]]));
      return;
    }
    var hdr := firstRow.value;
    var tags := Columns.NameOrLabelTags(hdr);
    t := t.(errors := t.errors + [hdr + ["Comments"]]);
    assert t.errors == [hdr + ["Comments"]];
    var kept;
    kept, t := ReadRows(|tags|, csv.value.rows, t);
    e, t := ProcessRows(env, updated, tags, kept, t);
  }

  /** Over the whole run, on a store keyed by `_id` and with a database
    * that lists each query's records: at most one record changes, one the
    * first kept row's query selects, and in it only the arrangement, which
    * then holds that row's dictionary. */
  lemma RunChangesOneRecord(env: Env, updated: Option<ErrorCode>, args: Args, csv: Option<Csv>, store: RecordStore.Store)
    requires RecordStore.Keyed(store) && OrderLists(env)
    ensures var t := RunSpec(env, updated, args, csv, store).1;
      t.store == store || exists info :: OneMerged(store, t.store, info)
  {
    var s := State(store, [], []);
    if ParseSpec(args).Parsed? && csv.Some? && csv.value.firstRow.Some? && csv.value.firstRow.value != [] {
      var hdr := csv.value.firstRow.value;
      var tags := Columns.NameOrLabelTagsOf(hdr);
      var s1 := s.(errors := [hdr + ["Comments"]]);
      var read := ReadSpec(|tags|, csv.value.rows, s1);
      ReadRule(|tags|, csv.value.rows, s1);
      if read.0 != [] {
        FirstRowOnly(env, updated, tags, read.0, read.1);
        var info := Columns.InfoOf(read.0[0], tags);
        if info.Some? {
          var found := Select(read.1.store, info.value);
          assert RecordStore.Listing(env.order(found), found);
          AdminRecordChanges(env, updated, info.value, read.1);
        }
      }
    }
  }
}
