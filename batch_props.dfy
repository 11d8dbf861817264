// What the batch driver of bin/accession.py promises about its error list:
// the header (with a Comments column) comes first, then the short rows,
// then the rows whose source is missing or whose transfer failed, each
// with its reason; a row whose directory is already fully recorded adds
// nothing.

module BatchProperties {
  import opened Common
  import opened Files
  import Columns
  import RecordStore
  import Accession
  import AccessionProperties
  import opened Batch

  /** A row whose source directory does not exist is reported with
    * "Source does not exist", and nothing else happens. */
  lemma SourceMissingReported(s: Accession.Settings, o: Accession.Oracle, glob: (string, FileSystem) -> seq<string>,
                              tags: seq<string>, row: seq<string>, w: Accession.World)
    requires |row| >= MIN_NUM_COLS + |tags| && row[0] !in w.dirs
    ensures RowStep(s, o, glob, tags, row, w) == Continue([row + [SOURCE_MISSING_COMMENT]], w)
  {
  }

  /** Re-running a row whose destination exists and whose files are all
    * recorded already transfers nothing and adds nothing to the error
    * list. */
  lemma RecordedRowAddsNothing(s: Accession.Settings, o: Accession.Oracle, glob: (string, FileSystem) -> seq<string>,
                               tags: seq<string>, row: seq<string>, w: Accession.World, prev: int)
    requires |row| >= MIN_NUM_COLS + |tags| && row[0] in w.dirs && row[1] in w.dirs
    requires 0 < |glob(row[0], w.fs)| <= prev
    requires RecordStore.HighestSerialNo(w.store, row[0], o.regex, Accession.EmptySerial(s.variant)) == Some(prev)
    ensures RowStep(s, o, glob, tags, row, w) == Continue([], w)
  {
    AccessionProperties.RecordedDirectoryIsSkipped(s, o, row[0], row[1], ArrangementInfoOf(row, tags), glob(row[0], w.fs), w, prev);
  }

  /** A source directory with no file of the extension is reported with
    * the "No files found" comment. */
  lemma EmptySourceReported(s: Accession.Settings, o: Accession.Oracle, glob: (string, FileSystem) -> seq<string>,
                            tags: seq<string>, row: seq<string>, w: Accession.World)
    requires |row| >= MIN_NUM_COLS + |tags| && row[0] in w.dirs && glob(row[0], w.fs) == []
    requires Accession.Resume(s, o, row[0], row[1], w).0.Some?
    ensures RowStep(s, o, glob, tags, row, w)
         == Continue([row + [Accession.NoFilesComment(s.ext)]], Accession.Resume(s, o, row[0], row[1], w).1)
  {
    AccessionProperties.NoFilesFound(s, o, row[0], row[1], ArrangementInfoOf(row, tags), w);
  }

  /** `errs` is `start` followed by at most `n` more entries. */
  predicate Extends(errs: seq<seq<string>>, start: seq<seq<string>>, n: nat)
  {
    |start| <= |errs| <= |start| + n && errs[..|start|] == start
  }

  /** The error list only grows, by at most one entry per row, and keeps
    * what it held. */
  lemma {:induction false} RowsErrorList(s: Accession.Settings, o: Accession.Oracle, glob: (string, FileSystem) -> seq<string>,
                                         tags: seq<string>, rows: seq<seq<string>>, errorList: seq<seq<string>>, w: Accession.World)
    requires forall r :: r in rows ==> |r| >= MIN_NUM_COLS + |tags|
    requires RowsSpec(s, o, glob, tags, rows, errorList, w).Continue?
    ensures Extends(RowsSpec(s, o, glob, tags, rows, errorList, w).errors, errorList, |rows|)
    decreases |rows|
  {
    if rows != [] {
      assert rows[0] in rows;
      match RowStep(s, o, glob, tags, rows[0], w)
      case Halt(_, _) =>
      case Continue(errs, w') =>
        assert forall r :: r in rows[1..] ==> r in rows;
        RowsErrorList(s, o, glob, tags, rows[1..], errorList + errs, w');
        var final := RowsSpec(s, o, glob, tags, rows[1..], errorList + errs, w').errors;
        assert final[..|errorList + errs|][..|errorList|] == final[..|errorList|];
    }
  }

  /** An error report laid out as the batch driver writes it: the header
    * `hdr` first, then the entries `rejected`, then at most one entry for
    * each of the other `total - |rejected|` rows. */
  predicate ReportShape(errs: seq<seq<string>>, hdr: seq<string>, rejected: seq<seq<string>>, total: nat)
  {
    && 1 + |rejected| <= |errs| <= 1 + total
    && errs[0] == hdr
    && errs[1..1 + |rejected|] == rejected
  }

  /** A finished batch's error list starts with the header and its
    * Comments column, followed by the entries of the short rows, and holds
    * at most one entry per row. */
  lemma FinishedErrorList(s: Accession.Settings, o: Accession.Oracle, glob: (string, FileSystem) -> seq<string>,
                          firstRow: Option<seq<string>>, rows: seq<seq<string>>, w: Accession.World)
    requires BatchSpec(s, o, glob, firstRow, rows, w).Finished?
    ensures firstRow.Some?
    ensures ReportShape(BatchSpec(s, o, glob, firstRow, rows, w).errorList, firstRow.value + ["Comments"],
                        Columns.Rejections(rows, MIN_NUM_COLS + |ArrangementTagsOf(firstRow.value)|, s.build), |rows|)
  {
    var hdr := firstRow.value;
    var minNumCols := MIN_NUM_COLS + |ArrangementTagsOf(hdr)|;
    var rejected := Columns.Rejections(rows, minNumCols, s.build);
    BatchFinished(s, o, glob, firstRow, rows, w);
    PrefixParts(BatchSpec(s, o, glob, firstRow, rows, w).errorList, hdr + ["Comments"], rejected,
                |Columns.Long(rows, minNumCols)|, |rows|);
  }

  /** A finished batch's error list is the header and the short rows'
    * entries, followed by at most one entry per row of the transfer
    * list. */
  lemma BatchFinished(s: Accession.Settings, o: Accession.Oracle, glob: (string, FileSystem) -> seq<string>,
                      firstRow: Option<seq<string>>, rows: seq<seq<string>>, w: Accession.World)
    requires BatchSpec(s, o, glob, firstRow, rows, w).Finished?
    ensures firstRow.Some?
    ensures var minNumCols := MIN_NUM_COLS + |ArrangementTagsOf(firstRow.value)|;
      Extends(BatchSpec(s, o, glob, firstRow, rows, w).errorList,
              [firstRow.value + ["Comments"]] + Columns.Rejections(rows, minNumCols, s.build),
              |Columns.Long(rows, minNumCols)|)
  {
    var tags := ArrangementTagsOf(firstRow.value);
    var minNumCols := MIN_NUM_COLS + |tags|;
    var start := [firstRow.value + ["Comments"]] + Columns.Rejections(rows, minNumCols, s.build);
    RowsErrorList(s, o, glob, tags, Columns.Long(rows, minNumCols), start, w);
  }

  lemma PrefixParts(errs: seq<seq<string>>, first: seq<string>, rest: seq<seq<string>>, n: nat, total: nat)
    requires |rest| + n == total
    requires Extends(errs, [first] + rest, n)
    ensures ReportShape(errs, first, rest, total)
  {
    assert errs[0] == errs[..1 + |rest|][0];
    forall k | 0 <= k < |rest|
      ensures errs[1..1 + |rest|][k] == rest[k]
    {
      assert errs[..1 + |rest|][k + 1] == rest[k];
    }
  }

  /** A batch with a row too short to transfer always writes the error
    * report, if it finishes. */
  lemma ShortRowWritesReport(s: Accession.Settings, o: Accession.Oracle, glob: (string, FileSystem) -> seq<string>,
                             firstRow: Option<seq<string>>, rows: seq<seq<string>>, w: Accession.World, i: nat)
    requires BatchSpec(s, o, glob, firstRow, rows, w).Finished?
    requires firstRow.Some? && i < |rows| && |rows[i]| < MIN_NUM_COLS + |ArrangementTagsOf(firstRow.value)|
    ensures WritesErrorReport(BatchSpec(s, o, glob, firstRow, rows, w).errorList)
  {
    var minNumCols := MIN_NUM_COLS + |ArrangementTagsOf(firstRow.value)|;
    Columns.RejectionsNonEmpty(rows, minNumCols, s.build, i);
    FinishedErrorList(s, o, glob, firstRow, rows, w);
  }

}
