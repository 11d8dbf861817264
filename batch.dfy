// The batch driver of bin/accession.py (its `main`): the CSV header must
// start with the "source" and "destination" columns; each "arrange:X"
// column becomes the arrangement tag "XLabel". Short rows are rejected into
// the error list, and every other row runs transferFiles. A row that
// fails goes to the error list with the transfer's comment, and the
// error report is written when that list holds more than its header.

module Batch {
  import opened Common
  import opened Files
  import Columns
  import MetadataUtils
  import Accession

  const SOURCE_MISSING_COMMENT := "Source does not exist"
  /** The columns every row needs besides its arrange: columns. */
  const MIN_NUM_COLS := 2

  /** What the header check decides: carry on, exit with
    * ERROR_INVALID_HEADER_ROW, or raise IndexError inside isHeaderValid. */
  datatype HeaderVerdict = Accepted | Rejected | Raises

  /** The header check: no first row at all, or one that isHeaderValid
    * refuses, ends the run. */
  function CheckHeader(firstRow: Option<seq<string>>): (v: HeaderVerdict)
    ensures v == Accepted <==>
      firstRow.Some? && |firstRow.value| >= 2
      && firstRow.value[0] == MetadataUtils.CSV_COL_1_NAME && firstRow.value[1] == MetadataUtils.CSV_COL_2_NAME
    ensures v == Raises <==> firstRow.Some? && MetadataUtils.IsHeaderValid(firstRow.value).None?
  {
    if firstRow.None? then Rejected
    else
      match MetadataUtils.IsHeaderValid(firstRow.value)
      case None => Raises
      case Some(ok) => if ok then Accepted else Rejected
  }

  /** The arrangement tag of an arrange: column: the text after its last
    * ':' followed by "Label". */
  function ArrangementTag(col: string): string
  {
    AfterLast(col, ':') + Columns.ARRANGEMENT_INFO_LABEL_SUFFIX
  }

  function ArrangementTagsOf(hdr: seq<string>): seq<string>
  {
    Columns.TagsOf(Columns.Marked(hdr, Columns.ARRANGEMENT_INFO_MARKER), ArrangementTag)
  }

  /** The loop that numbers the header's arrange: columns:
    * tags[k] is arrangementInfoTags[k + 1]. */
  method ArrangementTags(hdr: seq<string>) returns (tags: seq<string>)
    ensures tags == ArrangementTagsOf(hdr)
  {
    tags := [];
    for i := 0 to |hdr|
      invariant tags == Columns.TagsOf(Columns.Marked(hdr[..i], Columns.ARRANGEMENT_INFO_MARKER), ArrangementTag)
    {
      Columns.MarkedSnoc(hdr, i, Columns.ARRANGEMENT_INFO_MARKER);
      if StartsWith(hdr[i], Columns.ARRANGEMENT_INFO_MARKER) {
        Columns.TagsOfSnoc(Columns.Marked(hdr[..i], Columns.ARRANGEMENT_INFO_MARKER), hdr[i], ArrangementTag);
        tags := tags + [AfterLast(hdr[i], ':') + Columns.ARRANGEMENT_INFO_LABEL_SUFFIX];
      }
    }
    assert hdr[..|hdr|] == hdr;
  }

  /** The arrangement dictionary of a row: tag k (from 0) takes column
    * k + 2. */
  function ArrangementInfoOf(row: seq<string>, tags: seq<string>): map<string, string>
    requires |row| >= MIN_NUM_COLS + |tags|
  {
    Columns.Tagged(row, tags, MIN_NUM_COLS, |tags|)
  }

  /** The loop that fills the arrangement dictionary of a row. */
  method ArrangementInfo(row: seq<string>, tags: seq<string>) returns (info: map<string, string>)
    requires |row| >= MIN_NUM_COLS + |tags|
    ensures info == ArrangementInfoOf(row, tags)
  {
    info := map[];
    for arrangementId := 1 to |tags| + 1
      invariant info == Columns.Tagged(row, tags, MIN_NUM_COLS, arrangementId - 1)
    {
      info := info[tags[arrangementId - 1] := row[arrangementId + 1]];
    }
  }

  /** The result of one row of the transfer list: the entries it adds to
    * the error list and the world after it, or the end of the process (an
    * exit or an exception inside transferFiles). */
  datatype RowResult = Continue(errors: seq<seq<string>>, w: Accession.World) | Halt(out: Accession.Outcome, w: Accession.World)

  /** One turn of the loop over the transfer list; glob(src, fs) is the
    * sorted list of files of `src` with the extension. */
  function RowStep(s: Accession.Settings, o: Accession.Oracle, glob: (string, FileSystem) -> seq<string>,
                   tags: seq<string>, row: seq<string>, w: Accession.World): RowResult
    requires |row| >= MIN_NUM_COLS + |tags|
  {
    var src := row[0];
    var dst := row[1];
    if src !in w.dirs then Continue([row + [SOURCE_MISSING_COMMENT]], w)
    else
      var (out, w') := Accession.TransferFilesSpec(s, o, src, dst, ArrangementInfoOf(row, tags), glob(src, w.fs), w);
      if !out.Done? then Halt(out, w')
      else if out.status then Continue([], w')
      else Continue([row + [out.comment]], w')
  }

  /** The loop over the transfer list from `rows` on, with the error list
    * so far. */
  function RowsSpec(s: Accession.Settings, o: Accession.Oracle, glob: (string, FileSystem) -> seq<string>,
                    tags: seq<string>, rows: seq<seq<string>>, errorList: seq<seq<string>>, w: Accession.World): RowResult
    requires forall r :: r in rows ==> |r| >= MIN_NUM_COLS + |tags|
    decreases |rows|
  {
    if rows == [] then Continue(errorList, w)
    else
      match RowStep(s, o, glob, tags, rows[0], w)
      case Halt(out, w') => Halt(out, w')
      case Continue(errs, w') => RowsSpec(s, o, glob, tags, rows[1..], errorList + errs, w')
  }

  /** The loop over the transfer list. */
  method ProcessTransfers(s: Accession.Settings, o: Accession.Oracle, glob: (string, FileSystem) -> seq<string>,
                          tags: seq<string>, transferList: seq<seq<string>>, errorList: seq<seq<string>>, w: Accession.World)
    returns (result: RowResult)
    requires forall r :: r in transferList ==> |r| >= MIN_NUM_COLS + |tags|
    ensures result == RowsSpec(s, o, glob, tags, transferList, errorList, w)
  {
    var errs := errorList;
    var w' := w;
    for i := 0 to |transferList|
      invariant RowsSpec(s, o, glob, tags, transferList[i..], errs, w') == RowsSpec(s, o, glob, tags, transferList, errorList, w)
    {
      var row := transferList[i];
      assert transferList[i..][1..] == transferList[i + 1..];
      assert row in transferList;
      var src := row[0];
      var dst := row[1];
      var info := ArrangementInfo(row, tags);
      if src !in w'.dirs {
        errs := errs + [row + [SOURCE_MISSING_COMMENT]];
        continue;
      }
      var out, w1 := Accession.TransferFiles(s, o, src, dst, info, glob(src, w'.fs), w');
      if !out.Done? {
        return Halt(out, w1);
      }
      if !out.status {
        errs := errs + [row + [out.comment]];
      } else {
        errs := errs + [];
      }
      w' := w1;
    }
    assert transferList[|transferList|..] == [];
    result := Continue(errs, w');
  }

  /** How a batch run ends: at the header, in the middle of a transfer, or
    * with every row processed and the final error list. */
  datatype BatchResult = HeaderInvalid | HeaderRaises | Halted(out: Accession.Outcome, w: Accession.World)
                       | Finished(errorList: seq<seq<string>>, w: Accession.World)

  function BatchSpec(s: Accession.Settings, o: Accession.Oracle, glob: (string, FileSystem) -> seq<string>,
                     firstRow: Option<seq<string>>, rows: seq<seq<string>>, w: Accession.World): BatchResult
  {
    match CheckHeader(firstRow)
    case Rejected => HeaderInvalid
    case Raises => HeaderRaises
    case Accepted =>
      var hdr := firstRow.value;
      var tags := ArrangementTagsOf(hdr);
      var minNumCols := MIN_NUM_COLS + |tags|;
      var errorList := [hdr + ["Comments"]] + Columns.Rejections(rows, minNumCols, s.build);
      match RowsSpec(s, o, glob, tags, Columns.Long(rows, minNumCols), errorList, w)
      case Halt(out, w') => Halted(out, w')
      case Continue(errs, w') => Finished(errs, w')
  }

  /** main in batch mode, after the CSV file has been read: `firstRow` and
    * `rows` are its rows. */
  method RunBatch(s: Accession.Settings, o: Accession.Oracle, glob: (string, FileSystem) -> seq<string>,
              firstRow: Option<seq<string>>, rows: seq<seq<string>>, w: Accession.World)
    returns (result: BatchResult)
    ensures result == BatchSpec(s, o, glob, firstRow, rows, w)
  {
    var verdict := CheckHeader(firstRow);
    if verdict == Rejected {
      return HeaderInvalid;
    } else if verdict == Raises {
      return HeaderRaises;
    }
    var hdr := firstRow.value;
    var tags := ArrangementTags(hdr);
    var minNumCols := MIN_NUM_COLS + |tags|;
    var transferList, rejected := Columns.SplitRows(rows, minNumCols, s.build);
    var errorList := [hdr + ["Comments"]] + rejected;
    var res := ProcessTransfers(s, o, glob, tags, transferList, errorList, w);
    if res.Halt? {
      return Halted(res.out, res.w);
    }
    result := Finished(res.errors, res.w);
  }

  /** The error report is written iff the error list holds more than its
    * header. */
  predicate WritesErrorReport(errorList: seq<seq<string>>)
  {
    |errorList| > 1
  }
}
