// cpmasters.py, the oldest transfer script: every file of a source
// directory with the chosen extension is moved or copied straight to
// `<ObjectId>.<extension>` under the destination, its checksum compared
// with the source's, and a small preservation record inserted into the
// store. There is no resume, no rollback and no serial number. The script
// body reads a CSV of (Source, Destination, ead:...) rows and runs
// transfer_files for each row, collecting the rows that failed.

module CpMasters {
  import opened Common
  import opened Files
  import Columns

  /** The options of the run: the extension (-e) and move mode (-m). */
  datatype Settings = Settings(ext: string, move: bool)

  /** objectId(k) is the k-th bson ObjectId, clock(k) the k-th reading of
    * datetime.now formatted as '%d %b %Y %H:%M:%S', md5 the hex digest of
    * some bytes, landed(k, b) the bytes that reach the destination on the
    * k-th transfer of b. glob(src, fs) is the sorted list of files of `src`
    * with the extension, and canMakeDir(d) whether os.makedirs(d)
    * succeeds. */
  datatype Oracle = Oracle(
    objectId: nat -> string,
    clock: nat -> string,
    md5: Bytes -> string,
    landed: (nat, Bytes) -> Bytes,
    glob: (string, FileSystem) -> seq<string>,
    canMakeDir: string -> bool)

  /** The "preservationInfo" part of a record. */
  datatype Preservation = Preservation(eventType: string, source: string, destination: string,
                                       checksum: string, checksumAlgo: string, timestamp: string)

  /** A record of the oldest script's collection. */
  datatype CpRecord = CpRecord(id: string, preservationInfo: Preservation, eadInfo: map<string, string>)

  type Store = map<string, CpRecord>

  /** The file system, the directories, the store and how many files have
    * been transferred so far (which fixes the next ObjectId, clock reading
    * and copy). */
  datatype World = World(fs: FileSystem, dirs: set<string>, store: Store, drawn: nat)

  /** transfer_files' [status, comment] list, or an exception that its own
    * handler turns into a TypeError ("Error: " + exception). */
  datatype Outcome = Done(status: bool, comment: string) | Crash

  datatype StepResult = Next(w: World) | Stop(out: Outcome, w: World)

  const CHECKSUM_ALGO := "MD5 Hash"
  const MISMATCH_COMMENT := "Error: Checksum mismatch!"
  /** The columns every row needs besides its ead: columns. */
  const MIN_NUM_COLS := 2

  function NoFilesComment(ext: string): string
  {
    "No files found with extension '" + ext + "'!"
  }

  function SuccessComment(n: nat, total: nat): string
  {
    "Success. " + NatToString(n) + " out of " + NatToString(total) + " files transferred"
  }

  /** The record's event type: "migration" for a move, "replication" for
    * a copy. */
  function EventType(move: bool): (t: string)
    ensures t == "migration" <==> move
  {
    if move then "migration" else "replication"
  }

  /** `dst/<id>.<extension of f>`. */
  function UniquePath(dst: string, f: string, id: string): string
  {
    PathJoin(dst, id + "." + AfterLast(Basename(f), '.'))
  }

  /** The file system after shutil.move (move mode) or shutil.copy2 of `f`
    * to `unique`, with `landed` arriving. */
  function Placed(move: bool, fs: FileSystem, f: string, unique: string, landed: Bytes): FileSystem
  {
    if move then Copy(Remove(fs, f), unique, landed) else Copy(fs, unique, landed)
  }

  /** insertRecordInDB's record for file `f`. */
  function RecordOf(s: Settings, o: Oracle, f: string, unique: string, id: string, checksum: string,
                    ead: map<string, string>, k: nat): CpRecord
  {
    CpRecord(id, Preservation(EventType(s.move), f, unique, checksum, CHECKSUM_ALGO, o.clock(k)), ead)
  }

  /** One iteration of the loop of transfer_files. */
  function Step(s: Settings, o: Oracle, dst: string, ead: map<string, string>, f: string, w: World): StepResult
  {
    if f !in w.fs then Stop(Crash, w)   // getFileChecksum cannot open the file
    else
      var id := o.objectId(w.drawn);
      var unique := UniquePath(dst, f, id);
      if !s.move && unique == f then Stop(Crash, w)   // copy2 onto itself raises SameFileError
      else
        var landed := o.landed(w.drawn, w.fs[f]);
        var w' := w.(fs := Placed(s.move, w.fs, f, unique, landed), drawn := w.drawn + 1);
        if o.md5(landed) != o.md5(w.fs[f]) then Stop(Done(false, MISMATCH_COMMENT), w')
        else if id in w.store then Stop(Crash, w')   // insert_one raises DuplicateKeyError
        else Next(w'.(store := w.store[id := RecordOf(s, o, f, unique, id, o.md5(landed), ead, w.drawn)]))
  }

  /** The step of a run: Step with the run's settings, oracle, destination
    * and EAD data. */
  function StepOf(s: Settings, o: Oracle, dst: string, ead: map<string, string>): (string, World) -> StepResult
  {
    (f: string, w: World) => Step(s, o, dst, ead, f, w)
  }

  /** The loop over the files of `todo`, for any step, with `n` files done. */
  function Run(step: (string, World) -> StepResult, todo: seq<string>, n: nat, total: nat, w: World): (Outcome, World)
    decreases |todo|
  {
    if todo == [] then (Done(true, SuccessComment(n, total)), w)
    else
      match step(todo[0], w)
      case Stop(out, w') => (out, w')
      case Next(w') => Run(step, todo[1..], n + 1, total, w')
  }

  /** The loop of transfer_files. */
  function Loop(s: Settings, o: Oracle, dst: string, ead: map<string, string>, todo: seq<string>,
                n: nat, total: nat, w: World): (Outcome, World)
  {
    Run(StepOf(s, o, dst, ead), todo, n, total, w)
  }

  /** transfer_files(src, dst, eadInfo) over the sorted file list. */
  function TransferFilesSpec(s: Settings, o: Oracle, dst: string, ead: map<string, string>,
                             fileList: seq<string>, w: World): (Outcome, World)
  {
    if |fileList| == 0 then (Done(false, NoFilesComment(s.ext)), w)
    else Loop(s, o, dst, ead, fileList, 0, |fileList|, w)
  }

  /** transfer_files: every file of the list, in order, until one fails. */
  method TransferFiles(s: Settings, o: Oracle, dst: string, ead: map<string, string>,
                       fileList: seq<string>, w: World)
    returns (out: Outcome, w': World)
    ensures (out, w') == TransferFilesSpec(s, o, dst, ead, fileList, w)
  {
    w' := w;
    var totalNumFiles := |fileList|;
    if totalNumFiles == 0 {
      return Done(false, NoFilesComment(s.ext)), w';
    }
    var numFilesTransferred := 0;
    assert fileList[numFilesTransferred..] == fileList;
    while numFilesTransferred < totalNumFiles
      invariant 0 <= numFilesTransferred <= totalNumFiles
      invariant Loop(s, o, dst, ead, fileList[numFilesTransferred..], numFilesTransferred, totalNumFiles, w')
             == Loop(s, o, dst, ead, fileList, 0, totalNumFiles, w)
    {
      var res := TransferFile(s, o, dst, ead, fileList[numFilesTransferred], w');
      LoopAdvance(s, o, dst, ead, fileList, numFilesTransferred, totalNumFiles, w', res);
      if res.Stop? {
        return res.out, res.w;
      }
      w' := res.w;
      numFilesTransferred := numFilesTransferred + 1;
    }
    assert fileList[numFilesTransferred..] == [];
    out := Done(true, SuccessComment(numFilesTransferred, totalNumFiles));
  }

  /** The body of the loop of transfer_files for one file. */
  method TransferFile(s: Settings, o: Oracle, dst: string, ead: map<string, string>, fileName: string, w: World)
    returns (res: StepResult)
    ensures res == Step(s, o, dst, ead, fileName, w)
  {
    if fileName !in w.fs {
      return Stop(Crash, w);
    }
    var uniqueFileName := o.objectId(w.drawn);
    var uniqueDstFilePath := UniquePath(dst, fileName, uniqueFileName);
    var srcChecksum := o.md5(w.fs[fileName]);
    if !s.move && uniqueDstFilePath == fileName {
      return Stop(Crash, w);
    }
    var landed := o.landed(w.drawn, w.fs[fileName]);
    var fs;
    if s.move {
      fs := Copy(Remove(w.fs, fileName), uniqueDstFilePath, landed);
    } else {
      fs := Copy(w.fs, uniqueDstFilePath, landed);
    }
    var w' := w.(fs := fs, drawn := w.drawn + 1);
    var dstChecksum := o.md5(fs[uniqueDstFilePath]);
    if dstChecksum != srcChecksum {
      return Stop(Done(false, MISMATCH_COMMENT), w');
    }
    if uniqueFileName in w.store {
      return Stop(Crash, w');
    }
    var rec := CpRecord(uniqueFileName,
                        Preservation(EventType(s.move), fileName, uniqueDstFilePath, dstChecksum, CHECKSUM_ALGO, o.clock(w.drawn)),
                        ead);
    res := Next(w'.(store := w.store[uniqueFileName := rec]));
  }

  /** One turn of the loop: the loop from file i on continues as the step
    * for file i says. */
  lemma LoopAdvance(s: Settings, o: Oracle, dst: string, ead: map<string, string>, todo: seq<string>,
                    i: nat, total: nat, w: World, res: StepResult)
    requires i < |todo| && res == Step(s, o, dst, ead, todo[i], w)
    ensures res.Stop? ==> Loop(s, o, dst, ead, todo[i..], i, total, w) == (res.out, res.w)
    ensures res.Next? ==> Loop(s, o, dst, ead, todo[i..], i, total, w) == Loop(s, o, dst, ead, todo[i + 1..], i + 1, total, res.w)
  {
    assert todo[i..][1..] == todo[i + 1..];
  }

  // ---------------------------------------------------------------------
  // The script body: header, ead: tags and rows

  /** A header column is "Source", "Destination" or an "ead:" column. */
  predicate HeaderColumnOk(col: string)
  {
    col == "Source" || col == "Destination" || StartsWith(col, "ead:")
  }

  /** The header check: a first row must exist, and every one of its
    * columns must be acceptable. */
  method CheckHeader(firstRow: Option<seq<string>>) returns (firstRowPresent: bool)
    ensures firstRowPresent <==> firstRow.Some? && forall i :: 0 <= i < |firstRow.value| ==> HeaderColumnOk(firstRow.value[i])
  {
    if firstRow.None? {
      return false;
    }
    var hdr := firstRow.value;
    firstRowPresent := true;
    var i := 0;
    while i < |hdr|
      invariant 0 <= i <= |hdr|
      invariant firstRowPresent <==> forall j :: 0 <= j < i ==> HeaderColumnOk(hdr[j])
      invariant !firstRowPresent ==> i < |hdr|
    {
      if !HeaderColumnOk(hdr[i]) {
        firstRowPresent := false;
        break;
      }
      i := i + 1;
    }
  }

  const EAD_MARKER := "ead:"

  /** The EAD tag of an ead: column: the text after its last ':'. */
  function EadTag(col: string): string
  {
    AfterLast(col, ':')
  }

  /** The tags of the header's ead: columns, in order. */
  function EadTagsOf(hdr: seq<string>): seq<string>
  {
    Columns.TagsOf(Columns.Marked(hdr, EAD_MARKER), EadTag)
  }

  /** The loop that numbers the header's ead: columns: tags[k] is
    * EADTags[k + 1]. */
  method EadTags(hdr: seq<string>) returns (tags: seq<string>)
    ensures tags == EadTagsOf(hdr)
  {
    tags := [];
    for i := 0 to |hdr|
      invariant tags == Columns.TagsOf(Columns.Marked(hdr[..i], EAD_MARKER), EadTag)
    {
      Columns.MarkedSnoc(hdr, i, EAD_MARKER);
      if StartsWith(hdr[i], EAD_MARKER) {
        Columns.TagsOfSnoc(Columns.Marked(hdr[..i], EAD_MARKER), hdr[i], EadTag);
        tags := tags + [AfterLast(hdr[i], ':')];
      }
    }
    assert hdr[..|hdr|] == hdr;
  }

  /** EADData: tag k (from 0) takes column k + 2. */
  function EadDataOf(row: seq<string>, tags: seq<string>): map<string, string>
    requires |row| >= MIN_NUM_COLS + |tags|
  {
    Columns.Tagged(row, tags, MIN_NUM_COLS, |tags|)
  }

  /** The loop that fills EADData from a long enough row. */
  method EadData(row: seq<string>, tags: seq<string>) returns (data: map<string, string>)
    requires |row| >= MIN_NUM_COLS + |tags|
    ensures data == EadDataOf(row, tags)
  {
    data := map[];
    for eadNum := 1 to |tags| + 1
      invariant data == Columns.Tagged(row, tags, MIN_NUM_COLS, eadNum - 1)
    {
      data := data[tags[eadNum - 1] := row[eadNum + 1]];
    }
  }

  /** The result of one row: the rows it adds to errorList and the world
    * after it, or the process ending in an uncaught exception. */
  datatype RowResult = Continue(errors: seq<seq<string>>, w: World) | Halt

  /** One turn of the loop over transferList. */
  function RowStep(s: Settings, o: Oracle, tags: seq<string>, row: seq<string>, w: World): RowResult
  {
    if |row| < MIN_NUM_COLS + |tags| then Continue([row], w)
    else
      var src := row[0];
      var dst := row[1];
      if src !in w.dirs then Continue([row], w)
      else if dst !in w.dirs && !o.canMakeDir(dst) then Continue([row], w)
      else
        var w0 := w.(dirs := w.dirs + {dst});
        var (out, w1) := TransferFilesSpec(s, o, dst, EadDataOf(row, tags), o.glob(src, w0.fs), w0);
        if out.Crash? then Halt
        else if out.status then Continue([], w1)
        else Continue([row + [out.comment]], w1)
  }

  /** The loop over transferList from `rows` on, with `errorList` so far. */
  function RowsSpec(s: Settings, o: Oracle, tags: seq<string>, rows: seq<seq<string>>,
                    errorList: seq<seq<string>>, w: World): Option<(seq<seq<string>>, World)>
    decreases |rows|
  {
    if rows == [] then Some((errorList, w))
    else
      match RowStep(s, o, tags, rows[0], w)
      case Halt => None
      case Continue(errs, w') => RowsSpec(s, o, tags, rows[1..], errorList + errs, w')
  }

  /** The batch run after the header has been accepted: errorList starts
    * with the header and a Comments column, then every row is processed;
    * None when the process dies. */
  method ProcessRows(s: Settings, o: Oracle, hdr: seq<string>, rows: seq<seq<string>>, w: World)
    returns (result: Option<(seq<seq<string>>, World)>)
    ensures result == RowsSpec(s, o, EadTagsOf(hdr), rows, [hdr + ["Comments"]], w)
  {
    var tags := EadTags(hdr);
    var errorList := [hdr + ["Comments"]];
    var w' := w;
    var i := 0;
    assert rows[i..] == rows;
    while i < |rows|
      invariant 0 <= i <= |rows|
      invariant RowsSpec(s, o, tags, rows[i..], errorList, w') == RowsSpec(s, o, tags, rows, [hdr + ["Comments"]], w)
    {
      var row := rows[i];
      assert rows[i..][1..] == rows[i + 1..];
      i := i + 1;
      if |row| < MIN_NUM_COLS + |tags| {
        errorList := errorList + [row];
        continue;
      }
      var src := row[0];
      var dst := row[1];
      var eadData := EadData(row, tags);
      if src !in w'.dirs {
        errorList := errorList + [row];
        continue;
      } else if dst !in w'.dirs {
        if !o.canMakeDir(dst) {
          errorList := errorList + [row];
          continue;
        }
      }
      w' := w'.(dirs := w'.dirs + {dst});
      var out, w1 := TransferFiles(s, o, dst, eadData, o.glob(src, w'.fs), w');
      if out.Crash? {
        return None;
      }
      if !out.status {
        errorList := errorList + [row + [out.comment]];
      } else {
        errorList := errorList + [];
      }
      w' := w1;
    }
    assert rows[i..] == [];
    result := Some((errorList, w'));
  }

  /** The error report is written iff errorList holds more than the
    * header. */
  predicate WritesErrorReport(errorList: seq<seq<string>>)
  {
    |errorList| > 1
  }
}
