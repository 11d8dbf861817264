// The accession engine: transferFiles, which moves or copies every file of
// one source directory into a destination directory, checksum-verified, and
// records a PREMIS metadata record for each file in the store.
//
// Two versions of the engine are modelled as instances of one machine:
// `Current` is bin/accession.py with the metadatautilspkg helpers, `Legacy`
// is the older top-level accession.py with its own helpers. They differ in
// the serial number assumed when a directory has no records (0 against 1)
// and in the detail of the fixity-check event.
//
// The outside world is a value: the file system, the set of directories,
// the store, and how much of the uuid4, clock and copy streams has been
// consumed. Those streams, MD5, the `$regex` match and whether makedirs
// can succeed are an oracle fixed for the run.

module Accession {
  import opened Common
  import opened Records
  import opened Files
  import AdminMeta
  import Premis
  import RecordStore
  import MetadataUtils

  datatype Variant = Current | Legacy

  /** The run's options: the extension (-e), move mode (-m), the program
    * recorded as agent, the object category from the vocabulary, and the
    * code the insert helper returns on a driver error. Under `Intended`
    * the engine has the two repairs its own comments ask for: after a
    * verified move the SOURCE file is removed (not the destination copy),
    * and after a checksum mismatch the record is deleted only "if present"
    * rather than exiting when it is absent. */
  datatype Settings = Settings(ext: string, move: bool, agent: Premis.Agent, category: string,
                               insertErrorCode: string, variant: Variant, build: Build)

  /** uuid(k) is the k-th uuid4 drawn, clock(k) the k-th clock reading
    * (isoformat text, %z offset), md5 the hex digest of some bytes,
    * landed(k, b) the bytes that reach the destination on the k-th copy of
    * b, regex(p, s) whether `$regex` p matches s, canMakeDir whether
    * os.makedirs succeeds. */
  datatype Oracle = Oracle(
    uuid: nat -> string,
    clock: nat -> (string, string),
    md5: Bytes -> string,
    landed: (nat, Bytes) -> Bytes,
    regex: (string, string) -> bool,
    canMakeDir: bool)

  datatype World = World(fs: FileSystem, dirs: set<string>, store: RecordStore.Store,
                         drawn: nat, ticks: nat, copies: nat)

  /** The process ending with exit(ERROR_CANNOT_REMOVE_RECORD_FROM_DB). */
  datatype ExitCode = CannotRemoveRecord

  /** What transferFiles gives back: its status/comment dictionary, a call
    * to exit(), or an uncaught exception. */
  datatype Outcome = Done(status: bool, comment: string) | Exit(code: ExitCode) | Crash

  /** The result of one file: carry on with the next, or stop the run. */
  datatype StepResult = Next(w: World) | Stop(out: Outcome, w: World)

  /** getCurrentEDTFTimestamp for the k-th clock reading. */
  function Timestamp(o: Oracle, k: nat): string
  {
    MetadataUtils.EdtfTimestamp(o.clock(k).0, o.clock(k).1)
  }

  /** getHighestSerialNo's answer when no record matches. */
  function EmptySerial(v: Variant): int
  {
    if v == Current then 0 else 1
  }

  function SuccessComment(n: nat, total: nat): string
  {
    "Success. " + NatToString(n) + " out of " + NatToString(total) + " files transferred"
  }

  function NoFilesComment(ext: string): string
  {
    "No files found with extension '" + ext + "'!"
  }

  function MismatchComment(f: string, unique: string): string
  {
    "Checksum mismatch for '" + f + "', and '" + unique + "'. Aborted transfers for remaining files in directory."
  }

  const INSERT_FAILED_COMMENT := "DB Insert operation not successful."

  /** The type requested of createFileCopyEvent (and then ignored). */
  function CopyEventType(move: bool): string
  {
    if move then "migration" else "replication"
  }

  /** The fixity-check event of each version. */
  function FixityEvent(s: Settings, evtId: string, when: string, dstChecksum: string): Event
  {
    if s.variant == Current then Premis.FixityCheckEvent(evtId, when, s.agent, true, dstChecksum)
    else Premis.LegacyFixityCheckEvent(evtId, when, s.agent, true, dstChecksum)
  }

  /** The destination paths of a file: its original name under `dst`, and
    * `<_id>.<extension>` under `dst`. */
  function PrelimPath(dst: string, f: string): string
  {
    PathJoin(dst, Basename(f))
  }

  /** The file is its own preliminary destination, so shutil.copy raises
    * SameFileError. */
  predicate SelfCopy(dst: string, f: string)
  {
    PrelimPath(dst, f) == f
  }

  function UniquePath(dst: string, f: string, id: string): string
  {
    PathJoin(dst, id + "." + AfterLast(Basename(f), '.'))
  }

  /** The record as it stands after the first four events, with the source
    * checksum as its fixity (identifier assignment, digest, copy, rename). */
  function RecordBeforeCheck(s: Settings, o: Oracle, kept: map<string, string>, f: string, size: nat,
                             dst: string, srcChecksum: string, d: nat, t: nat): Record
  {
    var id := o.uuid(d);
    var name := Basename(f);
    var r0 := Premis.Skeleton(id, kept, size, MetadataUtils.FileFormatName(name), f, s.category);
    var r1 := Premis.WithEvent(r0, Premis.IdAssignmentEvent(o.uuid(d + 1), Timestamp(o, t), s.agent, id));
    var r2 := Premis.AddMsgDigestCalcEvent(r1, o.uuid(d + 2), Timestamp(o, t + 1), s.agent, srcChecksum, Premis.CHECKSUM_ALGO);
    var r3 := Premis.WithEvent(r2, Premis.FileCopyEvent(o.uuid(d + 3), Timestamp(o, t + 2), s.agent,
                                                        CopyEventType(s.move), f, PrelimPath(dst, f)));
    Premis.WithEvent(r3, Premis.FilenameChangeEvent(o.uuid(d + 4), Timestamp(o, t + 3), s.agent,
                                                    PrelimPath(dst, f), UniquePath(dst, f, id)))
  }

  /** The record inserted after a successful fixity check: the fixity event,
    * the serial number, then the accession event. */
  function RecordToInsert(s: Settings, o: Oracle, before: Record, dstChecksum: string, serial: int, d: nat, t: nat): Record
  {
    var r5 := Premis.WithEvent(before, FixityEvent(s, o.uuid(d + 5), Timestamp(o, t + 4), dstChecksum));
    var r6 := AdminMeta.UpdateSerialNumber(r5, serial);
    Premis.WithEvent(r6, Premis.AccessionEvent(o.uuid(d + 6), Timestamp(o, t + 5), s.agent))
  }

  /** What happens once the file sits at its unique path in `renamed`: the
    * destination checksum is compared with the source's. */
  function Settle(s: Settings, o: Oracle, f: string, unique: string, id: string, srcChecksum: string,
                  before: Record, renamed: FileSystem, serial: int, w: World): StepResult
    requires unique in renamed
  {
    var dstChecksum := o.md5(renamed[unique]);
    if dstChecksum != srcChecksum then Discard(s, f, unique, id, renamed, w)
    else Commit(s, id, unique, MovedAway(s, f, unique),
                RecordToInsert(s, o, before, dstChecksum, serial, w.drawn, w.ticks), renamed, w)
  }

  /** A checksum mismatch: the copy is removed and the record deleted; as
    * written, the process exits when there is no record to delete. */
  function Discard(s: Settings, f: string, unique: string, id: string, renamed: FileSystem, w: World): StepResult
  {
    var w' := World(Remove(renamed, unique), w.dirs, w.store, w.drawn + 5, w.ticks + 4, w.copies + 1);
    match RecordStore.DeleteRecord(w.store, id)
    case None =>
      if s.build == AsWritten then Stop(Exit(CannotRemoveRecord), w')
      else Stop(Done(false, MismatchComment(f, unique)), w')
    case Some(st) => Stop(Done(false, MismatchComment(f, unique)), w'.(store := st))
  }

  /** A verified copy: the completed record is inserted, and in move mode
    * `movedAway` is removed. */
  function Commit(s: Settings, id: string, unique: string, movedAway: string, rec: Record, renamed: FileSystem, w: World): StepResult
  {
    var (ret, st) := RecordStore.InsertRecord(w.store, rec, s.insertErrorCode);
    var w' := World(renamed, w.dirs, st, w.drawn + 7, w.ticks + 6, w.copies + 1);
    if ret != id then Stop(Done(false, INSERT_FAILED_COMMENT), w')
    else if s.move then Next(w'.(fs := Remove(renamed, movedAway)))
    else Next(w')
  }

  /** The file removed after a verified move: as written, the destination
    * copy; as intended, the source file. */
  function MovedAway(s: Settings, f: string, unique: string): string
  {
    if s.build == AsWritten then unique else f
  }

  /** The crash of a copy onto itself, after three identifiers and two
    * timestamps were drawn for the record being built. */
  function SameFileCrash(w: World): StepResult
  {
    Stop(Crash, w.(drawn := w.drawn + 3, ticks := w.ticks + 2))
  }

  /** One iteration of the loop of transferFiles, for file `f` with serial
    * number `serial`. */
  function Step(s: Settings, o: Oracle, dst: string, info: map<string, string>, f: string, serial: int, w: World): StepResult
  {
    if f !in w.fs then Stop(Crash, w)   // os.path.getsize raises outside any handler that can report it
    else
      var id := o.uuid(w.drawn);
      var prelim := PrelimPath(dst, f);
      var unique := UniquePath(dst, f, id);
      if SelfCopy(dst, f) then
        // shutil.copy onto itself raises SameFileError; the handler's
        // "Error: " + exception raises again
        SameFileCrash(w)
      else Transfer(s, o, dst, info, f, serial, w)
  }

  /** A file that exists and is not its own destination: its record is
    * built, it is copied to its preliminary path and renamed to its unique
    * path, and the copy is checked. */
  function Transfer(s: Settings, o: Oracle, dst: string, info: map<string, string>, f: string, serial: int, w: World): StepResult
    requires f in w.fs
  {
    var id := o.uuid(w.drawn);
    var prelim := PrelimPath(dst, f);
    var unique := UniquePath(dst, f, id);
    var srcChecksum := o.md5(w.fs[f]);
    var before := RecordBeforeCheck(s, o, AdminMeta.NonEmptyFields(info), f, |w.fs[f]|, dst, srcChecksum, w.drawn, w.ticks);
    var renamed := Rename(Copy(w.fs, prelim, o.landed(w.copies, w.fs[f])), prelim, unique);
    Settle(s, o, f, unique, id, srcChecksum, before, renamed, serial, w)
  }

  /** The step of a run: Step with the run's settings, oracle, destination
    * and arrangement. */
  function StepOf(s: Settings, o: Oracle, dst: string, info: map<string, string>): (string, int, World) -> StepResult
  {
    (f: string, serial: int, w: World) => Step(s, o, dst, info, f, serial, w)
  }

  /** The loop over the files still to transfer, for any step: `n` counts
    * the files done in this run and `total` is the length of the whole file
    * list. */
  function Run(step: (string, int, World) -> StepResult, todo: seq<string>,
               serial: int, n: nat, total: nat, w: World): (Outcome, World)
    decreases |todo|
  {
    if todo == [] then (Done(true, SuccessComment(n, total)), w)
    else
      match step(todo[0], serial, w)
      case Stop(out, w') => (out, w')
      case Next(w') => Run(step, todo[1..], serial + 1, n + 1, total, w')
  }

  /** The loop of transferFiles. */
  function Loop(s: Settings, o: Oracle, dst: string, info: map<string, string>, todo: seq<string>,
                serial: int, n: nat, total: nat, w: World): (Outcome, World)
  {
    Run(StepOf(s, o, dst, info), todo, serial, n, total, w)
  }

  /** The serial number the run starts after, and the world once the
    * destination directory exists; `None` when the run crashes first. */
  function Resume(s: Settings, o: Oracle, src: string, dst: string, w: World): (Option<int>, World)
  {
    if dst !in w.dirs then
      // a failing os.makedirs reaches an undefined name in its handler
      if !o.canMakeDir then (None, w) else (Some(0), w.(dirs := w.dirs + {dst}))
    else (RecordStore.HighestSerialNo(w.store, src, o.regex, EmptySerial(s.variant)), w)
  }

  /** transferFiles(src, dst, arrangementInfo) over the sorted list of the
    * source directory's files with the chosen extension. */
  function TransferFilesSpec(s: Settings, o: Oracle, src: string, dst: string, info: map<string, string>,
                             fileList: seq<string>, w: World): (Outcome, World)
  {
    var (prev, w0) := Resume(s, o, src, dst, w);
    if prev.None? then (Crash, w0)
    else if |fileList| == 0 then (Done(false, NoFilesComment(s.ext)), w0)
    else Loop(s, o, dst, info, SliceFrom(fileList, prev.value), prev.value + 1, 0, |fileList|, w0)
  }

  // ---------------------------------------------------------------------
  // The engine

  /** The record of a file up to the filename-change event, built as the
    * loop body builds it: the version's initMetadataRecord, the
    * identifier-assignment event (already there in the older version), the
    * digest event and fixity, the copy event and the rename event. */
  method BuildRecord(s: Settings, o: Oracle, dst: string, info: map<string, string>, f: string, size: nat,
                     srcChecksum: string, d: nat, t: nat)
    returns (remaining: map<string, string>, r: Record)
    ensures remaining == AdminMeta.NonEmptyFields(info)
    ensures r == RecordBeforeCheck(s, o, remaining, f, size, dst, srcChecksum, d, t)
  {
    var name := Basename(f);
    var id := o.uuid(d);
    if s.variant == Current {
      remaining, r := Premis.InitMetadataRecord(id, info, size, MetadataUtils.FileFormatName(name), f, s.category);
      r := Premis.WithEvent(r, Premis.IdAssignmentEvent(o.uuid(d + 1), Timestamp(o, t), s.agent, id));
    } else {
      remaining, r := Premis.InitMetadataRecordWithIdEvent(id, o.uuid(d + 1), Timestamp(o, t), s.agent,
                                                           info, size, MetadataUtils.FileFormatName(name), f, s.category);
    }
    var prelim := PathJoin(dst, name);
    var unique := PathJoin(dst, id + "." + AfterLast(name, '.'));
    r := Premis.AddMsgDigestCalcEvent(r, o.uuid(d + 2), Timestamp(o, t + 1), s.agent, srcChecksum, Premis.CHECKSUM_ALGO);
    r := Premis.WithEvent(r, Premis.FileCopyEvent(o.uuid(d + 3), Timestamp(o, t + 2), s.agent, CopyEventType(s.move), f, prelim));
    r := Premis.WithEvent(r, Premis.FilenameChangeEvent(o.uuid(d + 4), Timestamp(o, t + 3), s.agent, prelim, unique));
  }

  /** The checksum comparison and what follows it, on the file system where
    * the file has been copied and renamed. */
  method SettleFile(s: Settings, o: Oracle, f: string, unique: string, id: string, srcChecksum: string,
                    before: Record, fs: FileSystem, serial: int, w: World)
    returns (res: StepResult)
    requires unique in fs
    ensures res == Settle(s, o, f, unique, id, srcChecksum, before, fs, serial, w)
  {
    var dstChecksum := o.md5(fs[unique]);
    if dstChecksum != srcChecksum {
      res := DiscardFile(s, f, unique, id, fs, w);
    } else {
      var r := RecordToInsert(s, o, before, dstChecksum, serial, w.drawn, w.ticks);
      res := CommitFile(s, id, unique, MovedAway(s, f, unique), r, fs, w);
    }
  }

  method DiscardFile(s: Settings, f: string, unique: string, id: string, fs: FileSystem, w: World)
    returns (res: StepResult)
    ensures res == Discard(s, f, unique, id, fs, w)
  {
    var cleaned := Remove(fs, unique);
    var w' := World(cleaned, w.dirs, w.store, w.drawn + 5, w.ticks + 4, w.copies + 1);
    var deleted := RecordStore.DeleteRecord(w.store, id);
    if deleted.None? {
      if s.build == AsWritten {
        return Stop(Exit(CannotRemoveRecord), w');
      }
      return Stop(Done(false, MismatchComment(f, unique)), w');
    }
    res := Stop(Done(false, MismatchComment(f, unique)), w'.(store := deleted.value));
  }

  method CommitFile(s: Settings, id: string, unique: string, movedAway: string, r: Record, fs: FileSystem, w: World)
    returns (res: StepResult)
    ensures res == Commit(s, id, unique, movedAway, r, fs, w)
  {
    var inserted := RecordStore.InsertRecord(w.store, r, s.insertErrorCode);
    var w' := World(fs, w.dirs, inserted.1, w.drawn + 7, w.ticks + 6, w.copies + 1);
    if inserted.0 != id {
      return Stop(Done(false, INSERT_FAILED_COMMENT), w');
    }
    if s.move {
      w' := w'.(fs := Remove(fs, movedAway));
    }
    res := Next(w');
  }

  /** The body of the loop of transferFiles for one file. The arrangement
    * dictionary loses its ""-valued keys (initMetadataRecord pops them from
    * the caller's dictionary), which the caller sees as `remaining`. */
  method TransferFile(s: Settings, o: Oracle, dst: string, info: map<string, string>, f: string, serial: int, w: World)
    returns (remaining: map<string, string>, res: StepResult)
    ensures remaining == AdminMeta.NonEmptyFields(info)
    ensures res == Step(s, o, dst, info, f, serial, w)
  {
    remaining := AdminMeta.NonEmptyFields(info);
    if f !in w.fs {
      res := Stop(Crash, w);
    } else {
      res := CheckedTransfer(s, o, dst, info, f, serial, w);
    }
  }

  /** A file that exists: the copy onto itself raises, any other is
    * transferred. */
  method CheckedTransfer(s: Settings, o: Oracle, dst: string, info: map<string, string>, f: string, serial: int, w: World)
    returns (res: StepResult)
    requires f in w.fs
    ensures res == Step(s, o, dst, info, f, serial, w)
  {
    if SelfCopy(dst, f) {
      // the record built so far is lost with the exception shutil.copy raises
      res := SameFileCrash(w);
    } else {
      var kept;
      kept, res := CopyAndCheck(s, o, dst, info, f, serial, w);
    }
  }

  /** The record building, copy, rename and check for a file that exists
    * and is not its own destination. */
  method CopyAndCheck(s: Settings, o: Oracle, dst: string, info: map<string, string>, f: string, serial: int, w: World)
    returns (remaining: map<string, string>, res: StepResult)
    requires f in w.fs && !SelfCopy(dst, f)
    ensures remaining == AdminMeta.NonEmptyFields(info)
    ensures res == Step(s, o, dst, info, f, serial, w)
  {
    var id := o.uuid(w.drawn);
    var prelim := PrelimPath(dst, f);
    var unique := UniquePath(dst, f, id);
    var srcChecksum := o.md5(w.fs[f]);
    var r;
    remaining, r := BuildRecord(s, o, dst, info, f, |w.fs[f]|, srcChecksum, w.drawn, w.ticks);
    var fs := Copy(w.fs, prelim, o.landed(w.copies, w.fs[f]));
    fs := Rename(fs, prelim, unique);
    res := SettleFile(s, o, f, unique, id, srcChecksum, r, fs, serial, w);
  }

  /** transferFiles: resolve the starting serial number, then transfer the
    * files not yet recorded. */
  method TransferFiles(s: Settings, o: Oracle, src: string, dst: string, info: map<string, string>,
                       fileList: seq<string>, w: World)
    returns (out: Outcome, w': World)
    ensures (out, w') == TransferFilesSpec(s, o, src, dst, info, fileList, w)
  {
    var prev;
    prev, w' := ResumePoint(s, o, src, dst, w);
    if prev.None? {
      return Crash, w';
    }
    if |fileList| == 0 {
      return Done(false, NoFilesComment(s.ext)), w';
    }
    out, w' := TransferRemaining(s, o, dst, info, SliceFrom(fileList, prev.value), prev.value + 1, |fileList|, w');
  }

  /** The creation of a missing destination directory, or the lookup of the
    * highest serial number recorded for the source directory. */
  method ResumePoint(s: Settings, o: Oracle, src: string, dst: string, w: World)
    returns (prev: Option<int>, w': World)
    ensures (prev, w') == Resume(s, o, src, dst, w)
  {
    w' := w;
    if dst !in w.dirs {
      if !o.canMakeDir {
        return None, w';
      }
      w' := w.(dirs := w.dirs + {dst});
      prev := Some(0);
    } else {
      prev := RecordStore.HighestSerialNo(w.store, src, o.regex, EmptySerial(s.variant));
    }
  }

  /** The loop of transferFiles over the files from the resume point on,
    * numbered from `first`, stopping at the first failure. */
  method TransferRemaining(s: Settings, o: Oracle, dst: string, info: map<string, string>,
                           todo: seq<string>, first: int, total: nat, w: World)
    returns (out: Outcome, w': World)
    ensures (out, w') == Loop(s, o, dst, info, todo, first, 0, total, w)
  {
    w' := w;
    var numFilesTransferred := 0;
    var currentSerialNo := first;
    var arrangement := info;
    var i := 0;
    assert todo[i..] == todo;
    while i < |todo|
      invariant 0 <= i <= |todo|
      invariant numFilesTransferred == i && currentSerialNo == first + i
      invariant AdminMeta.NonEmptyFields(arrangement) == AdminMeta.NonEmptyFields(info)
      invariant Loop(s, o, dst, info, todo[i..], currentSerialNo, numFilesTransferred, total, w')
             == Loop(s, o, dst, info, todo, first, 0, total, w)
    {
      var res;
      var given := arrangement;
      arrangement, res := TransferFile(s, o, dst, given, todo[i], currentSerialNo, w');
      AdminMeta.NonEmptyFieldsMeaning(given);
      LoopAdvance(s, o, dst, given, info, todo, i, currentSerialNo, numFilesTransferred, total, w', res);
      if res.Stop? {
        return res.out, res.w;
      }
      assert Loop(s, o, dst, info, todo[i + 1..], currentSerialNo + 1, numFilesTransferred + 1, total, res.w)
          == Loop(s, o, dst, info, todo, first, 0, total, w);
      w' := res.w;
      currentSerialNo := currentSerialNo + 1;
      numFilesTransferred := numFilesTransferred + 1;
      i := i + 1;
    }
    assert todo[i..] == [];
    out := Done(true, SuccessComment(numFilesTransferred, total));
  }

  /** One turn of the loop: what the loop from file i on yields, given
    * what the step for file i yields, under an arrangement dictionary with
    * the same non-empty fields. */
  lemma LoopAdvance(s: Settings, o: Oracle, dst: string, a: map<string, string>, info: map<string, string>,
                    todo: seq<string>, i: nat, serial: int, n: nat, total: nat, w: World, res: StepResult)
    requires i < |todo| && AdminMeta.NonEmptyFields(a) == AdminMeta.NonEmptyFields(info)
    requires res == Step(s, o, dst, a, todo[i], serial, w)
    ensures res.Stop? ==> Loop(s, o, dst, info, todo[i..], serial, n, total, w) == (res.out, res.w)
    ensures res.Next? ==>
      Loop(s, o, dst, info, todo[i..], serial, n, total, w) == Loop(s, o, dst, info, todo[i + 1..], serial + 1, n + 1, total, res.w)
  {
    StepDependsOnKeptFields(s, o, dst, a, info, todo[i], serial, w);
    assert todo[i..][1..] == todo[i + 1..];
  }

  /** A file's step reads the arrangement dictionary only through its
    * non-empty fields. */
  lemma StepDependsOnKeptFields(s: Settings, o: Oracle, dst: string, a: map<string, string>, b: map<string, string>,
                                f: string, serial: int, w: World)
    requires AdminMeta.NonEmptyFields(a) == AdminMeta.NonEmptyFields(b)
    ensures Step(s, o, dst, a, f, serial, w) == Step(s, o, dst, b, f, serial, w)
  {
  }
}
