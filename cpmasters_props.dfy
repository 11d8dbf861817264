// What the oldest transfer script promises: an empty list is reported,
// every file goes to its ObjectId path, a record is inserted only after the
// checksums agree, a mismatch stops the run and leaves the destination file
// in place, and a successful run has handled every file of the list, in
// order, with nothing skipped.

module CpMastersProperties {
  import opened Common
  import opened Files
  import opened CpMasters

  /** An empty file list fails with its comment and changes nothing. */
  lemma NoFilesReported(s: Settings, o: Oracle, dst: string, ead: map<string, string>, w: World)
    ensures TransferFilesSpec(s, o, dst, ead, [], w) == (Done(false, NoFilesComment(s.ext)), w)
  {
  }

  /** A file is committed iff it exists, is not copied onto itself, the
    * bytes that landed have the source's checksum and its ObjectId is new
    * to the store. */
  lemma StepNextIff(s: Settings, o: Oracle, dst: string, ead: map<string, string>, f: string, w: World)
    ensures Step(s, o, dst, ead, f, w).Next? <==>
      f in w.fs
      && (s.move || UniquePath(dst, f, o.objectId(w.drawn)) != f)
      && o.md5(o.landed(w.drawn, w.fs[f])) == o.md5(w.fs[f])
      && o.objectId(w.drawn) !in w.store
  {
  }

  /** A committed file: the store gains exactly one record, under the
    * file's ObjectId, naming the source, the unique path, the source's
    * checksum and "migration" iff move; the unique path holds the bytes
    * that landed; the source is gone after a move and untouched after a
    * copy. */
  lemma StepNextState(s: Settings, o: Oracle, dst: string, ead: map<string, string>, f: string, w: World)
    requires Step(s, o, dst, ead, f, w).Next?
    ensures var w' := Step(s, o, dst, ead, f, w).w;
      var id := o.objectId(w.drawn);
      var unique := UniquePath(dst, f, id);
      && f in w.fs
      && id !in w.store
      && w'.store == w.store[id := w'.store[id]]
      && w'.store[id].id == id
      && w'.store[id].preservationInfo.source == f
      && w'.store[id].preservationInfo.destination == unique
      && w'.store[id].preservationInfo.checksum == o.md5(w.fs[f])
      && w'.store[id].preservationInfo.checksumAlgo == CHECKSUM_ALGO
      && (w'.store[id].preservationInfo.eventType == "migration" <==> s.move)
      && w'.store[id].eadInfo == ead
      && unique in w'.fs && w'.fs[unique] == o.landed(w.drawn, w.fs[f])
      && (s.move && f != unique ==> f !in w'.fs)
      && (!s.move ==> f in w'.fs && w'.fs[f] == w.fs[f])
      && w'.dirs == w.dirs && w'.drawn == w.drawn + 1
  {
  }

  /** A checksum mismatch: the run stops with "Error: Checksum mismatch!",
    * the destination file stays where it landed and the store is
    * unchanged. */
  lemma MismatchLeavesCopy(s: Settings, o: Oracle, dst: string, ead: map<string, string>, f: string, w: World)
    requires f in w.fs && (s.move || UniquePath(dst, f, o.objectId(w.drawn)) != f)
    requires o.md5(o.landed(w.drawn, w.fs[f])) != o.md5(w.fs[f])
    ensures var res := Step(s, o, dst, ead, f, w);
      var unique := UniquePath(dst, f, o.objectId(w.drawn));
      && res == Stop(Done(false, MISMATCH_COMMENT), res.w)
      && res.w.store == w.store
      && unique in res.w.fs && res.w.fs[unique] == o.landed(w.drawn, w.fs[f])
  {
  }

  /** No step that stops reports success. */
  lemma StopNeverSucceeds(s: Settings, o: Oracle, dst: string, ead: map<string, string>, f: string, w: World)
    requires Step(s, o, dst, ead, f, w).Stop?
    ensures !Step(s, o, dst, ead, f, w).out.Done? || !Step(s, o, dst, ead, f, w).out.status
  {
  }

  /** Every record of `before` is still in `after`, unchanged. */
  predicate Kept(before: Store, after: Store)
  {
    forall id :: id in before ==> id in after && after[id] == before[id]
  }

  /** The store holds the record of file `f` under `id`. */
  predicate HoldsFile(store: Store, id: string, f: string, dst: string, move: bool)
  {
    id in store && store[id].preservationInfo.source == f
    && store[id].preservationInfo.destination == UniquePath(dst, f, id)
    && store[id].preservationInfo.eventType == EventType(move)
  }

  lemma StepRecords(s: Settings, o: Oracle, dst: string, ead: map<string, string>, f: string, w: World)
    requires Step(s, o, dst, ead, f, w).Next?
    ensures var w' := Step(s, o, dst, ead, f, w).w;
      w'.drawn == w.drawn + 1 && Kept(w.store, w'.store) && HoldsFile(w'.store, o.objectId(w.drawn), f, dst, s.move)
  {
  }

  lemma KeptTransitive(a: Store, b: Store, c: Store)
    requires Kept(a, b) && Kept(b, c)
    ensures Kept(a, c)
  {
  }

  /** A successful outcome. */
  predicate Succeeded(out: Outcome)
  {
    out.Done? && out.status
  }

  /** What a committed step did for file `f`: one ObjectId drawn, every
    * record kept, and the file's record stored under that ObjectId. */
  predicate Committed(o: Oracle, dst: string, move: bool, v: World, v': World, f: string)
  {
    v'.drawn == v.drawn + 1 && Kept(v.store, v'.store) && HoldsFile(v'.store, o.objectId(v.drawn), f, dst, move)
  }

  /** `step` never reports success when it stops. */
  ghost predicate StopsFail(step: (string, World) -> StepResult)
  {
    forall f, v :: step(f, v).Stop? ==> !Succeeded(step(f, v).out)
  }

  /** `step` records each file it commits. */
  ghost predicate CommitsRecord(step: (string, World) -> StepResult, o: Oracle, dst: string, move: bool)
  {
    forall f, v :: step(f, v).Next? ==> Committed(o, dst, move, v, step(f, v).w, f)
  }

  /** The k-th file of `todo` is held under the k-th ObjectId from `d` on. */
  predicate AllHeld(store: Store, o: Oracle, dst: string, move: bool, d: nat, todo: seq<string>)
  {
    forall k :: 0 <= k < |todo| ==> HoldsFile(store, o.objectId(d + k), todo[k], dst, move)
  }

  /** What a successful run over `todo` from `w`, with `n` files done
    * before it, leaves: the comment counts every file, one ObjectId was
    * drawn per file, every earlier record is kept and every file is held. */
  predicate TransferredAll(o: Oracle, dst: string, move: bool, todo: seq<string>, n: nat, total: nat, w: World,
                           r: (Outcome, World))
  {
    && r.0.Done?
    && r.0.comment == SuccessComment(n + |todo|, total)
    && r.1.drawn == w.drawn + |todo|
    && Kept(w.store, r.1.store)
    && AllHeld(r.1.store, o, dst, move, w.drawn, todo)
  }

  /** A run that succeeds, for any step that never reports success when it
    * stops and records each file it commits: every file of `todo` is
    * committed, the k-th under the k-th ObjectId drawn, every earlier
    * record is kept, and the comment counts all of them. */
  lemma {:induction false} RunSuccess(step: (string, World) -> StepResult, o: Oracle, dst: string, move: bool,
                                      todo: seq<string>, n: nat, total: nat, w: World)
    requires StopsFail(step) && CommitsRecord(step, o, dst, move)
    requires Succeeded(Run(step, todo, n, total, w).0)
    ensures TransferredAll(o, dst, move, todo, n, total, w, Run(step, todo, n, total, w))
    decreases |todo|
  {
    if todo != [] {
      var res := step(todo[0], w);
      if res.Stop? {
        assert false;
      }
      assert Committed(o, dst, move, w, res.w, todo[0]);
      assert Run(step, todo, n, total, w) == Run(step, todo[1..], n + 1, total, res.w);
      RunSuccess(step, o, dst, move, todo[1..], n + 1, total, res.w);
      SuccessCons(o, dst, move, todo, n, total, w, res.w, Run(step, todo[1..], n + 1, total, res.w));
    }
  }

  /** A first file committed, followed by a successful run over the rest,
    * is a successful run over all of them. */
  lemma SuccessCons(o: Oracle, dst: string, move: bool, todo: seq<string>, n: nat, total: nat, w: World,
                    w1: World, r: (Outcome, World))
    requires todo != [] && Committed(o, dst, move, w, w1, todo[0])
    requires TransferredAll(o, dst, move, todo[1..], n + 1, total, w1, r)
    ensures TransferredAll(o, dst, move, todo, n, total, w, r)
  {
    assert n + 1 + |todo[1..]| == n + |todo|;
    KeptTransitive(w.store, w1.store, r.1.store);
    HeldOnward(o, dst, move, w.drawn, todo, w1.store, r.1.store);
  }

  /** The first file, held before the rest of the run, and the rest, held
    * after it, are all held at its end. */
  lemma HeldOnward(o: Oracle, dst: string, move: bool, d: nat, todo: seq<string>, mid: Store, end: Store)
    requires todo != [] && HoldsFile(mid, o.objectId(d), todo[0], dst, move) && Kept(mid, end)
    requires AllHeld(end, o, dst, move, d + 1, todo[1..])
    ensures AllHeld(end, o, dst, move, d, todo)
  {
    forall k | 0 <= k < |todo|
      ensures HoldsFile(end, o.objectId(d + k), todo[k], dst, move)
    {
      if k > 0 {
        assert todo[1..][k - 1] == todo[k];
        assert d + 1 + (k - 1) == d + k;
      }
    }
  }

  /** The transfer step meets RunSuccess's two premises. */
  lemma StepOfMeetsPremises(s: Settings, o: Oracle, dst: string, ead: map<string, string>)
    ensures StopsFail(StepOf(s, o, dst, ead)) && CommitsRecord(StepOf(s, o, dst, ead), o, dst, s.move)
  {
    var step := StepOf(s, o, dst, ead);
    forall f, v | step(f, v).Stop?
      ensures !Succeeded(step(f, v).out)
    {
      StopNeverSucceeds(s, o, dst, ead, f, v);
    }
    forall f, v | step(f, v).Next?
      ensures Committed(o, dst, s.move, v, step(f, v).w, f)
    {
      StepRecords(s, o, dst, ead, f, v);
    }
  }

  /** There is no resume: a successful transfer has committed every file
    * of the list, the k-th under the k-th ObjectId drawn, and says "N out
    * of N". */
  lemma TransferSuccess(s: Settings, o: Oracle, dst: string, ead: map<string, string>, fileList: seq<string>, w: World)
    requires Succeeded(TransferFilesSpec(s, o, dst, ead, fileList, w).0)
    ensures fileList != []
    ensures TransferredAll(o, dst, s.move, fileList, 0, |fileList|, w, TransferFilesSpec(s, o, dst, ead, fileList, w))
  {
    StepOfMeetsPremises(s, o, dst, ead);
    RunSuccess(StepOf(s, o, dst, ead), o, dst, s.move, fileList, 0, |fileList|, w);
  }

  /** Every file of `src` with extension `ext` is in `fileList` and held
    * under the ObjectId of its place in that list. */
  ghost predicate HeldByPlace(store: Store, o: Oracle, src: string, ext: string, dst: string, move: bool, d: nat,
                              fileList: seq<string>, fs: FileSystem)
  {
    forall p :: p in fs && GlobMatch(p, src, ext) ==>
      (exists k :: 0 <= k < |fileList| && fileList[k] == p && HoldsFile(store, o.objectId(d + k), p, dst, move))
  }

  /** Over glob's sorted listing of `src`, a successful transfer has a
    * record for every file of `src` with the extension, under the ObjectId
    * of its place in name order. */
  lemma GlobTransferSuccess(s: Settings, o: Oracle, src: string, dst: string, ead: map<string, string>,
                            fileList: seq<string>, w: World)
    requires GlobOk(fileList, src, s.ext, w.fs)
    requires Succeeded(TransferFilesSpec(s, o, dst, ead, fileList, w).0)
    ensures HeldByPlace(TransferFilesSpec(s, o, dst, ead, fileList, w).1.store, o, src, s.ext, dst, s.move,
                        w.drawn, fileList, w.fs)
  {
    TransferSuccess(s, o, dst, ead, fileList, w);
    GlobHeld(TransferFilesSpec(s, o, dst, ead, fileList, w).1.store, o, src, s.ext, dst, s.move, w.drawn, fileList, w.fs);
  }

  /** Every file glob lists, when the whole listing is held, is held under
    * the ObjectId of its place in the listing. */
  lemma GlobHeld(store: Store, o: Oracle, src: string, ext: string, dst: string, move: bool, d: nat,
                 fileList: seq<string>, fs: FileSystem)
    requires GlobOk(fileList, src, ext, fs) && AllHeld(store, o, dst, move, d, fileList)
    ensures HeldByPlace(store, o, src, ext, dst, move, d, fileList, fs)
  {
    HeldByName(store, o, dst, move, d, fileList);
  }

  /** Every file of a fully held list is held under the ObjectId of its
    * place in the list. */
  lemma HeldByName(store: Store, o: Oracle, dst: string, move: bool, d: nat, todo: seq<string>)
    requires AllHeld(store, o, dst, move, d, todo)
    ensures forall p :: p in todo ==>
      (exists k :: 0 <= k < |todo| && todo[k] == p && HoldsFile(store, o.objectId(d + k), p, dst, move))
  {
    forall p | p in todo
      ensures exists k :: 0 <= k < |todo| && todo[k] == p && HoldsFile(store, o.objectId(d + k), p, dst, move)
    {
      var k := IndexOf(todo, p);
      assert HoldsFile(store, o.objectId(d + k), todo[k], dst, move);
    }
  }

  // ---------------------------------------------------------------------
  // Rows

  /** A row with fewer than 2 + (number of ead: columns) columns goes to
    * errorList as it is, and nothing happens. */
  lemma ShortRowRejected(s: Settings, o: Oracle, tags: seq<string>, row: seq<string>, w: World)
    requires |row| < MIN_NUM_COLS + |tags|
    ensures RowStep(s, o, tags, row, w) == Continue([row], w)
  {
  }

  /** A row whose source directory is missing, or whose destination cannot
    * be created, goes to errorList as it is, and nothing happens. */
  lemma UnusableDirectoryRejected(s: Settings, o: Oracle, tags: seq<string>, row: seq<string>, w: World)
    requires |row| >= MIN_NUM_COLS + |tags|
    requires row[0] !in w.dirs || (row[1] !in w.dirs && !o.canMakeDir(row[1]))
    ensures RowStep(s, o, tags, row, w) == Continue([row], w)
  {
  }

  /** A transfer that fails without crashing puts its row, with the
    * comment appended, into errorList. */
  lemma FailedTransferReported(s: Settings, o: Oracle, tags: seq<string>, row: seq<string>, w: World)
    requires |row| >= MIN_NUM_COLS + |tags| && row[0] in w.dirs && (row[1] in w.dirs || o.canMakeDir(row[1]))
    ensures var w0 := w.(dirs := w.dirs + {row[1]});
      var (out, w1) := TransferFilesSpec(s, o, row[1], EadDataOf(row, tags), o.glob(row[0], w0.fs), w0);
      && (out.Crash? ==> RowStep(s, o, tags, row, w) == Halt)
      && (out.Done? && !out.status ==> RowStep(s, o, tags, row, w) == Continue([row + [out.comment]], w1))
      && (out.Done? && out.status ==> RowStep(s, o, tags, row, w) == Continue([], w1))
  {
  }

  /** errorList only grows, by at most one entry per row. */
  lemma {:induction false} RowsErrorList(s: Settings, o: Oracle, tags: seq<string>, rows: seq<seq<string>>,
                                         errorList: seq<seq<string>>, w: World)
    requires RowsSpec(s, o, tags, rows, errorList, w).Some?
    ensures var errs := RowsSpec(s, o, tags, rows, errorList, w).value.0;
      |errorList| <= |errs| <= |errorList| + |rows| && errs[..|errorList|] == errorList
    decreases |rows|
  {
    if rows != [] {
      match RowStep(s, o, tags, rows[0], w)
      case Halt =>
      case Continue(errs, w') =>
        RowsErrorList(s, o, tags, rows[1..], errorList + errs, w');
        var final := RowsSpec(s, o, tags, rows[1..], errorList + errs, w').value.0;
        assert final[..|errorList + errs|][..|errorList|] == final[..|errorList|];
    }
  }

  /** A batch in which some row is too short always writes the error
    * report. */
  lemma ShortRowWritesReport(s: Settings, o: Oracle, hdr: seq<string>, row: seq<string>, w: World)
    requires |row| < MIN_NUM_COLS + |EadTagsOf(hdr)|
    requires RowsSpec(s, o, EadTagsOf(hdr), [row], [hdr + ["Comments"]], w).Some?
    ensures WritesErrorReport(RowsSpec(s, o, EadTagsOf(hdr), [row], [hdr + ["Comments"]], w).value.0)
  {
    var tags := EadTagsOf(hdr);
    ShortRowRejected(s, o, tags, row, w);
    assert RowsSpec(s, o, tags, [row], [hdr + ["Comments"]], w)
        == RowsSpec(s, o, tags, [], [hdr + ["Comments"]] + [row], w);
  }
}
