// Properties of the accession engine: what a transferred file's record
// holds, what each failure path leaves behind, how files are numbered and
// resumed, and the two places where the code as written departs from what
// its comments intend.

module AccessionProperties {
  import opened Common
  import opened Records
  import opened Files
  import opened Accession
  import AdminMeta
  import Premis
  import RecordStore
  import MetadataUtils

  /** The event types of every record the engine inserts, in order. */
  const ACCESSION_EVENT_ORDER: seq<EventType> :=
    [IdAssignment, MessageDigestCalculation, Replication, FilenameChange, FixityCheck, Accession]

  /** The events the engine appends for file `f` when its copy checks out,
    * in the order it appends them. */
  function AccessionEvents(s: Settings, o: Oracle, f: string, dst: string, checksum: string, d: nat, t: nat): seq<Event>
  {
    [Premis.IdAssignmentEvent(o.uuid(d + 1), Timestamp(o, t), s.agent, o.uuid(d)),
     Premis.MsgDigestCalcEvent(o.uuid(d + 2), Timestamp(o, t + 1), s.agent, checksum, Premis.CHECKSUM_ALGO),
     Premis.FileCopyEvent(o.uuid(d + 3), Timestamp(o, t + 2), s.agent, CopyEventType(s.move), f, PrelimPath(dst, f)),
     Premis.FilenameChangeEvent(o.uuid(d + 4), Timestamp(o, t + 3), s.agent, PrelimPath(dst, f), UniquePath(dst, f, o.uuid(d))),
     FixityEvent(s, o.uuid(d + 5), Timestamp(o, t + 4), checksum),
     Premis.AccessionEvent(o.uuid(d + 6), Timestamp(o, t + 5), s.agent)]
  }

  /** The six events of a display, by position. */
  lemma {:induction false} SixByPosition(e0: Event, e1: Event, e2: Event, e3: Event, e4: Event, e5: Event)
    ensures var es := [e0, e1, e2, e3, e4, e5];
      |es| == 6 && es[0] == e0 && es[1] == e1 && es[2] == e2 && es[3] == e3 && es[4] == e4 && es[5] == e5
  {
  }

  /** Six events built with the common envelope carry it in order. */
  lemma {:induction false} StampedInOrder(e0: Event, e1: Event, e2: Event, e3: Event, e4: Event, e5: Event,
                                          i0: string, i1: string, i2: string, i3: string, i4: string, i5: string,
                                          w0: string, w1: string, w2: string, w3: string, w4: string, w5: string,
                                          agent: Premis.Agent)
    requires Premis.Stamped(e0, i0, w0, agent) && Premis.Stamped(e1, i1, w1, agent)
    requires Premis.Stamped(e2, i2, w2, agent) && Premis.Stamped(e3, i3, w3, agent)
    requires Premis.Stamped(e4, i4, w4, agent) && Premis.Stamped(e5, i5, w5, agent)
    ensures Premis.AllStamped([e0, e1, e2, e3, e4, e5], agent)
  {
    SixByPosition(e0, e1, e2, e3, e4, e5);
  }

  /** Six events, the k-th with the k-th uuid after `d` and the k-th clock
    * reading after `t`, list those uuids and readings in order. */
  lemma {:induction false} DrawnInOrder(e0: Event, e1: Event, e2: Event, e3: Event, e4: Event, e5: Event,
                                        o: Oracle, d: nat, t: nat)
    requires e0.idValue == o.uuid(d + 1) && e0.dateTime == Timestamp(o, t)
    requires e1.idValue == o.uuid(d + 2) && e1.dateTime == Timestamp(o, t + 1)
    requires e2.idValue == o.uuid(d + 3) && e2.dateTime == Timestamp(o, t + 2)
    requires e3.idValue == o.uuid(d + 4) && e3.dateTime == Timestamp(o, t + 3)
    requires e4.idValue == o.uuid(d + 5) && e4.dateTime == Timestamp(o, t + 4)
    requires e5.idValue == o.uuid(d + 6) && e5.dateTime == Timestamp(o, t + 5)
    ensures var es := [e0, e1, e2, e3, e4, e5];
      forall i :: 0 <= i < |es| ==> es[i].idValue == o.uuid(d + 1 + i) && es[i].dateTime == Timestamp(o, t + i)
  {
    var es := [e0, e1, e2, e3, e4, e5];
    SixByPosition(e0, e1, e2, e3, e4, e5);
    forall i | 0 <= i < |es|
      ensures es[i].idValue == o.uuid(d + 1 + i) && es[i].dateTime == Timestamp(o, t + i)
    {
      if i == 0 { assert es[i] == e0 && d + 1 + i == d + 1 && t + i == t; }
      else if i == 1 { assert es[i] == e1 && d + 1 + i == d + 2 && t + i == t + 1; }
      else if i == 2 { assert es[i] == e2 && d + 1 + i == d + 3 && t + i == t + 2; }
      else if i == 3 { assert es[i] == e3 && d + 1 + i == d + 4 && t + i == t + 3; }
      else if i == 4 { assert es[i] == e4 && d + 1 + i == d + 5 && t + i == t + 4; }
      else { assert es[i] == e5 && d + 1 + i == d + 6 && t + i == t + 5; }
    }
  }

  /** Those events are all stamped with the program as agent. */
  lemma AccessionEventsStamped(s: Settings, o: Oracle, f: string, dst: string, checksum: string, d: nat, t: nat)
    ensures Premis.AllStamped(AccessionEvents(s, o, f, dst, checksum, d, t), s.agent)
  {
    var e0 := Premis.IdAssignmentEvent(o.uuid(d + 1), Timestamp(o, t), s.agent, o.uuid(d));
    var e1 := Premis.MsgDigestCalcEvent(o.uuid(d + 2), Timestamp(o, t + 1), s.agent, checksum, Premis.CHECKSUM_ALGO);
    var e2 := Premis.FileCopyEvent(o.uuid(d + 3), Timestamp(o, t + 2), s.agent, CopyEventType(s.move), f, PrelimPath(dst, f));
    var e3 := Premis.FilenameChangeEvent(o.uuid(d + 4), Timestamp(o, t + 3), s.agent, PrelimPath(dst, f), UniquePath(dst, f, o.uuid(d)));
    var e4 := FixityEvent(s, o.uuid(d + 5), Timestamp(o, t + 4), checksum);
    var e5 := Premis.AccessionEvent(o.uuid(d + 6), Timestamp(o, t + 5), s.agent);
    StampedInOrder(e0, e1, e2, e3, e4, e5, o.uuid(d + 1), o.uuid(d + 2), o.uuid(d + 3), o.uuid(d + 4), o.uuid(d + 5), o.uuid(d + 6),
                   Timestamp(o, t), Timestamp(o, t + 1), Timestamp(o, t + 2), Timestamp(o, t + 3), Timestamp(o, t + 4), Timestamp(o, t + 5), s.agent);
  }

  /** Each has its own uuid and clock reading, in the order the engine draws
    * them: the k-th event the k-th uuid after the record's `_id`. */
  lemma AccessionEventsDrawn(s: Settings, o: Oracle, f: string, dst: string, checksum: string, d: nat, t: nat)
    ensures var es := AccessionEvents(s, o, f, dst, checksum, d, t);
      forall i :: 0 <= i < |es| ==> es[i].idValue == o.uuid(d + 1 + i) && es[i].dateTime == Timestamp(o, t + i)
  {
    var e0 := Premis.IdAssignmentEvent(o.uuid(d + 1), Timestamp(o, t), s.agent, o.uuid(d));
    var e1 := Premis.MsgDigestCalcEvent(o.uuid(d + 2), Timestamp(o, t + 1), s.agent, checksum, Premis.CHECKSUM_ALGO);
    var e2 := Premis.FileCopyEvent(o.uuid(d + 3), Timestamp(o, t + 2), s.agent, CopyEventType(s.move), f, PrelimPath(dst, f));
    var e3 := Premis.FilenameChangeEvent(o.uuid(d + 4), Timestamp(o, t + 3), s.agent, PrelimPath(dst, f), UniquePath(dst, f, o.uuid(d)));
    var e4 := FixityEvent(s, o.uuid(d + 5), Timestamp(o, t + 4), checksum);
    var e5 := Premis.AccessionEvent(o.uuid(d + 6), Timestamp(o, t + 5), s.agent);
    DrawnInOrder(e0, e1, e2, e3, e4, e5, o, d, t);
  }

  /** Six events whose types are those of ACCESSION_EVENT_ORDER, in that
    * order, list exactly those types. */
  lemma {:induction false} TypesInOrder(e0: Event, e1: Event, e2: Event, e3: Event, e4: Event, e5: Event)
    requires e0.eventType == IdAssignment && e1.eventType == MessageDigestCalculation
    requires e2.eventType == Replication && e3.eventType == FilenameChange
    requires e4.eventType == FixityCheck && e5.eventType == Accession
    ensures EventTypes([e0, e1, e2, e3, e4, e5]) == ACCESSION_EVENT_ORDER
  {
    var es := [e0, e1, e2, e3, e4, e5];
    SixByPosition(e0, e1, e2, e3, e4, e5);
    assert EventTypes(es) == [e0.eventType, e1.eventType, e2.eventType, e3.eventType, e4.eventType, e5.eventType];
  }

  /** Their types are identifier assignment, message digest, copy, filename
    * change, fixity check and accession, in that order. */
  lemma AccessionEventsOrder(s: Settings, o: Oracle, f: string, dst: string, checksum: string, d: nat, t: nat)
    ensures EventTypes(AccessionEvents(s, o, f, dst, checksum, d, t)) == ACCESSION_EVENT_ORDER
  {
    var e0 := Premis.IdAssignmentEvent(o.uuid(d + 1), Timestamp(o, t), s.agent, o.uuid(d));
    var e1 := Premis.MsgDigestCalcEvent(o.uuid(d + 2), Timestamp(o, t + 1), s.agent, checksum, Premis.CHECKSUM_ALGO);
    var e2 := Premis.FileCopyEvent(o.uuid(d + 3), Timestamp(o, t + 2), s.agent, CopyEventType(s.move), f, PrelimPath(dst, f));
    var e3 := Premis.FilenameChangeEvent(o.uuid(d + 4), Timestamp(o, t + 3), s.agent, PrelimPath(dst, f), UniquePath(dst, f, o.uuid(d)));
    var e4 := FixityEvent(s, o.uuid(d + 5), Timestamp(o, t + 4), checksum);
    var e5 := Premis.AccessionEvent(o.uuid(d + 6), Timestamp(o, t + 5), s.agent);
    TypesInOrder(e0, e1, e2, e3, e4, e5);
  }

  /** The first records the object's `_id`, the second the source checksum,
    * the third and fourth the two legs of the transfer: original name to
    * preliminary path, preliminary path to `<_id>.<ext>`. */
  lemma AccessionEventsDetails(s: Settings, o: Oracle, f: string, dst: string, checksum: string, d: nat, t: nat)
    ensures var es := AccessionEvents(s, o, f, dst, checksum, d, t);
      es[0].details == Some([IdAssignmentDetail(Premis.UNIQUE_ID_ALGO, Premis.ProgLang(s.agent), Premis.UNIQUE_ID_METHOD, o.uuid(d))]) &&
      es[1].details == Some([DigestDetail(Premis.CHECKSUM_ALGO, Premis.ProgLang(s.agent), Premis.CHECKSUM_METHOD, checksum)]) &&
      es[2].details == Some([CopyDetail(f, PrelimPath(dst, f))]) &&
      es[3].details == Some([CopyDetail(PrelimPath(dst, f), UniquePath(dst, f, o.uuid(d)))])
  {
    var e0 := Premis.IdAssignmentEvent(o.uuid(d + 1), Timestamp(o, t), s.agent, o.uuid(d));
    var e1 := Premis.MsgDigestCalcEvent(o.uuid(d + 2), Timestamp(o, t + 1), s.agent, checksum, Premis.CHECKSUM_ALGO);
    var e2 := Premis.FileCopyEvent(o.uuid(d + 3), Timestamp(o, t + 2), s.agent, CopyEventType(s.move), f, PrelimPath(dst, f));
    var e3 := Premis.FilenameChangeEvent(o.uuid(d + 4), Timestamp(o, t + 3), s.agent, PrelimPath(dst, f), UniquePath(dst, f, o.uuid(d)));
    var e4 := FixityEvent(s, o.uuid(d + 5), Timestamp(o, t + 4), checksum);
    var e5 := Premis.AccessionEvent(o.uuid(d + 6), Timestamp(o, t + 5), s.agent);
    SixByPosition(e0, e1, e2, e3, e4, e5);
  }

  /** Six appends to an empty list give the six events in order. */
  lemma {:induction false} AppendedInOrder(e0: Event, e1: Event, e2: Event, e3: Event, e4: Event, e5: Event)
    ensures ((((([] + [e0]) + [e1]) + [e2]) + [e3]) + [e4]) + [e5] == [e0, e1, e2, e3, e4, e5]
  {
  }

  /** The record the engine inserts for file `f`: its `_id` is the `d`-th
    * uuid drawn, its object carries that `_id`, the MD5 checksum, the size,
    * format name and path of the file, its arrangement the kept fields and
    * the serial number, and its events are the six above. */
  lemma InsertedRecord(s: Settings, o: Oracle, kept: map<string, string>, f: string, size: nat,
                       dst: string, checksum: string, serial: int, d: nat, t: nat)
    ensures var r := RecordToInsert(s, o, RecordBeforeCheck(s, o, kept, f, size, dst, checksum, d, t), checksum, serial, d, t);
      r.id == o.uuid(d) &&
      r.obj == ObjectEntity(Premis.OBJ_ID_TYPE, o.uuid(d), s.category, Premis.CHECKSUM_ALGO, checksum,
                            size, MetadataUtils.FileFormatName(Basename(f)), f) &&
      r.arrangement == AdminMeta.ArrangementEntity(kept)[AdminMeta.SERIAL_NUMBER_LABEL := Number(serial)] &&
      r.entities == map[] &&
      r.events == AccessionEvents(s, o, f, dst, checksum, d, t)
  {
    var e0 := Premis.IdAssignmentEvent(o.uuid(d + 1), Timestamp(o, t), s.agent, o.uuid(d));
    var e1 := Premis.MsgDigestCalcEvent(o.uuid(d + 2), Timestamp(o, t + 1), s.agent, checksum, Premis.CHECKSUM_ALGO);
    var e2 := Premis.FileCopyEvent(o.uuid(d + 3), Timestamp(o, t + 2), s.agent, CopyEventType(s.move), f, PrelimPath(dst, f));
    var e3 := Premis.FilenameChangeEvent(o.uuid(d + 4), Timestamp(o, t + 3), s.agent, PrelimPath(dst, f), UniquePath(dst, f, o.uuid(d)));
    var e4 := FixityEvent(s, o.uuid(d + 5), Timestamp(o, t + 4), checksum);
    var e5 := Premis.AccessionEvent(o.uuid(d + 6), Timestamp(o, t + 5), s.agent);
    AppendedInOrder(e0, e1, e2, e3, e4, e5);
  }

  // ---------------------------------------------------------------------
  // One file

  /** The record the engine inserts for a file that exists in `w`: built
    * from the non-empty arrangement fields, the file's size and its source
    * checksum, with the next uuids and clock readings. */
  function AccessionRecord(s: Settings, o: Oracle, dst: string, info: map<string, string>, f: string, serial: int, w: World): Record
    requires f in w.fs
  {
    var checksum := o.md5(w.fs[f]);
    RecordToInsert(s, o, RecordBeforeCheck(s, o, AdminMeta.NonEmptyFields(info), f, |w.fs[f]|, dst, checksum, w.drawn, w.ticks),
                   checksum, serial, w.drawn, w.ticks)
  }

  /** The file system once a file's copy has landed at its preliminary path
    * and been renamed to its unique path. */
  function Landed(o: Oracle, dst: string, f: string, w: World): FileSystem
    requires f in w.fs
  {
    Rename(Copy(w.fs, PrelimPath(dst, f), o.landed(w.copies, w.fs[f])), PrelimPath(dst, f), UniquePath(dst, f, o.uuid(w.drawn)))
  }

  /** The insert succeeds, and the loop carries on, exactly when the
    * record's `_id` is new to the store. */
  lemma CommitNextIff(s: Settings, id: string, unique: string, movedAway: string, rec: Record, renamed: FileSystem, w: World)
    requires rec.id == id && id != s.insertErrorCode
    ensures Commit(s, id, unique, movedAway, rec, renamed, w).Next? <==> id !in w.store
  {
  }

  lemma SettleNextIff(s: Settings, o: Oracle, f: string, unique: string, id: string, srcChecksum: string,
                      before: Record, renamed: FileSystem, serial: int, w: World)
    requires unique in renamed && before.id == id && id != s.insertErrorCode
    ensures Settle(s, o, f, unique, id, srcChecksum, before, renamed, serial, w).Next? <==>
      o.md5(renamed[unique]) == srcChecksum && id !in w.store
  {
    if o.md5(renamed[unique]) == srcChecksum {
      var rec := RecordToInsert(s, o, before, srcChecksum, serial, w.drawn, w.ticks);
      CommitNextIff(s, id, unique, MovedAway(s, f, unique), rec, renamed, w);
    }
  }

  lemma TransferNextIff(s: Settings, o: Oracle, dst: string, info: map<string, string>, f: string, serial: int, w: World)
    requires f in w.fs && o.uuid(w.drawn) != s.insertErrorCode
    ensures Transfer(s, o, dst, info, f, serial, w).Next? <==>
      o.md5(o.landed(w.copies, w.fs[f])) == o.md5(w.fs[f]) && o.uuid(w.drawn) !in w.store
  {
    var id := o.uuid(w.drawn);
    var unique := UniquePath(dst, f, id);
    var srcChecksum := o.md5(w.fs[f]);
    var before := RecordBeforeCheck(s, o, AdminMeta.NonEmptyFields(info), f, |w.fs[f]|, dst, srcChecksum, w.drawn, w.ticks);
    var renamed := Landed(o, dst, f, w);
    SettleNextIff(s, o, f, unique, id, srcChecksum, before, renamed, serial, w);
  }

  /** A file's step carries on to the next file exactly when the file
    * exists, is not its own destination, the copy's checksum equals the
    * source's, and its `_id` is new to the store: the record is inserted
    * only after the fixity check. (A uuid4 string is never the insert
    * helper's error code.) */
  lemma StepCommitsIff(s: Settings, o: Oracle, dst: string, info: map<string, string>, f: string, serial: int, w: World)
    requires o.uuid(w.drawn) != s.insertErrorCode
    ensures Step(s, o, dst, info, f, serial, w).Next? <==>
      f in w.fs && PrelimPath(dst, f) != f &&
      o.md5(o.landed(w.copies, w.fs[f])) == o.md5(w.fs[f]) &&
      o.uuid(w.drawn) !in w.store
  {
    if f in w.fs && PrelimPath(dst, f) != f {
      TransferNextIff(s, o, dst, info, f, serial, w);
    }
  }

  /** What the copy and rename leave behind: the preliminary path is gone
    * and the unique path holds the bytes that landed; nothing else moves. */
  lemma LandedMeaning(o: Oracle, dst: string, f: string, w: World)
    requires f in w.fs
    ensures Landed(o, dst, f, w) == (w.fs - {PrelimPath(dst, f)})[UniquePath(dst, f, o.uuid(w.drawn)) := o.landed(w.copies, w.fs[f])]
  {
    CopyThenRename(w.fs, PrelimPath(dst, f), UniquePath(dst, f, o.uuid(w.drawn)), o.landed(w.copies, w.fs[f]));
  }

  /** The copy sits at the unique path. */
  lemma LandedAtUnique(o: Oracle, dst: string, f: string, w: World)
    requires f in w.fs
    ensures UniquePath(dst, f, o.uuid(w.drawn)) in Landed(o, dst, f, w)
    ensures Landed(o, dst, f, w)[UniquePath(dst, f, o.uuid(w.drawn))] == o.landed(w.copies, w.fs[f])
  {
  }

  /** A file that exists and is not its own destination goes on to the
    * checksum comparison with its record and the landed copy. */
  lemma StepSettles(s: Settings, o: Oracle, dst: string, info: map<string, string>, f: string, serial: int, w: World)
    requires f in w.fs && PrelimPath(dst, f) != f
    ensures Step(s, o, dst, info, f, serial, w) ==
      Settle(s, o, f, UniquePath(dst, f, o.uuid(w.drawn)), o.uuid(w.drawn), o.md5(w.fs[f]),
             RecordBeforeCheck(s, o, AdminMeta.NonEmptyFields(info), f, |w.fs[f]|, dst, o.md5(w.fs[f]), w.drawn, w.ticks),
             Landed(o, dst, f, w), serial, w)
  {
  }

  /** After a verified copy the store gains exactly the file's record under
    * its fresh `_id`, and seven uuids, six clock readings and one copy have
    * been drawn. */
  lemma StepNextRecord(s: Settings, o: Oracle, dst: string, info: map<string, string>, f: string, serial: int, w: World)
    requires o.uuid(w.drawn) != s.insertErrorCode
    requires Step(s, o, dst, info, f, serial, w).Next?
    ensures f in w.fs && PrelimPath(dst, f) != f && o.uuid(w.drawn) !in w.store
    ensures var w' := Step(s, o, dst, info, f, serial, w).w;
      w'.store == w.store[o.uuid(w.drawn) := AccessionRecord(s, o, dst, info, f, serial, w)] &&
      w'.dirs == w.dirs && w'.drawn == w.drawn + 7 && w'.ticks == w.ticks + 6 && w'.copies == w.copies + 1
  {
    StepCommitsIff(s, o, dst, info, f, serial, w);
    StepSettles(s, o, dst, info, f, serial, w);
    assert AccessionRecord(s, o, dst, info, f, serial, w).id == o.uuid(w.drawn);
  }

  /** After a verified copy the file system is the landed one, less the
    * file move mode removes. */
  lemma StepNextFiles(s: Settings, o: Oracle, dst: string, info: map<string, string>, f: string, serial: int, w: World)
    requires o.uuid(w.drawn) != s.insertErrorCode
    requires Step(s, o, dst, info, f, serial, w).Next?
    ensures f in w.fs
    ensures Step(s, o, dst, info, f, serial, w).w.fs ==
      if s.move then Remove(Landed(o, dst, f, w), MovedAway(s, f, UniquePath(dst, f, o.uuid(w.drawn))))
      else Landed(o, dst, f, w)
  {
    StepCommitsIff(s, o, dst, info, f, serial, w);
    StepSettles(s, o, dst, info, f, serial, w);
  }

  /** Removing the source after its copy has landed. */
  lemma SourceRemoved(o: Oracle, dst: string, f: string, w: World)
    requires f in w.fs && f != UniquePath(dst, f, o.uuid(w.drawn))
    ensures Remove(Landed(o, dst, f, w), f) ==
      (w.fs - {PrelimPath(dst, f), f})[UniquePath(dst, f, o.uuid(w.drawn)) := o.landed(w.copies, w.fs[f])]
  {
    LandedMeaning(o, dst, f, w);
    var m := (w.fs - {PrelimPath(dst, f), f})[UniquePath(dst, f, o.uuid(w.drawn)) := o.landed(w.copies, w.fs[f])];
    assert Remove(Landed(o, dst, f, w), f).Keys == m.Keys;
  }

  /** The file system after a checksum mismatch: the landed copy is removed,
    * so the destination paths are empty again. */
  lemma DiscardedCopy(o: Oracle, dst: string, f: string, w: World)
    requires f in w.fs
    ensures Remove(Landed(o, dst, f, w), UniquePath(dst, f, o.uuid(w.drawn))) ==
      w.fs - {PrelimPath(dst, f), UniquePath(dst, f, o.uuid(w.drawn))}
  {
    LandedMeaning(o, dst, f, w);
    assert Remove(Landed(o, dst, f, w), UniquePath(dst, f, o.uuid(w.drawn))).Keys ==
      (w.fs - {PrelimPath(dst, f), UniquePath(dst, f, o.uuid(w.drawn))}).Keys;
  }

  /** A file system with some paths removed and one path written. */
  lemma {:induction false} Placed(fs: FileSystem, gone: set<string>, at: string, b: Bytes, keep: string)
    ensures var m := (fs - gone)[at := b];
      at in m && m[at] == b && m.Keys == (fs.Keys - gone) + {at} &&
      (keep in fs && keep !in gone && keep != at ==> keep in m && m[keep] == fs[keep]) &&
      (keep in gone && keep != at ==> keep !in m)
  {
  }

  /** Copy mode: after a verified copy the unique path holds bytes with the
    * source's checksum, the preliminary path is gone and the source is
    * untouched. */
  lemma CopyModeKeepsSource(s: Settings, o: Oracle, dst: string, info: map<string, string>, f: string, serial: int, w: World)
    requires !s.move && o.uuid(w.drawn) != s.insertErrorCode
    requires Step(s, o, dst, info, f, serial, w).Next?
    ensures f in w.fs
    ensures var fs' := Step(s, o, dst, info, f, serial, w).w.fs;
      var unique := UniquePath(dst, f, o.uuid(w.drawn));
      fs' == (w.fs - {PrelimPath(dst, f)})[unique := o.landed(w.copies, w.fs[f])] &&
      o.md5(fs'[unique]) == o.md5(w.fs[f]) &&
      (f != unique ==> f in fs' && fs'[f] == w.fs[f])
  {
    StepCommitsIff(s, o, dst, info, f, serial, w);
    StepNextFiles(s, o, dst, info, f, serial, w);
    LandedMeaning(o, dst, f, w);
    Placed(w.fs, {PrelimPath(dst, f)}, UniquePath(dst, f, o.uuid(w.drawn)), o.landed(w.copies, w.fs[f]), f);
  }

  /** Move mode as written: after a verified copy and a successful insert
    * the destination copy is removed and the source stays where it was, so
    * the file system ends as if nothing had been copied while the store
    * records the file as accessioned at its unique path. */
  lemma MoveAsWrittenDropsCopy(s: Settings, o: Oracle, dst: string, info: map<string, string>, f: string, serial: int, w: World)
    requires s.move && s.build == AsWritten && o.uuid(w.drawn) != s.insertErrorCode
    requires Step(s, o, dst, info, f, serial, w).Next?
    requires f != UniquePath(dst, f, o.uuid(w.drawn))
    ensures f in w.fs
    ensures var fs' := Step(s, o, dst, info, f, serial, w).w.fs;
      UniquePath(dst, f, o.uuid(w.drawn)) !in fs' && PrelimPath(dst, f) !in fs' &&
      f in fs' && fs'[f] == w.fs[f] &&
      fs'.Keys == w.fs.Keys - {PrelimPath(dst, f), UniquePath(dst, f, o.uuid(w.drawn))}
  {
    StepCommitsIff(s, o, dst, info, f, serial, w);
    StepNextFiles(s, o, dst, info, f, serial, w);
    DiscardedCopy(o, dst, f, w);
    RemovedTwo(w.fs, PrelimPath(dst, f), UniquePath(dst, f, o.uuid(w.drawn)), f);
  }

  /** A file system less two paths keeps every other file as it was. */
  lemma RemovedTwo(fs: FileSystem, a: string, b: string, f: string)
    requires f in fs && f != a && f != b
    ensures var m := fs - {a, b};
      a !in m && b !in m && f in m && m[f] == fs[f] && m.Keys == fs.Keys - {a, b}
  {
  }

  /** Move mode as intended: the verified copy stays at its unique path and
    * the source file is removed. */
  lemma MoveIntendedMovesSource(s: Settings, o: Oracle, dst: string, info: map<string, string>, f: string, serial: int, w: World)
    requires s.move && s.build == Intended && o.uuid(w.drawn) != s.insertErrorCode
    requires Step(s, o, dst, info, f, serial, w).Next?
    requires f != UniquePath(dst, f, o.uuid(w.drawn))
    ensures f in w.fs
    ensures var fs' := Step(s, o, dst, info, f, serial, w).w.fs;
      var unique := UniquePath(dst, f, o.uuid(w.drawn));
      unique in fs' && fs'[unique] == o.landed(w.copies, w.fs[f]) && o.md5(fs'[unique]) == o.md5(w.fs[f]) &&
      f !in fs' && PrelimPath(dst, f) !in fs' - {unique} &&
      fs'.Keys == (w.fs.Keys - {PrelimPath(dst, f), f}) + {unique}
  {
    StepCommitsIff(s, o, dst, info, f, serial, w);
    StepNextFiles(s, o, dst, info, f, serial, w);
    SourceRemoved(o, dst, f, w);
    Placed(w.fs, {PrelimPath(dst, f), f}, UniquePath(dst, f, o.uuid(w.drawn)), o.landed(w.copies, w.fs[f]), f);
  }

  /** A copy whose checksum differs from the source's is discarded. */
  lemma SettleMismatch(s: Settings, o: Oracle, f: string, unique: string, id: string, srcChecksum: string,
                       before: Record, renamed: FileSystem, serial: int, w: World)
    requires unique in renamed && o.md5(renamed[unique]) != srcChecksum
    ensures Settle(s, o, f, unique, id, srcChecksum, before, renamed, serial, w) == Discard(s, f, unique, id, renamed, w)
  {
  }

  /** A discarded copy when no record has the `_id`: as written the process
    * exits, as intended the mismatch is reported; the store is unchanged. */
  lemma DiscardWithoutRecord(s: Settings, f: string, unique: string, id: string, renamed: FileSystem, w: World)
    requires id !in w.store
    ensures var w' := World(Remove(renamed, unique), w.dirs, w.store, w.drawn + 5, w.ticks + 4, w.copies + 1);
      Discard(s, f, unique, id, renamed, w) ==
        if s.build == AsWritten then Stop(Exit(CannotRemoveRecord), w') else Stop(Done(false, MismatchComment(f, unique)), w')
  {
  }

  /** A checksum mismatch as written: the copy is removed, and since no
    * record was inserted under the fresh `_id`, deleteRecordFromDB ends the
    * process with ERROR_CANNOT_REMOVE_RECORD_FROM_DB instead of reporting
    * the mismatch. */
  lemma MismatchAsWrittenExits(s: Settings, o: Oracle, dst: string, info: map<string, string>, f: string, serial: int, w: World)
    requires f in w.fs && PrelimPath(dst, f) != f
    requires o.md5(o.landed(w.copies, w.fs[f])) != o.md5(w.fs[f])
    requires s.build == AsWritten && o.uuid(w.drawn) !in w.store
    ensures Step(s, o, dst, info, f, serial, w) ==
      Stop(Exit(CannotRemoveRecord),
           World(w.fs - {PrelimPath(dst, f), UniquePath(dst, f, o.uuid(w.drawn))}, w.dirs, w.store,
                 w.drawn + 5, w.ticks + 4, w.copies + 1))
  {
    var unique := UniquePath(dst, f, o.uuid(w.drawn));
    var before := RecordBeforeCheck(s, o, AdminMeta.NonEmptyFields(info), f, |w.fs[f]|, dst, o.md5(w.fs[f]), w.drawn, w.ticks);
    StepSettles(s, o, dst, info, f, serial, w);
    LandedAtUnique(o, dst, f, w);
    SettleMismatch(s, o, f, unique, o.uuid(w.drawn), o.md5(w.fs[f]), before, Landed(o, dst, f, w), serial, w);
    DiscardWithoutRecord(s, f, unique, o.uuid(w.drawn), Landed(o, dst, f, w), w);
    DiscardedCopy(o, dst, f, w);
  }

  /** A checksum mismatch as intended: the copy is removed, the store is
    * unchanged, and the run stops with status False and the mismatch
    * comment naming both files. */
  lemma MismatchIntendedReports(s: Settings, o: Oracle, dst: string, info: map<string, string>, f: string, serial: int, w: World)
    requires f in w.fs && PrelimPath(dst, f) != f
    requires o.md5(o.landed(w.copies, w.fs[f])) != o.md5(w.fs[f])
    requires s.build == Intended && o.uuid(w.drawn) !in w.store
    ensures Step(s, o, dst, info, f, serial, w) ==
      Stop(Done(false, MismatchComment(f, UniquePath(dst, f, o.uuid(w.drawn)))),
           World(w.fs - {PrelimPath(dst, f), UniquePath(dst, f, o.uuid(w.drawn))}, w.dirs, w.store,
                 w.drawn + 5, w.ticks + 4, w.copies + 1))
  {
    var unique := UniquePath(dst, f, o.uuid(w.drawn));
    var before := RecordBeforeCheck(s, o, AdminMeta.NonEmptyFields(info), f, |w.fs[f]|, dst, o.md5(w.fs[f]), w.drawn, w.ticks);
    StepSettles(s, o, dst, info, f, serial, w);
    LandedAtUnique(o, dst, f, w);
    SettleMismatch(s, o, f, unique, o.uuid(w.drawn), o.md5(w.fs[f]), before, Landed(o, dst, f, w), serial, w);
    DiscardWithoutRecord(s, f, unique, o.uuid(w.drawn), Landed(o, dst, f, w), w);
    DiscardedCopy(o, dst, f, w);
  }

  /** A copy whose checksum equals the source's goes on to the insert of
    * the completed record. */
  lemma SettleMatch(s: Settings, o: Oracle, f: string, unique: string, id: string, srcChecksum: string,
                    before: Record, renamed: FileSystem, serial: int, w: World)
    requires unique in renamed && o.md5(renamed[unique]) == srcChecksum
    ensures Settle(s, o, f, unique, id, srcChecksum, before, renamed, serial, w) ==
      Commit(s, id, unique, MovedAway(s, f, unique), RecordToInsert(s, o, before, srcChecksum, serial, w.drawn, w.ticks), renamed, w)
  {
  }

  /** An insert under an `_id` already in the store stops the run and
    * changes nothing in the store. */
  lemma CommitDuplicate(s: Settings, id: string, unique: string, movedAway: string, rec: Record, renamed: FileSystem, w: World)
    requires rec.id == id && id in w.store && id != s.insertErrorCode
    ensures Commit(s, id, unique, movedAway, rec, renamed, w) ==
      Stop(Done(false, INSERT_FAILED_COMMENT), World(renamed, w.dirs, w.store, w.drawn + 7, w.ticks + 6, w.copies + 1))
  {
  }

  /** An insert that does not return the record's `_id` (a duplicate key)
    * stops the run with "DB Insert operation not successful.", leaves the
    * store unchanged and the verified copy orphaned at its unique path,
    * in move mode too. */
  lemma InsertFailureStops(s: Settings, o: Oracle, dst: string, info: map<string, string>, f: string, serial: int, w: World)
    requires f in w.fs && PrelimPath(dst, f) != f
    requires o.md5(o.landed(w.copies, w.fs[f])) == o.md5(w.fs[f])
    requires o.uuid(w.drawn) in w.store && o.uuid(w.drawn) != s.insertErrorCode
    ensures Step(s, o, dst, info, f, serial, w) ==
      Stop(Done(false, INSERT_FAILED_COMMENT),
           World(Landed(o, dst, f, w), w.dirs, w.store, w.drawn + 7, w.ticks + 6, w.copies + 1))
  {
    var unique := UniquePath(dst, f, o.uuid(w.drawn));
    var before := RecordBeforeCheck(s, o, AdminMeta.NonEmptyFields(info), f, |w.fs[f]|, dst, o.md5(w.fs[f]), w.drawn, w.ticks);
    var rec := RecordToInsert(s, o, before, o.md5(w.fs[f]), serial, w.drawn, w.ticks);
    StepSettles(s, o, dst, info, f, serial, w);
    LandedAtUnique(o, dst, f, w);
    SettleMatch(s, o, f, unique, o.uuid(w.drawn), o.md5(w.fs[f]), before, Landed(o, dst, f, w), serial, w);
    assert rec.id == o.uuid(w.drawn);
    CommitDuplicate(s, o.uuid(w.drawn), unique, MovedAway(s, f, unique), rec, Landed(o, dst, f, w), w);
  }

  // ---------------------------------------------------------------------
  // The loop and the run

  /** A run that ended with status True. */
  predicate Succeeded(out: Outcome)
  {
    out.Done? && out.status
  }

  /** Neither a discarded copy nor a failed insert reports success. */
  lemma SettleStopFails(s: Settings, o: Oracle, f: string, unique: string, id: string, srcChecksum: string,
                        before: Record, renamed: FileSystem, serial: int, w: World)
    requires unique in renamed
    requires Settle(s, o, f, unique, id, srcChecksum, before, renamed, serial, w).Stop?
    ensures !Succeeded(Settle(s, o, f, unique, id, srcChecksum, before, renamed, serial, w).out)
  {
    if o.md5(renamed[unique]) != srcChecksum {
      SettleMismatch(s, o, f, unique, id, srcChecksum, before, renamed, serial, w);
    } else {
      SettleMatch(s, o, f, unique, id, srcChecksum, before, renamed, serial, w);
    }
  }

  /** A file's step that stops the run never reports success. */
  lemma StepStopFails(s: Settings, o: Oracle, dst: string, info: map<string, string>, f: string, serial: int, w: World)
    requires Step(s, o, dst, info, f, serial, w).Stop?
    ensures !Succeeded(Step(s, o, dst, info, f, serial, w).out)
  {
    if f in w.fs && PrelimPath(dst, f) != f {
      StepSettles(s, o, dst, info, f, serial, w);
      LandedAtUnique(o, dst, f, w);
      SettleStopFails(s, o, f, UniquePath(dst, f, o.uuid(w.drawn)), o.uuid(w.drawn), o.md5(w.fs[f]),
                      RecordBeforeCheck(s, o, AdminMeta.NonEmptyFields(info), f, |w.fs[f]|, dst, o.md5(w.fs[f]), w.drawn, w.ticks),
                      Landed(o, dst, f, w), serial, w);
    }
  }

  /** The facts about a file's record that numbering depends on. */
  lemma AccessionRecordNames(s: Settings, o: Oracle, dst: string, info: map<string, string>, f: string, serial: int, w: World)
    requires f in w.fs
    ensures var r := AccessionRecord(s, o, dst, info, f, serial, w);
      r.id == o.uuid(w.drawn) && r.obj.originalName == f &&
      AdminMeta.SERIAL_NUMBER_LABEL in r.arrangement && r.arrangement[AdminMeta.SERIAL_NUMBER_LABEL] == Number(serial)
  {
    InsertedRecord(s, o, AdminMeta.NonEmptyFields(info), f, |w.fs[f]|, dst, o.md5(w.fs[f]), serial, w.drawn, w.ticks);
  }

  /** Every record of `before` is in `after`, unchanged. */
  predicate Kept(before: RecordStore.Store, after: RecordStore.Store)
  {
    forall id :: id in before ==> id in after && after[id] == before[id]
  }

  /** The store holds, under `id`, a record of file `f` with serial number
    * `serial`. */
  predicate HoldsFile(store: RecordStore.Store, id: string, f: string, serial: int)
  {
    id in store && store[id].obj.originalName == f &&
    AdminMeta.SERIAL_NUMBER_LABEL in store[id].arrangement &&
    store[id].arrangement[AdminMeta.SERIAL_NUMBER_LABEL] == Number(serial)
  }

  /** What a step that carries on did for file `f` with serial `k`: it drew
    * seven uuids, kept every stored record, and stored one under the first
    * uuid it drew that names the file and carries the serial. */
  predicate Recorded(o: Oracle, w: World, w': World, f: string, k: int)
  {
    w'.drawn == w.drawn + 7 && Kept(w.store, w'.store) && HoldsFile(w'.store, o.uuid(w.drawn), f, k)
  }

  lemma KeptTransitive(a: RecordStore.Store, b: RecordStore.Store, c: RecordStore.Store)
    requires Kept(a, b) && Kept(b, c)
    ensures Kept(a, c)
  {
  }

  lemma HoldsFileKept(a: RecordStore.Store, b: RecordStore.Store, id: string, f: string, serial: int)
    requires HoldsFile(a, id, f, serial) && Kept(a, b)
    ensures HoldsFile(b, id, f, serial)
  {
  }

  /** A run reports success only when no step stopped it; then every file
    * was recorded, the k-th with serial `serial + k` under the uuid drawn
    * for it, the comment counts them all, and the records stored before
    * the run are kept. */
  lemma {:induction false} RunSuccess(step: (string, int, World) -> StepResult, o: Oracle, todo: seq<string>,
                                      serial: int, n: nat, total: nat, w: World)
    requires forall f, k, v :: step(f, k, v).Stop? ==> !Succeeded(step(f, k, v).out)
    requires forall f, k, v :: step(f, k, v).Next? ==> Recorded(o, v, step(f, k, v).w, f, k)
    requires Succeeded(Run(step, todo, serial, n, total, w).0)
    ensures Run(step, todo, serial, n, total, w).0.comment == SuccessComment(n + |todo|, total)
    ensures var w' := Run(step, todo, serial, n, total, w).1;
      w'.drawn == w.drawn + 7 * |todo| && Kept(w.store, w'.store) &&
      forall k :: 0 <= k < |todo| ==>
        HoldsFile(w'.store, o.uuid(w.drawn + 7 * k), todo[k], serial + k)
    decreases |todo|
  {
    if todo != [] {
      var res := step(todo[0], serial, w);
      if res.Stop? {
        assert false;
      }
      var w1 := res.w;
      assert Recorded(o, w, w1, todo[0], serial);
      var w' := Run(step, todo[1..], serial + 1, n + 1, total, w1).1;
      assert Run(step, todo, serial, n, total, w) == Run(step, todo[1..], serial + 1, n + 1, total, w1);
      RunSuccess(step, o, todo[1..], serial + 1, n + 1, total, w1);
      KeptTransitive(w.store, w1.store, w'.store);
      assert n + 1 + |todo[1..]| == n + |todo|;
      forall k | 0 <= k < |todo|
        ensures HoldsFile(w'.store, o.uuid(w.drawn + 7 * k), todo[k], serial + k)
      {
        if k == 0 {
          HoldsFileKept(w1.store, w'.store, o.uuid(w.drawn), todo[0], serial);
        } else {
          assert w.drawn + 7 * k == w1.drawn + 7 * (k - 1) && todo[k] == todo[1..][k - 1];
        }
      }
    }
  }

  /** The engine's step stops only with a failure. */
  lemma StepOfStopsFailing(s: Settings, o: Oracle, dst: string, info: map<string, string>)
    ensures forall f, k, v :: StepOf(s, o, dst, info)(f, k, v).Stop? ==> !Succeeded(StepOf(s, o, dst, info)(f, k, v).out)
  {
    forall f, k, v | StepOf(s, o, dst, info)(f, k, v).Stop?
      ensures !Succeeded(StepOf(s, o, dst, info)(f, k, v).out)
    {
      assert StepOf(s, o, dst, info)(f, k, v) == Step(s, o, dst, info, f, k, v);
      StepStopFails(s, o, dst, info, f, k, v);
    }
  }

  /** Adding a record under a new `_id` keeps every other record. */
  lemma KeptByInsert(store: RecordStore.Store, id: string, rec: Record)
    requires id !in store
    ensures Kept(store, store[id := rec])
  {
  }

  /** A step that carries on records its file. */
  lemma StepRecorded(s: Settings, o: Oracle, dst: string, info: map<string, string>, f: string, k: int, w: World)
    requires o.uuid(w.drawn) != s.insertErrorCode
    requires Step(s, o, dst, info, f, k, w).Next?
    ensures Recorded(o, w, Step(s, o, dst, info, f, k, w).w, f, k)
  {
    StepNextRecord(s, o, dst, info, f, k, w);
    AccessionRecordNames(s, o, dst, info, f, k, w);
    KeptByInsert(w.store, o.uuid(w.drawn), AccessionRecord(s, o, dst, info, f, k, w));
  }

  /** A step of the engine that carries on records its file. */
  lemma StepOfRecords(s: Settings, o: Oracle, dst: string, info: map<string, string>)
    requires forall k :: o.uuid(k) != s.insertErrorCode
    ensures forall f, k, v :: StepOf(s, o, dst, info)(f, k, v).Next? ==> Recorded(o, v, StepOf(s, o, dst, info)(f, k, v).w, f, k)
  {
    forall f, k, v | StepOf(s, o, dst, info)(f, k, v).Next?
      ensures Recorded(o, v, StepOf(s, o, dst, info)(f, k, v).w, f, k)
    {
      assert StepOf(s, o, dst, info)(f, k, v) == Step(s, o, dst, info, f, k, v);
      StepRecorded(s, o, dst, info, f, k, v);
    }
  }

  /** A loop of transferFiles that reports success transferred every file
    * it was given: "Success. N out of M files transferred" with N the files
    * done, the k-th file recorded with serial `serial + k`, and every record
    * stored before kept. (A uuid4 string is never the insert helper's error
    * code.) */
  lemma LoopSuccess(s: Settings, o: Oracle, dst: string, info: map<string, string>, todo: seq<string>,
                    serial: int, n: nat, total: nat, w: World)
    requires forall k :: o.uuid(k) != s.insertErrorCode
    requires Succeeded(Loop(s, o, dst, info, todo, serial, n, total, w).0)
    ensures Loop(s, o, dst, info, todo, serial, n, total, w).0.comment == SuccessComment(n + |todo|, total)
    ensures var w' := Loop(s, o, dst, info, todo, serial, n, total, w).1;
      w'.drawn == w.drawn + 7 * |todo| && Kept(w.store, w'.store) &&
      forall k :: 0 <= k < |todo| ==>
        HoldsFile(w'.store, o.uuid(w.drawn + 7 * k), todo[k], serial + k)
  {
    StepOfStopsFailing(s, o, dst, info);
    StepOfRecords(s, o, dst, info);
    RunSuccess(StepOf(s, o, dst, info), o, todo, serial, n, total, w);
  }

  /** An empty file list ends the run with status False and "No files
    * found with extension '<ext>'!", copying and inserting nothing, once
    * the starting serial number is resolved. */
  lemma NoFilesFound(s: Settings, o: Oracle, src: string, dst: string, info: map<string, string>, w: World)
    requires Resume(s, o, src, dst, w).0.Some?
    ensures TransferFilesSpec(s, o, src, dst, info, [], w) == (Done(false, NoFilesComment(s.ext)), Resume(s, o, src, dst, w).1)
    ensures Resume(s, o, src, dst, w).1.fs == w.fs && Resume(s, o, src, dst, w).1.store == w.store
  {
  }

  /** A destination directory that does not exist yet is created, and every
    * file of the list is transferred, numbered from 1. */
  lemma FreshDestination(s: Settings, o: Oracle, src: string, dst: string, info: map<string, string>,
                         fileList: seq<string>, w: World)
    requires dst !in w.dirs && o.canMakeDir && |fileList| > 0
    ensures TransferFilesSpec(s, o, src, dst, info, fileList, w) ==
      Loop(s, o, dst, info, fileList, 1, 0, |fileList|, w.(dirs := w.dirs + {dst}))
  {
  }

  /** An existing destination resumes after the highest serial number
    * recorded for the source directory: the files before it in the sorted
    * list are skipped and numbering carries on from it. */
  lemma ExistingDestination(s: Settings, o: Oracle, src: string, dst: string, info: map<string, string>,
                            fileList: seq<string>, w: World, prev: int)
    requires dst in w.dirs && |fileList| > 0
    requires RecordStore.HighestSerialNo(w.store, src, o.regex, EmptySerial(s.variant)) == Some(prev)
    ensures TransferFilesSpec(s, o, src, dst, info, fileList, w) ==
      Loop(s, o, dst, info, SliceFrom(fileList, prev), prev + 1, 0, |fileList|, w)
  {
    assert Resume(s, o, src, dst, w) == (Some(prev), w);
  }

  /** Over glob's sorted listing, the files a resumed run skips are the
    * ones whose names sort before every file it transfers. */
  lemma ResumeSkipsFirstNames(s: Settings, o: Oracle, src: string, dst: string, info: map<string, string>,
                              fileList: seq<string>, w: World, prev: int)
    requires dst in w.dirs && |fileList| > 0
    requires RecordStore.HighestSerialNo(w.store, src, o.regex, EmptySerial(s.variant)) == Some(prev)
    requires GlobOk(fileList, src, s.ext, w.fs)
    ensures TransferFilesSpec(s, o, src, dst, info, fileList, w) ==
      Loop(s, o, dst, info, SliceFrom(fileList, prev), prev + 1, 0, |fileList|, w)
    ensures var cut := |fileList| - |SliceFrom(fileList, prev)|;
      forall f, g :: f in fileList[..cut] && g in fileList[cut..] ==> LexLess(f, g)
  {
    ExistingDestination(s, o, src, dst, info, fileList, w, prev);
    var cut := |fileList| - |SliceFrom(fileList, prev)|;
    forall f, g | f in fileList[..cut] && g in fileList[cut..]
      ensures LexLess(f, g)
    {
      var i := IndexOf(fileList[..cut], f);
      var j := IndexOf(fileList[cut..], g);
      assert fileList[i] == f && fileList[cut + j] == g;
    }
  }

  /** Running again over a directory whose files are all recorded transfers
    * nothing and reports "Success. 0 out of M files transferred". */
  lemma RecordedDirectoryIsSkipped(s: Settings, o: Oracle, src: string, dst: string, info: map<string, string>,
                                   fileList: seq<string>, w: World, prev: int)
    requires dst in w.dirs && 0 < |fileList| <= prev
    requires RecordStore.HighestSerialNo(w.store, src, o.regex, EmptySerial(s.variant)) == Some(prev)
    ensures TransferFilesSpec(s, o, src, dst, info, fileList, w) == (Done(true, SuccessComment(0, |fileList|)), w)
  {
    ExistingDestination(s, o, src, dst, info, fileList, w, prev);
    assert SliceFrom(fileList, prev) == [];
  }

  /** The package version over an existing destination with no record of
    * the source directory: every file is transferred, numbered from 1. */
  lemma CurrentEmptyDirectoryStartsAtOne(s: Settings, o: Oracle, src: string, dst: string, info: map<string, string>,
                                         fileList: seq<string>, w: World)
    requires s.variant == Current && dst in w.dirs && |fileList| > 0
    requires RecordStore.Matching(w.store, src, o.regex) == {}
    ensures TransferFilesSpec(s, o, src, dst, info, fileList, w) == Loop(s, o, dst, info, fileList, 1, 0, |fileList|, w)
  {
    RecordStore.HighestSerialNoMeaning(w.store, src, o.regex, EmptySerial(s.variant));
    ExistingDestination(s, o, src, dst, info, fileList, w, 0);
    assert SliceFrom(fileList, 0) == fileList;
  }

  /** The older version over an existing destination with no record of the
    * source directory: getHighestSerialNo answers 1, so the first file of
    * the sorted list is skipped and numbering starts at 2. */
  lemma LegacyEmptyDirectorySkipsFirst(s: Settings, o: Oracle, src: string, dst: string, info: map<string, string>,
                                       fileList: seq<string>, w: World)
    requires s.variant == Legacy && dst in w.dirs && |fileList| > 0
    requires RecordStore.Matching(w.store, src, o.regex) == {}
    ensures TransferFilesSpec(s, o, src, dst, info, fileList, w) == Loop(s, o, dst, info, fileList[1..], 2, 0, |fileList|, w)
  {
    RecordStore.HighestSerialNoMeaning(w.store, src, o.regex, EmptySerial(s.variant));
    ExistingDestination(s, o, src, dst, info, fileList, w, 1);
  }

  /** The run crashes before any file when the destination cannot be
    * created, or when a record of the source directory has a serial number
    * int() rejects. */
  lemma ResumeCrashes(s: Settings, o: Oracle, src: string, dst: string, info: map<string, string>,
                      fileList: seq<string>, w: World)
    requires (dst !in w.dirs && !o.canMakeDir) ||
             (dst in w.dirs && exists k :: k in RecordStore.Matching(w.store, src, o.regex) && RecordStore.RecordSerial(w.store[k]).None?)
    ensures TransferFilesSpec(s, o, src, dst, info, fileList, w) == (Crash, w)
  {
    RecordStore.HighestSerialNoMeaning(w.store, src, o.regex, EmptySerial(s.variant));
  }
}
