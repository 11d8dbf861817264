// PREMIS record and event builders (PREMIS Data Dictionary version 3.0):
// the skeletal record made for each file before it is transferred, and one
// builder per event type. The event identifier and date-time come from the
// uuid4 and clock oracles, so the builders take them as parameters.

module Premis {
  import opened Common
  import opened Records
  import AdminMeta

  const OBJ_ID_TYPE := "UUID"
  const EVT_ID_TYP := "UUID"
  const LNK_AGNT_ID_TYPE := "program"
  const CHECKSUM_ALGO := "MD5"
  const CHECKSUM_METHOD := "hashlib.md5()"
  const UNIQUE_ID_ALGO := "UUID v4"
  const UNIQUE_ID_METHOD := "uuid.uuid4()"

  /** The running program: the first word of the interpreter's version
    * string and the script path (sys.argv[0]). */
  datatype Agent = Agent(pythonVersion: string, programPath: string)

  /** PYTHON_VER_STR. */
  function ProgLang(a: Agent): (r: string)
    ensures StartsWith(r, "Python ") && r[7..] == a.pythonVersion
  {
    "Python " + a.pythonVersion
  }

  /** LNK_AGNT_ID_VAL: the language string, "; ", then the script path. */
  function AgentIdValue(a: Agent): (r: string)
    ensures StartsWith(r, ProgLang(a) + "; ") && r[|ProgLang(a)| + 2..] == a.programPath
  {
    ProgLang(a) + "; " + a.programPath
  }

  /** What every builder puts in an event whatever its type: a fresh
    * identifier of type "UUID" (semantic unit 2.1), the date-time (2.3),
    * outcome success (2.5) and the program as linking agent (2.6). */
  predicate Stamped(e: Event, evtId: string, when: string, agent: Agent)
  {
    e.idType == EVT_ID_TYP && e.idValue == evtId && e.dateTime == when &&
    e.outcome == Success &&
    e.agentIdType == LNK_AGNT_ID_TYPE && e.agentIdValue == AgentIdValue(agent)
  }

  /** createIDAssignmentEvent: records the object id it was given, with the
    * uuid4 algorithm and method. */
  function IdAssignmentEvent(evtId: string, when: string, agent: Agent, uniqueId: string): (e: Event)
    ensures Stamped(e, evtId, when, agent) && e.eventType == IdAssignment
    ensures e.details.Some? && |e.details.value| == 1
    ensures e.details.value[0].IdAssignmentDetail? && e.details.value[0].idAssigned == uniqueId
    ensures e.details.value[0].algorithm == UNIQUE_ID_ALGO && e.details.value[0].methodName == UNIQUE_ID_METHOD
  {
    Event(EVT_ID_TYP, evtId, IdAssignment, when,
      Some([IdAssignmentDetail(UNIQUE_ID_ALGO, ProgLang(agent), UNIQUE_ID_METHOD, uniqueId)]),
      Success, LNK_AGNT_ID_TYPE, AgentIdValue(agent))
  }

  /** createMsgDigestCalcEvent: records the checksum; the algorithm recorded
    * is always MD5, whatever `chksmAlgo` says. */
  function MsgDigestCalcEvent(evtId: string, when: string, agent: Agent, chksm: string, chksmAlgo: string): (e: Event)
    ensures Stamped(e, evtId, when, agent) && e.eventType == MessageDigestCalculation
    ensures e.details.Some? && |e.details.value| == 1 && e.details.value[0].DigestDetail?
    ensures e.details.value[0].digest == chksm && e.details.value[0].algorithm == CHECKSUM_ALGO
    ensures e.details.value[0].methodName == CHECKSUM_METHOD
  {
    Event(EVT_ID_TYP, evtId, MessageDigestCalculation, when,
      Some([DigestDetail(CHECKSUM_ALGO, ProgLang(agent), CHECKSUM_METHOD, chksm)]),
      Success, LNK_AGNT_ID_TYPE, AgentIdValue(agent))
  }

  /** createFileCopyEvent: the event type is replication whatever `evtTyp`
    * asks for; the detail holds the source and destination paths. */
  function FileCopyEvent(evtId: string, when: string, agent: Agent, evtTyp: string, src: string, dst: string): (e: Event)
    ensures Stamped(e, evtId, when, agent) && e.eventType == Replication
    ensures e.details == Some([CopyDetail(src, dst)])
  {
    Event(EVT_ID_TYP, evtId, Replication, when, Some([CopyDetail(src, dst)]),
      Success, LNK_AGNT_ID_TYPE, AgentIdValue(agent))
  }

  /** createFilenameChangeEvent: records the preliminary path as source and
    * the unique path as destination. */
  function FilenameChangeEvent(evtId: string, when: string, agent: Agent, prelim: string, unique: string): (e: Event)
    ensures Stamped(e, evtId, when, agent) && e.eventType == FilenameChange
    ensures e.details == Some([CopyDetail(prelim, unique)])
  {
    Event(EVT_ID_TYP, evtId, FilenameChange, when, Some([CopyDetail(prelim, unique)]),
      Success, LNK_AGNT_ID_TYPE, AgentIdValue(agent))
  }

  /** createFixityCheckEvent: no detail list; `status` and `calcChecksum`
    * are ignored and the outcome is always success. */
  function FixityCheckEvent(evtId: string, when: string, agent: Agent, status: bool, calcChecksum: string): (e: Event)
    ensures Stamped(e, evtId, when, agent) && e.eventType == FixityCheck
    ensures e.details.None?
  {
    Event(EVT_ID_TYP, evtId, FixityCheck, when, None, Success, LNK_AGNT_ID_TYPE, AgentIdValue(agent))
  }

  /** The older script's addFixityCheckEvent: the same event with a detail
    * recording the digest computed at the destination. */
  function LegacyFixityCheckEvent(evtId: string, when: string, agent: Agent, status: bool, calcChecksum: string): (e: Event)
    ensures Stamped(e, evtId, when, agent) && e.eventType == FixityCheck
    ensures e.details == Some([FixityDetail(calcChecksum)])
  {
    Event(EVT_ID_TYP, evtId, FixityCheck, when, Some([FixityDetail(calcChecksum)]),
      Success, LNK_AGNT_ID_TYPE, AgentIdValue(agent))
  }

  /** createAccessionEvent: no detail list, outcome success. */
  function AccessionEvent(evtId: string, when: string, agent: Agent): (e: Event)
    ensures Stamped(e, evtId, when, agent) && e.eventType == Accession
    ensures e.details.None?
  {
    Event(EVT_ID_TYP, evtId, Accession, when, None, Success, LNK_AGNT_ID_TYPE, AgentIdValue(agent))
  }

  /** createMetadataExtractionEvent: records the extraction method and the
    * extracted metadata. */
  function MetadataExtractionEvent(evtId: string, when: string, agent: Agent, extractionMethod: string, metadata: Doc): (e: Event)
    ensures Stamped(e, evtId, when, agent) && e.eventType == MetadataExtraction
    ensures e.details == Some([ExtractionDetail(extractionMethod, metadata)])
  {
    Event(EVT_ID_TYP, evtId, MetadataExtraction, when, Some([ExtractionDetail(extractionMethod, metadata)]),
      Success, LNK_AGNT_ID_TYPE, AgentIdValue(agent))
  }

  /** createMetadataModificationEvent: records the metadata before and after
    * the change. */
  function MetadataModificationEvent(evtId: string, when: string, agent: Agent, before: Doc, after: Doc): (e: Event)
    ensures Stamped(e, evtId, when, agent) && e.eventType == MetadataModification
    ensures e.details == Some([ModificationDetail(before, after)])
  {
    Event(EVT_ID_TYP, evtId, MetadataModification, when, Some([ModificationDetail(before, after)]),
      Success, LNK_AGNT_ID_TYPE, AgentIdValue(agent))
  }

  /** The arguments the builders ignore change nothing in the event. */
  lemma IgnoredArguments(evtId: string, when: string, agent: Agent, a: string, b: string, src: string, dst: string, s1: bool, s2: bool)
    ensures FileCopyEvent(evtId, when, agent, a, src, dst) == FileCopyEvent(evtId, when, agent, b, src, dst)
    ensures MsgDigestCalcEvent(evtId, when, agent, src, a) == MsgDigestCalcEvent(evtId, when, agent, src, b)
    ensures FixityCheckEvent(evtId, when, agent, s1, a) == FixityCheckEvent(evtId, when, agent, s2, b)
  {
  }

  // ---------------------------------------------------------------------
  // The skeletal record

  /** The PREMIS object of a freshly initialised record: identified by the
    * record's own `_id`, fixity placeholders empty, size, format name and
    * original name from the parameters (semantic units 1.1, 1.2, 1.5.2-1.5.4
    * and 1.6). */
  predicate FreshObject(o: ObjectEntity, id: string, category: string, fileSize: nat, fmtName: string, fileName: string)
  {
    o.idType == OBJ_ID_TYPE && o.idValue == id && o.category == category &&
    o.digestAlgorithm == AdminMeta.MD_INIT_STRING && o.digest == AdminMeta.MD_INIT_STRING &&
    o.size == fileSize && o.formatName == fmtName && o.originalName == fileName
  }

  /** The skeletal record for a file, given its `_id` and the arrangement
    * fields left after the empty ones were dropped. */
  function Skeleton(id: string, kept: map<string, string>, fileSize: nat, fmtName: string, fileName: string, category: string): (r: Record)
    ensures r.id == id && FreshObject(r.obj, id, category, fileSize, fmtName, fileName)
    ensures r.arrangement == AdminMeta.ArrangementEntity(kept)
    ensures r.events == [] && r.entities == map[]
  {
    Record(id, AdminMeta.ArrangementEntity(kept),
      ObjectEntity(OBJ_ID_TYPE, id, category, AdminMeta.MD_INIT_STRING, AdminMeta.MD_INIT_STRING, fileSize, fmtName, fileName),
      [], map[])
  }

  /** initMetadataRecord: the skeleton with the given `_id`, the admin
    * entity built from the arrangement fields (whose ""-valued keys are
    * popped from the caller's dictionary, returned as `remaining`) and an
    * empty event list. */
  method InitMetadataRecord(id: string, info: map<string, string>, fileSize: nat, fmtName: string, fileName: string, category: string)
    returns (remaining: map<string, string>, r: Record)
    ensures remaining == AdminMeta.NonEmptyFields(info)
    ensures r.id == id && FreshObject(r.obj, id, category, fileSize, fmtName, fileName)
    ensures r.arrangement == AdminMeta.ArrangementEntity(remaining)
    ensures r.events == [] && r.entities == map[]
    ensures r == Skeleton(id, remaining, fileSize, fmtName, fileName, category)
  {
    var arrangement;
    remaining, arrangement := AdminMeta.InitAdminMetadataEntity(info);
    var o := ObjectEntity(OBJ_ID_TYPE, id, category, AdminMeta.MD_INIT_STRING, AdminMeta.MD_INIT_STRING,
      fileSize, fmtName, fileName);
    r := Record(id, arrangement, o, [], map[]);
  }

  /** The older script's initMetadataRecord: the same skeleton whose event
    * list starts with the identifier-assignment event for the new `_id`. */
  method InitMetadataRecordWithIdEvent(id: string, evtId: string, when: string, agent: Agent,
                                       info: map<string, string>, fileSize: nat, fmtName: string, fileName: string, category: string)
    returns (remaining: map<string, string>, r: Record)
    ensures remaining == AdminMeta.NonEmptyFields(info)
    ensures r.id == id && FreshObject(r.obj, id, category, fileSize, fmtName, fileName)
    ensures r.arrangement == AdminMeta.ArrangementEntity(remaining)
    ensures r.events == [IdAssignmentEvent(evtId, when, agent, id)] && r.entities == map[]
    ensures r == WithEvent(Skeleton(id, remaining, fileSize, fmtName, fileName, category), IdAssignmentEvent(evtId, when, agent, id))
  {
    remaining, r := InitMetadataRecord(id, info, fileSize, fmtName, fileName, category);
    r := r.(events := r.events + [IdAssignmentEvent(evtId, when, agent, id)]);
  }

  // ---------------------------------------------------------------------
  // Appending events to a record

  /** Appending an event to the record's event list, nothing else changed. */
  function WithEvent(r: Record, e: Event): (u: Record)
    ensures u.events == r.events + [e] && |u.events| == |r.events| + 1
    ensures u.id == r.id && u.arrangement == r.arrangement && u.obj == r.obj && u.entities == r.entities
  {
    r.(events := r.events + [e])
  }

  /** addMsgDigestCalcEvent (and the same two steps inline in the package
    * version): append the digest event, then overwrite the object's fixity
    * with the MD5 algorithm and the given checksum. */
  function AddMsgDigestCalcEvent(r: Record, evtId: string, when: string, agent: Agent, chksm: string, chksmAlgo: string): (u: Record)
    ensures u.events == r.events + [MsgDigestCalcEvent(evtId, when, agent, chksm, chksmAlgo)]
    ensures u.obj.digestAlgorithm == CHECKSUM_ALGO && u.obj.digest == chksm
    ensures u.obj == r.obj.(digestAlgorithm := CHECKSUM_ALGO, digest := chksm)
    ensures u.id == r.id && u.arrangement == r.arrangement && u.entities == r.entities
  {
    var withEvent := WithEvent(r, MsgDigestCalcEvent(evtId, when, agent, chksm, chksmAlgo));
    withEvent.(obj := withEvent.obj.(digestAlgorithm := CHECKSUM_ALGO, digest := chksm))
  }

  /** Every event the builders produce carries the common envelope, so a
    * record whose events were all built here has only successful events
    * with "UUID" identifiers and the program as agent. */
  predicate AllStamped(events: seq<Event>, agent: Agent)
  {
    forall i :: 0 <= i < |events| ==>
      events[i].idType == EVT_ID_TYP && events[i].outcome == Success &&
      events[i].agentIdType == LNK_AGNT_ID_TYPE && events[i].agentIdValue == AgentIdValue(agent)
  }

  lemma AllStampedAppend(events: seq<Event>, e: Event, evtId: string, when: string, agent: Agent)
    requires AllStamped(events, agent) && Stamped(e, evtId, when, agent)
    ensures AllStamped(events + [e], agent)
  {
  }
}
