// The shape of one metadata record in the archive's document store.
//
// The scripts build records as nested dictionaries keyed by names taken from
// a label dictionary; here the fixed part of that shape is a set of tagged
// structs, and the open-ended parts (the arrangement fields, the entities
// added later by the technical and compliance workflows) stay maps.

module Records {
  import opened Common

  /** A value stored under an arrangement key: the record builders write
    * strings, updateSerialNumber writes an integer. */
  datatype Value = Text(s: string) | Number(n: int)

  /** The keys of the entities the metadata workflows add. The scripts read
    * each key's name from a label dictionary; the model names each label
    * once, so distinct labels are distinct keys. */
  datatype Label =
    // the technical profile (Technical wraps it in the extraction event)
    | Technical | Image | Width | Length | BitsPerSample | Compression | PhotometricInterpretation
    | SamplesPerPixel | XResolution | YResolution | ResolutionUnit | ColorSpace
    | ExtraSamples | BackgroundColor | BorderColor | MatteColor | TransparentColor
    | ScanDateTime | Scanner | Make | Model | Software | RowsPerStrip | Endian | Orientation
    // the compliance profile
    | RecordType | RetentionSchedule | Authority | AuthorityName | AuthorityUrl
    | AuthorityAffiliation | InitiatingEvent | Duration | Url | EffectiveDate
    | Disposition | DispositionMethod | Access | Demographic

  /** A JSON-like document, for the entities the metadata workflows add
    * (an empty dictionary `{}` is `Obj(map[])`). */
  datatype Doc = Str(s: string) | Obj(fields: map<Label, Doc>) | Arr(items: seq<Doc>)

  /** The empty dictionary `{}` the profile shells hold at every leaf. */
  const EMPTY: Doc := Obj(map[])

  /** The value under `key` in `d`, or `{}` when there is none. */
  function Child(d: Doc, key: Label): Doc
  {
    if d.Obj? && key in d.fields then d.fields[key] else EMPTY
  }

  /** `d` is a dictionary holding `key`. */
  predicate Has(d: Doc, key: Label)
  {
    d.Obj? && key in d.fields
  }

  /** `d` is a dictionary whose values are all `{}`. */
  predicate AllLeaves(d: Doc)
  {
    d.Obj? && forall k :: k in d.fields ==> d.fields[k] == EMPTY
  }

  /** The value at `path` below `d`, if every step of the path exists. */
  function At(d: Doc, path: seq<Label>): Option<Doc>
    decreases |path|
  {
    if path == [] then Some(d)
    else if d.Obj? && path[0] in d.fields then At(d.fields[path[0]], path[1..])
    else None
  }

  /** The controlled-vocabulary event types (vocab.evtTyp). */
  datatype EventType =
    | IdAssignment
    | MessageDigestCalculation
    | Replication
    | Migration
    | FilenameChange
    | FixityCheck
    | Accession
    | MetadataExtraction
    | MetadataModification

  /** The controlled-vocabulary event outcomes (vocab.evtOutcm). */
  datatype EventOutcome = Success | Failure

  /** One eventDetailInformation entry; which keys it holds depends on the
    * event type. */
  datatype Detail =
    | IdAssignmentDetail(algorithm: string, progLang: string, methodName: string, idAssigned: string)
    | DigestDetail(algorithm: string, progLang: string, methodName: string, digest: string)
    | CopyDetail(source: string, destination: string)
    | FixityDetail(calculatedDigest: string)
    | ExtractionDetail(methodName: string, metadata: Doc)
    | ModificationDetail(before: Doc, after: Doc)

  /** A PREMIS event: identifier (type and value), type, date-time, the
    * optional detail list (absent, not empty, when an event has none),
    * outcome and linking agent (type and value). */
  datatype Event = Event(
    idType: string,
    idValue: string,
    eventType: EventType,
    dateTime: string,
    details: Option<seq<Detail>>,
    outcome: EventOutcome,
    agentIdType: string,
    agentIdValue: string)

  /** The PREMIS object entity of a record. */
  datatype ObjectEntity = ObjectEntity(
    idType: string,
    idValue: string,
    category: string,
    digestAlgorithm: string,
    digest: string,
    size: nat,
    formatName: string,
    originalName: string)

  /** A metadata record: its `_id`, the admin entity (whose only key is the
    * arrangement entity, held here directly), the PREMIS object and event
    * list, and any further top-level entities ("technical", "compliance"). */
  datatype Record = Record(
    id: string,
    arrangement: map<string, Value>,
    obj: ObjectEntity,
    events: seq<Event>,
    entities: map<string, Doc>)

  /** The types of a record's events, in order. */
  function EventTypes(events: seq<Event>): (ts: seq<EventType>)
    ensures |ts| == |events|
    ensures forall i :: 0 <= i < |events| ==> ts[i] == events[i].eventType
  {
    if events == [] then [] else [events[0].eventType] + EventTypes(events[1..])
  }

  lemma EventTypesAppend(a: seq<Event>, b: seq<Event>)
    ensures EventTypes(a + b) == EventTypes(a) + EventTypes(b)
  {
  }
}
