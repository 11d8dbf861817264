// The technical-metadata workflow (technical.py). It checks that ImageMagick
// is installed and reads its version. It reads the command line and the CSV
// of (series, sub-series) rows. For every row it visits the records of that
// arrangement, in the order the database returns them. For each record
// whose fourth event is the filename change of a file with the requested
// extension, it runs `identify -verbose` on the file, stores the technical
// entity built from the output on the record named by the file's stem, and
// appends a metadata-extraction event to that record.

module Technical {
  import opened Common
  import opened Records
  import RecordStore
  import Columns
  import Premis
  import TechnicalProfile
  import TechnicalParse
  import TechnicalFields

  /** The columns a row needs to be processed (minNumCols). */
  const MIN_NUM_COLS := 2

  const ERROR_INVALID_ARGUMENT_STRING := "e01"
  const ERROR_CANNOT_OPEN_CSV_FILE := "e02"
  const ERROR_INVALID_HEADER_ROW := "e05"
  const ERROR_CANNOT_FIND_DOCUMENT := "e17"
  const ERROR_INSTALL_IMAGEMAGICK := "e19"
  const ERROR_EXT_ARGUMENT := "e21"
  const ERROR_FILE_ARGUMENT := "e22"
  /** `exit()` without a code. */
  const NO_CODE := ""

  const MSG_INVALID_HEADER_ROW := "The header in the input CSV file is invalid."
  const MSG_CANNOT_FIND_DOCUMENT := "Document not found in the database. '{}'."
  const MSG_INSTALL_IMAGEMAGICK := "Image Magick is not installed."
  const MSG_EXT_ARGUMENT := "Required argument '-e' not passed in the command line."
  const MSG_FILE_ARGUMENT := "Required argument '-f' not passed in the command line."
  const MSG_TECH_UPDATED := "The technical property profile for the file '{}' has been already updated."

  /** What the run takes from outside: the output of `identify -verbose`
    * for each path, the local `%z` offset, the uuid4 and the EDTF time of
    * the n-th event it creates, the order in which the database returns the
    * documents of a query, and the program agent. */
  datatype Env = Env(identify: string -> string, tz: string, uuid: nat -> string, now: nat -> string,
                     order: set<string> -> seq<string>, agent: Premis.Agent)

  // ---------------------------------------------------------------------
  // One document

  /** How the visit of a document ends: on to the next one, or the end of
    * the run. */
  datatype Stop = AlreadyUpdated | ExtensionMismatch | Raised
  datatype DocResult = Next(store: RecordStore.Store, n: nat) | Stopped(why: Stop, store: RecordStore.Store)

  /** The destination of a filename-change event; None when the detail
    * list lacks it (KeyError or IndexError). */
  function Destination(e: Event): Option<string>
  {
    if e.details.Some? && |e.details.value| > 0 && e.details.value[0].CopyDetail? then
      Some(e.details.value[0].destination)
    else None
  }

  /** The fields and the technical entity of the image that `identify`
    * describes with `output`; None when building them raises. */
  function TechnicalOf(output: string, tz: string, build: Build): Option<(TechnicalFields.Fields, Doc)>
  {
    match TechnicalParse.Properties(output, build)
    case None => None
    case Some(prop) =>
      match TechnicalFields.Extract(prop, tz, build)
      case None => None
      case Some(f) => Some((f, TechnicalFields.TechDoc(f, TechnicalFields.PropFlags(prop))))
  }

  /** The metadata-extraction event of the n-th extraction. */
  function ExtractionEvent(env: Env, ver: string, n: nat, tech: Doc): Event
  {
    Premis.MetadataExtractionEvent(env.uuid(n), env.now(n), env.agent, ver, Obj(map[Technical := tech]))
  }

  /** The visit of one fetched document, `n` extractions into the run. A
    * document with a technical entity ends the run, so does a file whose
    * extension is not the requested one; a document whose fourth event is
    * not a filename change is passed over. Otherwise the technical entity
    * is `$set` on the record named by the file's stem, and the document,
    * with the extraction event appended, is written back to it. */
  function DocStep(ext: string, env: Env, build: Build, ver: string, doc: Record,
                   store: RecordStore.Store, n: nat): DocResult
  {
    if TechnicalProfile.TECH_ENTITY in doc.entities then Stopped(AlreadyUpdated, store)
    else if |doc.events| < 4 then Stopped(Raised, store)
    else if doc.events[3].eventType != FilenameChange then Next(store, n)
    else
      match Destination(doc.events[3])
      case None => Stopped(Raised, store)
      case Some(dest) =>
        if AfterLast(dest, '.') != ext then Stopped(ExtensionMismatch, store)
        else
          match TechnicalOf(env.identify(dest), env.tz, build)
          case None => Stopped(Raised, store)
          case Some((f, tech)) =>
            var store1 := RecordStore.UpdateRecord(store, f.stem, map[TechnicalProfile.TECH_ENTITY := tech]).1;
            var doc' := doc.(events := doc.events + [ExtractionEvent(env, ver, n, tech)]);
            Next(RecordStore.WriteBack(store1, f.stem, doc'), n + 1)
  }

  /** A document that already has a technical entity ends the run with the
    * store unchanged. */
  lemma DocStepStopsOnTechnical(ext: string, env: Env, build: Build, ver: string, doc: Record,
                                store: RecordStore.Store, n: nat)
    requires TechnicalProfile.TECH_ENTITY in doc.entities
    ensures DocStep(ext, env, build, ver, doc, store, n) == Stopped(AlreadyUpdated, store)
  {
  }

  /** A document whose fourth event is not a filename change is passed
    * over: nothing changes and no event is created. */
  lemma DocStepSkips(ext: string, env: Env, build: Build, ver: string, doc: Record,
                     store: RecordStore.Store, n: nat)
    requires TechnicalProfile.TECH_ENTITY !in doc.entities
    requires |doc.events| >= 4 && doc.events[3].eventType != FilenameChange
    ensures DocStep(ext, env, build, ver, doc, store, n) == Next(store, n)
  {
  }

  /** The technical entity records the flags of the image's properties. */
  lemma TechnicalOfFlags(output: string, tz: string, build: Build)
    requires TechnicalOf(output, tz, build).Some?
    ensures TechnicalParse.Properties(output, build).Some?
    ensures TechnicalProfile.FlagsOf(TechnicalOf(output, tz, build).value.1)
         == TechnicalFields.PropFlags(TechnicalParse.Properties(output, build).value)
  {
    var prop := TechnicalParse.Properties(output, build).value;
    var f := TechnicalFields.Extract(prop, tz, build).value;
    TechnicalFields.ExtractFlagged(prop, tz, build);
    TechnicalFields.TechDocFlags(f, TechnicalFields.PropFlags(prop));
  }

  /** The two updates on a document's own record: the technical entity is
    * set, the document's fields written back with the new event last, and
    * no other record changes. */
  lemma StoreExtraction(store: RecordStore.Store, doc: Record, tech: Doc, evt: Event)
    requires doc.id in store && TechnicalProfile.TECH_ENTITY !in doc.entities
    ensures var store' := RecordStore.WriteBack(RecordStore.UpdateRecord(store, doc.id, map[TechnicalProfile.TECH_ENTITY := tech]).1,
                                    doc.id, doc.(events := doc.events + [evt]));
      store'.Keys == store.Keys && (forall k :: k in store && k != doc.id ==> store'[k] == store[k])
      && store'[doc.id].entities == store[doc.id].entities + doc.entities + map[TechnicalProfile.TECH_ENTITY := tech]
      && store'[doc.id].events == doc.events + [evt]
      && store'[doc.id].arrangement == doc.arrangement && store'[doc.id].obj == doc.obj
  {
  }

  /** When the file's stem is the document's own `_id`, the visit stores the
    * technical entity on the document's record and appends one extraction
    * event, which carries that entity; nothing else in the store changes,
    * and the entity's flags are those of the image's properties. */
  lemma DocStepStores(ext: string, env: Env, build: Build, ver: string, doc: Record,
                      store: RecordStore.Store, n: nat)
    requires doc.id in store && TechnicalProfile.TECH_ENTITY !in doc.entities
    requires |doc.events| >= 4 && doc.events[3].eventType == FilenameChange
    requires Destination(doc.events[3]).Some?
    requires var dest := Destination(doc.events[3]).value;
      AfterLast(dest, '.') == ext && TechnicalOf(env.identify(dest), env.tz, build).Some?
      && TechnicalOf(env.identify(dest), env.tz, build).value.0.stem == doc.id
    ensures TechnicalParse.Properties(env.identify(Destination(doc.events[3]).value), build).Some?
    ensures var dest := Destination(doc.events[3]).value;
      var tech := TechnicalOf(env.identify(dest), env.tz, build).value.1;
      var prop := TechnicalParse.Properties(env.identify(dest), build).value;
      var r := DocStep(ext, env, build, ver, doc, store, n);
      r == Next(r.store, n + 1) && r.store.Keys == store.Keys
      && (forall k :: k in store && k != doc.id ==> r.store[k] == store[k])
      && r.store[doc.id].entities == store[doc.id].entities + doc.entities + map[TechnicalProfile.TECH_ENTITY := tech]
      && r.store[doc.id].events == doc.events + [ExtractionEvent(env, ver, n, tech)]
      && r.store[doc.id].arrangement == doc.arrangement && r.store[doc.id].obj == doc.obj
      && TechnicalProfile.FlagsOf(tech) == TechnicalFields.PropFlags(prop)
  {
    var dest := Destination(doc.events[3]).value;
    var t := TechnicalOf(env.identify(dest), env.tz, build).value;
    var evt := ExtractionEvent(env, ver, n, t.1);
    TechnicalOfFlags(env.identify(dest), env.tz, build);
    StoreExtraction(store, doc, t.1, evt);
    assert DocStep(ext, env, build, ver, doc, store, n)
        == Next(RecordStore.WriteBack(RecordStore.UpdateRecord(store, doc.id, map[TechnicalProfile.TECH_ENTITY := t.1]).1,
                          doc.id, doc.(events := doc.events + [evt])), n + 1);
  }

  /** Visiting a document again after it has been given its technical
    * entity ends the run: the workflow never extracts twice. */
  lemma RerunStops(ext: string, env: Env, build: Build, ver: string, doc: Record,
                   store: RecordStore.Store, n: nat, env': Env, ver': string, m: nat)
    requires doc.id in store && TechnicalProfile.TECH_ENTITY !in doc.entities
    requires DocStep(ext, env, build, ver, doc, store, n) == Next(DocStep(ext, env, build, ver, doc, store, n).store, n + 1)
    requires TechnicalOf(env.identify(Destination(doc.events[3]).value), env.tz, build).value.0.stem == doc.id
    ensures var store' := DocStep(ext, env, build, ver, doc, store, n).store;
      doc.id in store' && DocStep(ext, env', build, ver', store'[doc.id], store', m) == Stopped(AlreadyUpdated, store')
  {
    DocStepStores(ext, env, build, ver, doc, store, n);
  }

  /** The visit never adds or removes a record. */
  lemma DocStepKeys(ext: string, env: Env, build: Build, ver: string, doc: Record,
                    store: RecordStore.Store, n: nat)
    ensures DocStep(ext, env, build, ver, doc, store, n).store.Keys == store.Keys
    ensures var r := DocStep(ext, env, build, ver, doc, store, n); r.Next? ==> r.n == n || r.n == n + 1
  {
  }

  // ---------------------------------------------------------------------
  // The documents of one row

  /** The loop over the fetched documents from `docs` on. */
  function DocsSpec(ext: string, env: Env, build: Build, ver: string, docs: seq<Record>,
                    store: RecordStore.Store, n: nat): DocResult
    decreases |docs|
  {
    if docs == [] then Next(store, n)
    else
      match DocStep(ext, env, build, ver, docs[0], store, n)
      case Stopped(why, store') => Stopped(why, store')
      case Next(store', n') => DocsSpec(ext, env, build, ver, docs[1..], store', n')
  }

  /** No visit adds or removes a record, and the count of extractions only
    * grows. */
  lemma {:induction false} DocsKeys(ext: string, env: Env, build: Build, ver: string, docs: seq<Record>,
                                    store: RecordStore.Store, n: nat)
    ensures DocsSpec(ext, env, build, ver, docs, store, n).store.Keys == store.Keys
    ensures var r := DocsSpec(ext, env, build, ver, docs, store, n); r.Next? ==> n <= r.n <= n + |docs|
    decreases |docs|
  {
    if docs != [] {
      DocStepKeys(ext, env, build, ver, docs[0], store, n);
      var r := DocStep(ext, env, build, ver, docs[0], store, n);
      if r.Next? {
        DocsKeys(ext, env, build, ver, docs[1..], r.store, r.n);
      }
    }
  }

  /** The loop from document i on is the i-th visit followed by the loop
    * from document i + 1 on. */
  lemma DocsUnroll(ext: string, env: Env, build: Build, ver: string, docs: seq<Record>, i: nat,
                   store: RecordStore.Store, n: nat)
    requires i < |docs|
    ensures DocsSpec(ext, env, build, ver, docs[i..], store, n)
         == match DocStep(ext, env, build, ver, docs[i], store, n)
            case Stopped(why, store') => Stopped(why, store')
            case Next(store', n') => DocsSpec(ext, env, build, ver, docs[i + 1..], store', n')
  {
    assert docs[i..][1..] == docs[i + 1..];
  }

  /** The `for document in records` loop. */
  method VisitDocs(ext: string, env: Env, build: Build, ver: string, docs: seq<Record>,
                   store: RecordStore.Store, n: nat)
    returns (r: DocResult)
    ensures r == DocsSpec(ext, env, build, ver, docs, store, n)
  {
    var store' := store;
    var n' := n;
    for i := 0 to |docs|
      invariant DocsSpec(ext, env, build, ver, docs[i..], store', n') == DocsSpec(ext, env, build, ver, docs, store, n)
    {
      DocsUnroll(ext, env, build, ver, docs, i, store', n');
      var step := VisitDoc(ext, env, build, ver, docs[i], store', n');
      if step.Stopped? {
        return step;
      }
      store', n' := step.store, step.n;
    }
    assert docs[|docs|..] == [];
    r := Next(store', n');
  }

  /** One visit, as the loop body runs it. */
  method VisitDoc(ext: string, env: Env, build: Build, ver: string, doc: Record,
                  store: RecordStore.Store, n: nat)
    returns (r: DocResult)
    ensures r == DocStep(ext, env, build, ver, doc, store, n)
  {
    if TechnicalProfile.TECH_ENTITY in doc.entities {
      return Stopped(AlreadyUpdated, store);
    }
    if |doc.events| < 4 {
      return Stopped(Raised, store);
    }
    if doc.events[3].eventType != FilenameChange {
      return Next(store, n);
    }
    var dest := Destination(doc.events[3]);
    if dest.None? {
      return Stopped(Raised, store);
    }
    var fullPath := dest.value;
    if AfterLast(fullPath, '.') != ext {
      return Stopped(ExtensionMismatch, store);
    }
    var prop := TechnicalParse.ReadProperties(env.identify(fullPath), build);
    if prop.None? {
      return Stopped(Raised, store);
    }
    var fields := TechnicalFields.Extract(prop.value, env.tz, build);
    if fields.None? {
      return Stopped(Raised, store);
    }
    var f := fields.value;
    var metadataRecord := TechnicalFields.TechDoc(f, TechnicalFields.PropFlags(prop.value));
    var store1 := RecordStore.UpdateRecord(store, f.stem, map[TechnicalProfile.TECH_ENTITY := metadataRecord]).1;
    var document := doc.(events := doc.events + [ExtractionEvent(env, ver, n, metadataRecord)]);
    r := Next(RecordStore.WriteBack(store1, f.stem, document), n + 1);
  }

  // ---------------------------------------------------------------------
  // The run's state and its rows

  /** The state of the run: the store, the count of extractions so far,
    * technicalErrorList, and the contents of every error report written
    * (errorCSV writes the list whenever it is not empty). */
  datatype State = State(store: RecordStore.Store, n: nat, errors: seq<seq<string>>, reports: seq<seq<seq<string>>>)

  /** How the run ends, or that it carries on. */
  datatype Ending = Running | Exited(code: string) | Crashed

  /** errorCSV. */
  function ErrorCSV(s: State): State
  {
    if |s.errors| > 0 then s.(reports := s.reports + [s.errors]) else s
  }

  /** An error message added to the list, the report written, and exit. */
  function Fail(s: State, msg: string, code: string): (Ending, State)
  {
    (Exited(code), ErrorCSV(s.(errors := s.errors + [[msg]])))
  }

  /** One row: its series and sub-series select the documents, which are
    * visited in the order the database returns them. No document ends the
    * run with ERROR_CANNOT_FIND_DOCUMENT; a document with a technical
    * entity or a file of another extension ends it with a bare `exit()`
    * after reporting ERROR_TECH_UPDATED. */
  function RowStep(ext: string, env: Env, build: Build, ver: string, tags: seq<string>,
                   row: seq<string>, s: State): (Ending, State)
  {
    match Columns.InfoOf(row, tags)
    case None => (Crashed, s)
    case Some(info) =>
      if RecordStore.SERIES_LABEL !in info || RecordStore.SUB_SERIES_LABEL !in info then (Crashed, s)
      else
        var found := RecordStore.SelectBySeries(s.store, info[RecordStore.SERIES_LABEL], info[RecordStore.SUB_SERIES_LABEL]);
        var docs := RecordStore.Fetch(s.store, env.order(found));
        if |docs| == 0 then Fail(s, MSG_CANNOT_FIND_DOCUMENT, ERROR_CANNOT_FIND_DOCUMENT)
        else
          match DocsSpec(ext, env, build, ver, docs, s.store, s.n)
          case Next(store', n') => (Running, s.(store := store', n := n'))
          case Stopped(why, store') =>
            if why == Raised then (Crashed, s.(store := store'))
            else Fail(s.(store := store'), MSG_TECH_UPDATED, NO_CODE)
  }

  /** With an order that lists the query's records, a row ends the run with
    * ERROR_CANNOT_FIND_DOCUMENT exactly when it selects no record, and
    * then changes nothing but the error list and the reports. */
  lemma RowNotFound(ext: string, env: Env, build: Build, ver: string, tags: seq<string>,
                    row: seq<string>, s: State)
    requires Columns.InfoOf(row, tags).Some?
    requires var info := Columns.InfoOf(row, tags).value;
      RecordStore.SERIES_LABEL in info && RecordStore.SUB_SERIES_LABEL in info
    requires var info := Columns.InfoOf(row, tags).value;
      var found := RecordStore.SelectBySeries(s.store, info[RecordStore.SERIES_LABEL], info[RecordStore.SUB_SERIES_LABEL]);
      RecordStore.Listing(env.order(found), found)
    ensures var info := Columns.InfoOf(row, tags).value;
      var found := RecordStore.SelectBySeries(s.store, info[RecordStore.SERIES_LABEL], info[RecordStore.SUB_SERIES_LABEL]);
      var r := RowStep(ext, env, build, ver, tags, row, s);
      (r.0 == Exited(ERROR_CANNOT_FIND_DOCUMENT) <==> found == {})
      && (found == {} ==> r.1 == ErrorCSV(s.(errors := s.errors + [[MSG_CANNOT_FIND_DOCUMENT]])))
  {
    var info := Columns.InfoOf(row, tags).value;
    var found := RecordStore.SelectBySeries(s.store, info[RecordStore.SERIES_LABEL], info[RecordStore.SUB_SERIES_LABEL]);
    RecordStore.SelectionRule(s.store, info[RecordStore.SERIES_LABEL], info[RecordStore.SUB_SERIES_LABEL]);
    if found != {} {
      var id :| id in found;
      RecordStore.FetchNonEmpty(s.store, env.order(found), id);
    }
  }

  /** One turn of the loop over technicalList. */
  method ProcessRow(ext: string, env: Env, build: Build, ver: string, tags: seq<string>,
                    row: seq<string>, s: State)
    returns (e: Ending, s': State)
    ensures (e, s') == RowStep(ext, env, build, ver, tags, row, s)
  {
    var info := Columns.ArrangementInfo(row, tags);
    if info.None? {
      return Crashed, s;
    }
    var arrangementInfo := info.value;
    if RecordStore.SERIES_LABEL !in arrangementInfo || RecordStore.SUB_SERIES_LABEL !in arrangementInfo {
      return Crashed, s;
    }
    var series := arrangementInfo[RecordStore.SERIES_LABEL];
    var subseries := arrangementInfo[RecordStore.SUB_SERIES_LABEL];
    var found := RecordStore.SelectBySeries(s.store, series, subseries);
    var records := RecordStore.Fetch(s.store, env.order(found));
    if |records| == 0 {
      e, s' := Fail(s, MSG_CANNOT_FIND_DOCUMENT, ERROR_CANNOT_FIND_DOCUMENT).0, Fail(s, MSG_CANNOT_FIND_DOCUMENT, ERROR_CANNOT_FIND_DOCUMENT).1;
      return;
    }
    var r := VisitDocs(ext, env, build, ver, records, s.store, s.n);
    if r.Next? {
      return Running, s.(store := r.store, n := r.n);
    }
    if r.why == Raised {
      return Crashed, s.(store := r.store);
    }
    var errs := s.errors + [[MSG_TECH_UPDATED]];
    e, s' := Exited(NO_CODE), ErrorCSV(s.(store := r.store, errors := errs));
  }

  /** The loop over technicalList from `rows` on. */
  function RowsSpec(ext: string, env: Env, build: Build, ver: string, tags: seq<string>,
                    rows: seq<seq<string>>, s: State): (Ending, State)
    decreases |rows|
  {
    if rows == [] then (Running, s)
    else
      var (e, s') := RowStep(ext, env, build, ver, tags, rows[0], s);
      if e != Running then (e, s') else RowsSpec(ext, env, build, ver, tags, rows[1..], s')
  }

  lemma RowsUnroll(ext: string, env: Env, build: Build, ver: string, tags: seq<string>,
                   rows: seq<seq<string>>, i: nat, s: State)
    requires i < |rows|
    ensures RowsSpec(ext, env, build, ver, tags, rows[i..], s)
         == var (e, s') := RowStep(ext, env, build, ver, tags, rows[i], s);
            if e != Running then (e, s') else RowsSpec(ext, env, build, ver, tags, rows[i + 1..], s')
  {
    assert rows[i..][1..] == rows[i + 1..];
  }

  /** The loop over technicalList. */
  method ProcessRows(ext: string, env: Env, build: Build, ver: string, tags: seq<string>,
                     rows: seq<seq<string>>, s: State)
    returns (e: Ending, s': State)
    ensures (e, s') == RowsSpec(ext, env, build, ver, tags, rows, s)
  {
    s' := s;
    for i := 0 to |rows|
      invariant RowsSpec(ext, env, build, ver, tags, rows[i..], s') == RowsSpec(ext, env, build, ver, tags, rows, s)
    {
      RowsUnroll(ext, env, build, ver, tags, rows, i, s');
      var e';
      e', s' := ProcessRow(ext, env, build, ver, tags, rows[i], s');
      if e' != Running {
        return e', s';
      }
    }
    assert rows[|rows|..] == [];
    e := Running;
  }

  // ---------------------------------------------------------------------
  // Reading the CSV rows

  /** The rows after the header, split: the long ones make technicalList.
    * Each short one calls errorCSV; as written it is added to
    * adminerrorList, which this workflow never writes, so the report does
    * not show it; as intended it is added to technicalErrorList with the
    * comment "Not a valid input". */
  function ReadRows(rows: seq<seq<string>>, build: Build, s: State): (seq<seq<string>>, State)
    decreases |rows|
  {
    if rows == [] then ([], s)
    else
      var last := rows[|rows| - 1];
      var (kept, s') := ReadRows(rows[..|rows| - 1], build, s);
      if |last| >= MIN_NUM_COLS then (kept + [last], s')
      else if build == AsWritten then (kept, ErrorCSV(s'))
      else (kept, ErrorCSV(s'.(errors := s'.errors + [last + [Columns.NOT_VALID_INPUT]])))
  }

  /** technicalList is the long rows, in order; reading the rows touches
    * neither the store nor the count of extractions. */
  lemma {:induction false} ReadRowsKept(rows: seq<seq<string>>, build: Build, s: State)
    ensures ReadRows(rows, build, s).0 == Columns.Long(rows, MIN_NUM_COLS)
    ensures ReadRows(rows, build, s).1.store == s.store && ReadRows(rows, build, s).1.n == s.n
    decreases |rows|
  {
    if rows != [] {
      ReadRowsKept(rows[..|rows| - 1], build, s);
    }
  }

  /** The loop over the CSV rows. */
  method ReadCsvRows(rows: seq<seq<string>>, build: Build, s: State)
    returns (technicalList: seq<seq<string>>, s': State)
    ensures (technicalList, s') == ReadRows(rows, build, s)
  {
    technicalList := [];
    s' := s;
    for i := 0 to |rows|
      invariant (technicalList, s') == ReadRows(rows[..i], build, s)
    {
      assert rows[..i + 1][..i] == rows[..i];
      var row := rows[i];
      if |row| < MIN_NUM_COLS {
        if build == Intended {
          s' := s'.(errors := s'.errors + [row + [Columns.NOT_VALID_INPUT]]);
        }
        s' := ErrorCSV(s');
      } else {
        technicalList := technicalList + [row];
      }
    }
    assert rows[..|rows|] == rows;
  }

  // ---------------------------------------------------------------------
  // main

  /** The command line: how many arguments it has, the -e value (`*` when
    * absent) and the -f value. */
  datatype Args = Args(count: nat, extension: string, file: Option<string>)

  /** The CSV file: None when it cannot be opened, otherwise its first row
    * (None for an empty file) and the rows after it. */
  datatype Csv = Csv(firstRow: Option<seq<string>>, rows: seq<seq<string>>)

  /** main, given the verdict of the ImageMagick check on the output of
    * `identify -version`: the rest of the run with the installed version,
    * from an empty error list and no extraction yet. */
  function RunSpec(env: Env, build: Build, version: TechnicalParse.VersionCheck, args: Args, csv: Option<Csv>,
                   store: RecordStore.Store): (Ending, State)
  {
    var s := State(store, 0, [], []);
    match version
    case Raises => (Crashed, s)
    case NotInstalled => Fail(s, MSG_INSTALL_IMAGEMAGICK, ERROR_INSTALL_IMAGEMAGICK)
    case Installed(ver) => ArgsSpec(env, build, ver, args, csv, s)
  }

  /** The command line and the opening of the CSV file. */
  function ArgsSpec(env: Env, build: Build, ver: string, args: Args, csv: Option<Csv>, s: State): (Ending, State)
  {
    if args.count == 0 then (Exited(ERROR_INVALID_ARGUMENT_STRING), s)
    else if args.extension == "*" then Fail(s, MSG_EXT_ARGUMENT, ERROR_EXT_ARGUMENT)
    else if args.file.None? then Fail(s, MSG_FILE_ARGUMENT, ERROR_FILE_ARGUMENT)
    else if csv.None? then (Exited(ERROR_CANNOT_OPEN_CSV_FILE), s)
    else CsvSpec(env, build, ver, args.extension, csv.value, s)
  }

  /** The header check, the reading of the rows, and the loop over the rows
    * kept. */
  function CsvSpec(env: Env, build: Build, ver: string, ext: string, csv: Csv, s: State): (Ending, State)
  {
    if csv.firstRow.None? || csv.firstRow.value == [] then
      Fail(s, MSG_INVALID_HEADER_ROW, ERROR_INVALID_HEADER_ROW)
    else
      var hdr := csv.firstRow.value;
      var (technicalList, s') := ReadRows(csv.rows, build, s.(errors := s.errors + [hdr + ["Comments"]]));
      RowsSpec(ext, env, build, ver, Columns.NameOrLabelTagsOf(hdr), technicalList, s')
  }

  /** main. */
  method Run(env: Env, build: Build, versionOutput: string, args: Args, csv: Option<Csv>,
             store: RecordStore.Store)
    returns (e: Ending, s: State)
    ensures (e, s) == RunSpec(env, build, TechnicalParse.CheckVersion(versionOutput), args, csv, store)
  {
    s := State(store, 0, [], []);
    var version := TechnicalParse.CheckImageMagick(versionOutput);
    if version.Raises? {
      return Crashed, s;
    }
    if version.NotInstalled? {
      e, s := Exited(ERROR_INSTALL_IMAGEMAGICK), ErrorCSV(s.(errors := s.errors + [[MSG_INSTALL_IMAGEMAGICK]]));
      return;
    }
    var ver := version.ver;
    if args.count == 0 {
      return Exited(ERROR_INVALID_ARGUMENT_STRING), s;
    }
    if args.extension == "*" {
      e, s := Exited(ERROR_EXT_ARGUMENT), ErrorCSV(s.(errors := s.errors + [[MSG_EXT_ARGUMENT]]));
      return;
    }
    if args.file.None? {
      e, s := Exited(ERROR_FILE_ARGUMENT), ErrorCSV(s.(errors := s.errors + [[MSG_FILE_ARGUMENT]]));
      return;
    }
    if csv.None? {
      return Exited(ERROR_CANNOT_OPEN_CSV_FILE), s;
    }
    e, s := ReadCsv(env, build, ver, args.extension, csv.value, s);
  }

  /** main once the CSV file is open. */
  method ReadCsv(env: Env, build: Build, ver: string, ext: string, csv: Csv, s0: State)
    returns (e: Ending, s: State)
    ensures (e, s) == CsvSpec(env, build, ver, ext, csv, s0)
  {
    s := s0;
    var firstRow := csv.firstRow;
    if firstRow.None? || |firstRow.value| == 0 {
      e, s := Exited(ERROR_INVALID_HEADER_ROW), ErrorCSV(s.(errors := s.errors + [[MSG_INVALID_HEADER_ROW]]));
      return;
    }
    var hdr := firstRow.value;
    var tags := Columns.NameOrLabelTags(hdr);
    s := s.(errors := s.errors + [hdr + ["Comments"]]);
    var technicalList;
    technicalList, s := ReadCsvRows(csv.rows, build, s);
    e, s := ProcessRows(ext, env, build, ver, tags, technicalList, s);
  }

  // ---------------------------------------------------------------------
  // What a run guarantees

  /** Every report written is the error list as it then was, and the list
    * only grows, so every report is a prefix of the final list. */
  predicate ReportsPrefix(s: State)
  {
    forall i :: 0 <= i < |s.reports| ==> s.reports[i] <= s.errors
  }

  /** From `s` to `s'` no record is added or removed, the error list only
    * grows, and every report written is a prefix of it. */
  predicate Grows(s: State, s': State)
  {
    ReportsPrefix(s') && s.errors <= s'.errors && s'.store.Keys == s.store.Keys
  }

  lemma GrowsTransitive(s: State, s1: State, s2: State)
    requires Grows(s, s1) && Grows(s1, s2)
    ensures Grows(s, s2)
  {
  }

  /** The steps that write reports keep every report a prefix of the list. */
  lemma FailKeepsPrefix(s: State, msg: string, code: string)
    requires ReportsPrefix(s)
    ensures Grows(s, Fail(s, msg, code).1)
  {
    var s1 := s.(errors := s.errors + [[msg]]);
    assert forall i :: 0 <= i < |s.reports| ==> s.reports[i] <= s.errors <= s1.errors;
  }

  /** One row keeps the reports prefixes of the list and the records. */
  lemma RowStepFacts(ext: string, env: Env, build: Build, ver: string, tags: seq<string>,
                     row: seq<string>, s: State)
    requires ReportsPrefix(s)
    ensures Grows(s, RowStep(ext, env, build, ver, tags, row, s).1)
  {
    match Columns.InfoOf(row, tags)
    case None =>
    case Some(info) =>
      if RecordStore.SERIES_LABEL in info && RecordStore.SUB_SERIES_LABEL in info {
        var found := RecordStore.SelectBySeries(s.store, info[RecordStore.SERIES_LABEL], info[RecordStore.SUB_SERIES_LABEL]);
        var docs := RecordStore.Fetch(s.store, env.order(found));
        if |docs| == 0 {
          FailKeepsPrefix(s, MSG_CANNOT_FIND_DOCUMENT, ERROR_CANNOT_FIND_DOCUMENT);
        } else {
          DocsKeys(ext, env, build, ver, docs, s.store, s.n);
          var r := DocsSpec(ext, env, build, ver, docs, s.store, s.n);
          FailKeepsPrefix(s.(store := r.store), MSG_TECH_UPDATED, NO_CODE);
        }
      }
  }

  /** Over the rows, no record is added or removed, the error list only
    * grows, and every report is a prefix of it. */
  lemma {:induction false} RowsFacts(ext: string, env: Env, build: Build, ver: string, tags: seq<string>,
                                     rows: seq<seq<string>>, s: State)
    requires ReportsPrefix(s)
    ensures Grows(s, RowsSpec(ext, env, build, ver, tags, rows, s).1)
    decreases |rows|
  {
    if rows != [] {
      RowStepFacts(ext, env, build, ver, tags, rows[0], s);
      var (e, s') := RowStep(ext, env, build, ver, tags, rows[0], s);
      if e == Running {
        RowsFacts(ext, env, build, ver, tags, rows[1..], s');
        GrowsTransitive(s, s', RowsSpec(ext, env, build, ver, tags, rows[1..], s').1);
      }
    }
  }

  /** Reading the rows keeps every report a prefix of the list, and the
    * list only grows. */
  lemma {:induction false} ReadRowsFacts(rows: seq<seq<string>>, build: Build, s: State)
    requires ReportsPrefix(s)
    ensures ReportsPrefix(ReadRows(rows, build, s).1) && s.errors <= ReadRows(rows, build, s).1.errors
    decreases |rows|
  {
    if rows != [] {
      ReadRowsFacts(rows[..|rows| - 1], build, s);
      var s' := ReadRows(rows[..|rows| - 1], build, s).1;
      var s2 := s'.(errors := s'.errors + [rows[|rows| - 1] + [Columns.NOT_VALID_INPUT]]);
      assert forall i :: 0 <= i < |s'.reports| ==> s'.reports[i] <= s'.errors <= s2.errors;
    }
  }

  /** After the header, no record is added or removed and every report
    * is a prefix of the list. */
  lemma CsvFacts(env: Env, build: Build, ver: string, ext: string, csv: Csv, s: State)
    requires ReportsPrefix(s)
    ensures Grows(s, CsvSpec(env, build, ver, ext, csv, s).1)
  {
    if csv.firstRow.None? || csv.firstRow.value == [] {
      FailKeepsPrefix(s, MSG_INVALID_HEADER_ROW, ERROR_INVALID_HEADER_ROW);
    } else {
      var hdr := csv.firstRow.value;
      var s1 := s.(errors := s.errors + [hdr + ["Comments"]]);
      assert Grows(s, s1) by {
        assert forall i :: 0 <= i < |s.reports| ==> s.reports[i] <= s.errors <= s1.errors;
      }
      ReadRowsFacts(csv.rows, build, s1);
      ReadRowsKept(csv.rows, build, s1);
      var (technicalList, s') := ReadRows(csv.rows, build, s1);
      GrowsTransitive(s, s1, s');
      RowsFacts(ext, env, build, ver, Columns.NameOrLabelTagsOf(hdr), technicalList, s');
      GrowsTransitive(s, s', RowsSpec(ext, env, build, ver, Columns.NameOrLabelTagsOf(hdr), technicalList, s').1);
    }
  }

  /** A run never adds or removes a record, and every error report it
    * writes is a prefix of its final error list. */
  lemma RunFacts(env: Env, build: Build, version: TechnicalParse.VersionCheck, args: Args, csv: Option<Csv>,
                 store: RecordStore.Store)
    ensures var r := RunSpec(env, build, version, args, csv, store);
      r.1.store.Keys == store.Keys && ReportsPrefix(r.1)
  {
    var s := State(store, 0, [], []);
    FailKeepsPrefix(s, MSG_INSTALL_IMAGEMAGICK, ERROR_INSTALL_IMAGEMAGICK);
    FailKeepsPrefix(s, MSG_EXT_ARGUMENT, ERROR_EXT_ARGUMENT);
    FailKeepsPrefix(s, MSG_FILE_ARGUMENT, ERROR_FILE_ARGUMENT);
    if csv.Some? && version.Installed? {
      CsvFacts(env, build, version.ver, args.extension, csv.value, s);
    }
  }

  /** As written, a row with fewer than two columns makes errorCSV write a
    * report that holds only the header: the row itself never reaches any
    * report. */
  lemma ShortRowAsWrittenUnreported(hdr: seq<string>, row: seq<string>)
    requires |row| < MIN_NUM_COLS
    ensures var s := State(map[], 0, [hdr + ["Comments"]], []);
      var (kept, s') := ReadRows([row], AsWritten, s);
      kept == [] && s'.reports == [[hdr + ["Comments"]]] && s'.errors == [hdr + ["Comments"]]
  {
    assert [row][..0] == [];
  }

  /** As intended, the report written for it holds the row with its
    * comment. */
  lemma ShortRowIntendedReported(hdr: seq<string>, row: seq<string>)
    requires |row| < MIN_NUM_COLS
    ensures var s := State(map[], 0, [hdr + ["Comments"]], []);
      var (kept, s') := ReadRows([row], Intended, s);
      kept == [] && s'.reports == [[hdr + ["Comments"], row + [Columns.NOT_VALID_INPUT]]]
  {
    assert [row][..0] == [];
    assert [hdr + ["Comments"]] + [row + [Columns.NOT_VALID_INPUT]] == [hdr + ["Comments"], row + [Columns.NOT_VALID_INPUT]];
  }

  /** ImageMagick reported as missing: the run writes one report holding
    * the message and exits with e19, changing nothing. */
  lemma NotInstalledExits(env: Env, build: Build, versionOutput: string, args: Args, csv: Option<Csv>,
                          store: RecordStore.Store)
    requires TechnicalParse.CheckVersion(versionOutput) == TechnicalParse.NotInstalled
    ensures RunSpec(env, build, TechnicalParse.CheckVersion(versionOutput), args, csv, store)
         == (Exited(ERROR_INSTALL_IMAGEMAGICK), State(store, 0, [[MSG_INSTALL_IMAGEMAGICK]], [[[MSG_INSTALL_IMAGEMAGICK]]]))
  {
    var s := State(store, 0, [], []);
    var e := [[MSG_INSTALL_IMAGEMAGICK]];
    assert s.errors + e == e;
    assert ErrorCSV(s.(errors := e)) == State(store, 0, e, [e]);
  }
}
