// The compliance workflow (compliance.py). Each header column carrying the
// compliance marker becomes a tag. Every long-enough row names a series and
// a sub-series plus one value per tag. processRecord selects the records of
// that (series, sub-series) pair. It stores a filled compliance profile on
// each selected record that has none yet, and reports each that already
// has one.

module Compliance {
  import opened Common
  import opened Records
  import RecordStore
  import Columns
  import opened ComplianceProfile

  /** The marker and tag suffix of compliance columns
    * (COMPLIANCE_INFO_MARKER and COMPLIANCE_INFO_LABEL_SUFFIX, which
    * metadatautilspkg/globalvars.py does not define), and which build of
    * the code runs. */
  datatype Config = Config(marker: string, suffix: string, build: Build)

  /** The columns every row needs besides its compliance columns. */
  const MIN_NUM_COLS := 2
  const NOT_COMPLETED := "Process is not completed"
  const SUCCESS := "Successfully completed process"
  const ERROR_COM_UPDATED := "The compliance metadata profile has been already updated."

  /** The Complianceinfo key the k-th profile leaf (in LEAF_PATHS order)
    * is filled from. */
  function InfoKey(k: nat): string
    requires k < NUM_LEAVES
  {
    match k
    case 0 => "recordTypeLabel"
    case 1 => "retentionSchedule-authority-nameLabel"
    case 2 => "retentionSchedule-authority-urlLabel"
    case 3 => "retentionSchedule-authority-affiliationLabel"
    case 4 => "retentionSchedule-initiatingEventLabel"
    case 5 => "retentionSchedule-durationLabel"
    case 6 => "retentionSchedule-urlLabel"
    case 7 => "retentionSchedule-effectiveDateLabel"
    case 8 => "disposition-authority-nameLabel"
    case 9 => "disposition-authority-urlLabel"
    case 10 => "disposition-authority-affiliationLabel"
    case 11 => "disposition-methodLabel"
    case 12 => "disposition-urlLabel"
    case 13 => "disposition-effectiveDateLabel"
    case _ => "access-demographicLabel"
  }

  // ---------------------------------------------------------------------
  // The header and the rows

  /** The tag of a compliance column: the text after its last ':' followed
    * by the suffix. */
  function TagOf(suffix: string): string -> string
  {
    col => AfterLast(col, ':') + suffix
  }

  function ComplianceTagsOf(hdr: seq<string>, c: Config): seq<string>
  {
    Columns.TagsOf(Columns.Marked(hdr, c.marker), TagOf(c.suffix))
  }

  /** One more header column adds its tag when it is a compliance column. */
  lemma TagsStep(hdr: seq<string>, i: nat, c: Config)
    requires i < |hdr|
    ensures Columns.TagsOf(Columns.Marked(hdr[..i + 1], c.marker), TagOf(c.suffix))
         == Columns.TagsOf(Columns.Marked(hdr[..i], c.marker), TagOf(c.suffix))
            + (if StartsWith(hdr[i], c.marker) then [AfterLast(hdr[i], ':') + c.suffix] else [])
  {
    Columns.MarkedSnoc(hdr, i, c.marker);
    if StartsWith(hdr[i], c.marker) {
      Columns.TagsOfSnoc(Columns.Marked(hdr[..i], c.marker), hdr[i], TagOf(c.suffix));
    }
  }

  /** The loop that numbers the header's compliance columns:
    * tags[k] is compliancetInfoTags[k + 1]. */
  method ComplianceTags(hdr: seq<string>, c: Config) returns (tags: seq<string>)
    ensures tags == ComplianceTagsOf(hdr, c)
  {
    tags := [];
    for i := 0 to |hdr|
      invariant tags == Columns.TagsOf(Columns.Marked(hdr[..i], c.marker), TagOf(c.suffix))
    {
      TagsStep(hdr, i, c);
      if StartsWith(hdr[i], c.marker) {
        tags := tags + [AfterLast(hdr[i], ':') + c.suffix];
      }
    }
    assert hdr[..|hdr|] == hdr;
  }

  /** The Complianceinfo dictionary of a row: tag k (from 0) takes column
    * k + 2. */
  function InfoOf(row: seq<string>, tags: seq<string>): map<string, string>
    requires |row| >= MIN_NUM_COLS + |tags|
  {
    Columns.Tagged(row, tags, MIN_NUM_COLS, |tags|)
  }

  /** The loop that fills the Complianceinfo dictionary of a row. */
  method ComplianceInfo(row: seq<string>, tags: seq<string>) returns (info: map<string, string>)
    requires |row| >= MIN_NUM_COLS + |tags|
    ensures info == InfoOf(row, tags)
  {
    info := map[];
    for complianceId := 1 to |tags| + 1
      invariant info == Columns.Tagged(row, tags, MIN_NUM_COLS, complianceId - 1)
    {
      info := info[tags[complianceId - 1] := row[complianceId + 1]];
    }
  }

  // ---------------------------------------------------------------------
  // processRecord

  /** Every key the profile is filled from is in the dictionary (otherwise
    * the first lookup raises KeyError). */
  predicate HasAllKeys(info: map<string, string>)
  {
    forall k :: 0 <= k < NUM_LEAVES ==> InfoKey(k) in info
  }

  /** The compliance profile with each leaf set from its Complianceinfo
    * key. */
  function FilledProfile(info: map<string, string>): map<string, Doc>
    requires HasAllKeys(info)
  {
    map[COMPLIANCE_ENTITY := Entity(seq(NUM_LEAVES, k requires 0 <= k < NUM_LEAVES => Str(info[InfoKey(k)])))]
  }

  /** The profile a row stores on each record it fills, or None when a key
    * is missing and building it raises KeyError. */
  function RowProfile(info: map<string, string>): Option<map<string, Doc>>
  {
    if HasAllKeys(info) then Some(FilledProfile(info)) else None
  }

  /** The stored profile holds the row's value at each leaf. */
  lemma RowProfileLeaves(info: map<string, string>, k: nat)
    requires HasAllKeys(info) && k < NUM_LEAVES
    ensures var rp := RowProfile(info);
      rp.Some? && rp.value.Keys == {COMPLIANCE_ENTITY}
      && At(rp.value[COMPLIANCE_ENTITY], LEAF_PATHS[k]) == Some(Str(info[InfoKey(k)]))
  {
    var v := seq(NUM_LEAVES, j requires 0 <= j < NUM_LEAVES => Str(info[InfoKey(j)]));
    EntityLeaf(v, k);
  }

  /** The records a row sets the profile of: the selected ones without a
    * compliance entity (checked on the records as fetched). */
  function Fresh(store: RecordStore.Store, found: set<string>): set<string>
  {
    set id | id in found && id in store && COMPLIANCE_ENTITY !in store[id].entities
  }

  /** A record after the entities of `prof` have been `$set` on it. */
  function WithProfile(r: Record, prof: map<string, Doc>): Record
  {
    r.(entities := r.entities + prof)
  }

  /** The store after `prof` has been `$set` on every record of `ids`. */
  function FillAll(store: RecordStore.Store, ids: set<string>, prof: map<string, Doc>): RecordStore.Store
  {
    map id | id in store :: if id in ids then WithProfile(store[id], prof) else store[id]
  }

  /** `store'` is `store` with `prof` set on the records of `filled`,
    * stated record by record. */
  predicate Filled(store: RecordStore.Store, filled: set<string>, prof: map<string, Doc>, store': RecordStore.Store)
  {
    store'.Keys == store.Keys
    && forall id :: id in store ==>
         store'[id] == if id in filled then WithProfile(store[id], prof) else store[id]
  }

  lemma FilledAll(store: RecordStore.Store, filled: set<string>, prof: map<string, Doc>, store': RecordStore.Store)
    requires Filled(store, filled, prof, store')
    ensures filled == {} ==> store' == store
    ensures store' == FillAll(store, filled, prof)
  {
  }

  /** The profile of `rp`, or nothing when there is none. */
  function ProfileOr(rp: Option<map<string, Doc>>): map<string, Doc>
  {
    if rp.Some? then rp.value else map[]
  }

  /** How processRecord ends: its returned status and comment, or an
    * exception that ends the run. */
  datatype Outcome = Done(status: bool, comment: string) | Crash

  /** processRecord, given the profile the row builds (RowProfile): no
    * selected record gives "Process is not completed". Otherwise every
    * selected record without a profile gets one and every record with a
    * profile adds an error row. A missing Complianceinfo key raises before
    * the first update. As written, when no selected record had a profile
    * `errorFlag` is never assigned and testing it raises, so the run ends
    * after the updates; as intended that is a success. */
  function ProcessSpec(store: RecordStore.Store, series: string, subseries: string,
                       rp: Option<map<string, Doc>>, build: Build): (Outcome, RecordStore.Store, nat)
  {
    var found := RecordStore.SelectBySeries(store, series, subseries);
    if found == {} then (Done(false, NOT_COMPLETED), store, 0)
    else VisitSpec(store, found, rp, build)
  }

  /** The loop over the selected records `found`, with the number of
    * error rows it adds. */
  function VisitSpec(store: RecordStore.Store, found: set<string>, rp: Option<map<string, Doc>>, build: Build)
    : (Outcome, RecordStore.Store, nat)
  {
    var pending := Fresh(store, found);
    var duplicates := |found - pending|;
    if pending != {} && rp.None? then (Crash, store, 0)
    else
      var store' := FillAll(store, pending, ProfileOr(rp));
      if duplicates == 0 && build == AsWritten then (Crash, store', 0)
      else (Done(true, SUCCESS), store', duplicates)
  }

  /** One error row per record that already had a profile. */
  function DuplicateRows(n: nat): (rows: seq<seq<string>>)
    ensures |rows| == n && forall r :: r in rows ==> r == [ERROR_COM_UPDATED]
  {
    seq(n, _ => [ERROR_COM_UPDATED])
  }

  /** The bookkeeping of the loop once the records of `done` have been
    * visited: the store holds `prof` on the pending ones among them,
    * there is one error row per other one, and `errorFlag` has been set by
    * the first of those (it starts unassigned as written, False as
    * intended). */
  predicate Visited(store: RecordStore.Store, pending: set<string>, done: set<string>, prof: map<string, Doc>,
                    build: Build, store': RecordStore.Store, errors: seq<seq<string>>, errorFlag: Option<bool>)
  {
    Filled(store, pending * done, prof, store')
    && errors == DuplicateRows(|done - pending|)
    && errorFlag == (if done - pending != {} then Some(true) else if build == Intended then Some(false) else None)
  }

  /** Visiting a record that already has a profile. */
  lemma VisitDuplicate(store: RecordStore.Store, pending: set<string>, done: set<string>, id: string,
                       prof: map<string, Doc>, build: Build, store': RecordStore.Store,
                       errors: seq<seq<string>>, errorFlag: Option<bool>)
    requires Visited(store, pending, done, prof, build, store', errors, errorFlag)
    requires id !in done && id !in pending
    ensures pending * (done + {id}) == pending * done
    ensures Visited(store, pending, done + {id}, prof, build, store', errors + [[ERROR_COM_UPDATED]], Some(true))
  {
    assert pending * (done + {id}) == pending * done;
    assert (done + {id}) - pending == (done - pending) + {id};
  }

  /** Visiting a record without a profile. */
  lemma VisitPending(store: RecordStore.Store, pending: set<string>, done: set<string>, id: string,
                     prof: map<string, Doc>, build: Build, store': RecordStore.Store,
                     errors: seq<seq<string>>, errorFlag: Option<bool>)
    requires Visited(store, pending, done, prof, build, store', errors, errorFlag)
    requires id !in done && id in pending && id in store
    ensures store'[id] == store[id]
    ensures RecordStore.UpdateRecord(store', id, prof).1 == store'[id := WithProfile(store[id], prof)]
    ensures Visited(store, pending, done + {id}, prof, build,
      store'[id := WithProfile(store[id], prof)], errors, errorFlag)
  {
    assert pending * (done + {id}) == pending * done + {id};
    assert (done + {id}) - pending == done - pending;
  }

  /** Before the loop nothing has been visited. */
  lemma VisitedNone(store: RecordStore.Store, pending: set<string>, prof: map<string, Doc>, build: Build)
    ensures Visited(store, pending, {}, prof, build, store, [],
      if build == AsWritten then None else Some(false))
  {
    assert pending * {} == {} && {} - pending == {};
  }

  /** Every pending record is among the selected ones. */
  lemma PendingMeet(pending: set<string>, found: set<string>)
    requires pending <= found
    ensures pending * found == pending
  {
  }

  /** Moving one id from the records still to visit to the visited ones. */
  lemma MoveOne(todo: set<string>, done: set<string>, found: set<string>, id: string)
    requires todo !! done && todo + done == found && id in todo
    ensures (todo - {id}) !! (done + {id}) && (todo - {id}) + (done + {id}) == found
    ensures |todo - {id}| < |todo|
  {
  }

  /** One turn of the loop: a record with a profile adds an error row and
    * sets the flag; one without a profile gets it, unless the row lacks a
    * key, which raises before the update. */
  method VisitOne(store: RecordStore.Store, ghost pending: set<string>, ghost done: set<string>,
                  rp: Option<map<string, Doc>>, build: Build, id: string,
                  store': RecordStore.Store, errors: seq<seq<string>>, errorFlag: Option<bool>)
    returns (crashed: bool, store'': RecordStore.Store, errors': seq<seq<string>>, errorFlag': Option<bool>)
    requires Visited(store, pending, done, ProfileOr(rp), build, store', errors, errorFlag)
    requires id in store && id !in done && (id in pending <==> COMPLIANCE_ENTITY !in store[id].entities)
    requires pending * done != {} ==> rp.Some?
    ensures crashed ==> id in pending && rp.None? && store' == store
    ensures !crashed ==> Visited(store, pending, done + {id}, ProfileOr(rp), build, store'', errors', errorFlag')
    ensures !crashed ==> (pending * (done + {id}) != {} ==> rp.Some?)
  {
    var rec := store'[id];
    if COMPLIANCE_ENTITY in rec.entities {
      VisitDuplicate(store, pending, done, id, ProfileOr(rp), build, store', errors, errorFlag);
      return false, store', errors + [[ERROR_COM_UPDATED]], Some(true);
    }
    if rp.None? {
      FilledAll(store, pending * done, ProfileOr(rp), store');
      return true, store', errors, errorFlag;
    }
    VisitPending(store, pending, done, id, rp.value, build, store', errors, errorFlag);
    store'' := RecordStore.UpdateRecord(store', id, rp.value).1;
    return false, store'', errors, errorFlag;
  }

  /** The loop over the selected records, in the driver's order (any
    * order: the outcome does not depend on it). */
  method VisitLoop(store: RecordStore.Store, found: set<string>, ghost pending: set<string>,
                   rp: Option<map<string, Doc>>, build: Build)
    returns (crashed: bool, store': RecordStore.Store, errors: seq<seq<string>>, errorFlag: Option<bool>)
    requires found <= store.Keys && pending <= found
    requires forall id :: id in found ==> (id in pending <==> COMPLIANCE_ENTITY !in store[id].entities)
    ensures crashed ==> pending != {} && rp.None?
    ensures !crashed ==> Visited(store, pending, found, ProfileOr(rp), build, store', errors, errorFlag)
    ensures !crashed ==> (pending != {} ==> rp.Some?)
  {
    ghost var done: set<string> := {};
    errorFlag := if build == AsWritten then None else Some(false);
    var todo := found;
    store' := store;
    errors := [];
    VisitedNone(store, pending, ProfileOr(rp), build);
    while todo != {}
      invariant todo !! done && todo + done == found
      invariant pending * done != {} ==> rp.Some?
      invariant Visited(store, pending, done, ProfileOr(rp), build, store', errors, errorFlag)
      decreases |todo|
    {
      var id :| id in todo;
      crashed, store', errors, errorFlag := VisitOne(store, pending, done, rp, build, id, store', errors, errorFlag);
      if crashed {
        return;
      }
      MoveOne(todo, done, found, id);
      done := done + {id};
      todo := todo - {id};
    }
    PendingMeet(pending, found);
    crashed := false;
  }

  /** The records selected by a row, visited: a missing key ends the run
    * with the store as it was; otherwise the pending records hold the
    * profile and each other record adds an error row; as written the run
    * then ends unless one of them had a profile. */
  method VisitAll(store: RecordStore.Store, found: set<string>, rp: Option<map<string, Doc>>, build: Build)
    returns (out: Outcome, store': RecordStore.Store, errors: seq<seq<string>>)
    requires found <= store.Keys
    ensures var pending := Fresh(store, found);
      if pending != {} && rp.None? then out == Crash && store' == store && errors == []
      else
        Filled(store, pending, ProfileOr(rp), store') && errors == DuplicateRows(|found - pending|)
        && (out.Crash? <==> found - pending == {} && build == AsWritten)
        && (out.Done? ==> out == Done(true, SUCCESS))
    ensures var v := VisitSpec(store, found, rp, build);
      out == v.0 && store' == v.1 && errors == DuplicateRows(v.2)
  {
    ghost var pending := Fresh(store, found);
    var crashed, errorFlag;
    crashed, store', errors, errorFlag := VisitLoop(store, found, pending, rp, build);
    if crashed {
      return Crash, store, [];
    }
    assert pending * found == pending;
    FilledAll(store, pending, ProfileOr(rp), store');
    if errorFlag.None? {
      return Crash, store', [];
    }
    return Done(true, SUCCESS), store', errors;
  }

  /** processRecord, on the records as stored: it does what ProcessSpec
    * says of the row's profile, and the error rows it adds are one per
    * selected record that already had a profile. */
  method ProcessRecord(store: RecordStore.Store, series: string, subseries: string,
                       info: map<string, string>, build: Build)
    returns (out: Outcome, store': RecordStore.Store, errors: seq<seq<string>>)
    ensures var spec := ProcessSpec(store, series, subseries, RowProfile(info), build);
      out == spec.0 && store' == spec.1 && errors == DuplicateRows(spec.2)
  {
    var found := RecordStore.SelectBySeries(store, series, subseries);
    RecordStore.SelectionRule(store, series, subseries);
    if found == {} {
      return Done(false, NOT_COMPLETED), store, [];
    }
    out, store', errors := VisitAll(store, found, RowProfile(info), build);
  }

  // ---------------------------------------------------------------------
  // What processRecord guarantees

  /** A row whose series and sub-series match no record reports "Process
    * is not completed" and changes nothing. */
  lemma NoMatchNotCompleted(store: RecordStore.Store, series: string, subseries: string,
                            rp: Option<map<string, Doc>>, build: Build)
    requires forall id :: id in store ==> !RecordStore.HasArrangement(store[id], RecordStore.SERIES_LABEL, series)
    requires forall id :: id in store ==> !RecordStore.HasArrangement(store[id], RecordStore.SUB_SERIES_LABEL, subseries)
    ensures ProcessSpec(store, series, subseries, rp, build) == (Done(false, NOT_COMPLETED), store, 0)
  {
    RecordStore.SelectionRule(store, series, subseries);
    var found := RecordStore.SelectBySeries(store, series, subseries);
    forall id | id in found ensures false {
    }
    assert found == {};
  }

  /** A record that already has a compliance profile is never changed, and
    * neither is a record the row does not select. */
  lemma OnlyPendingChange(store: RecordStore.Store, series: string, subseries: string,
                          rp: Option<map<string, Doc>>, build: Build, id: string)
    requires id in store
    requires COMPLIANCE_ENTITY in store[id].entities
      || id !in RecordStore.SelectBySeries(store, series, subseries)
    ensures var store' := ProcessSpec(store, series, subseries, rp, build).1;
      id in store' && store'[id] == store[id]
  {
  }

  /** A selected record without a profile, once a row that builds a profile
    * has been processed, holds that profile and keeps everything else it
    * had; every record keeps its arrangement. */
  lemma PendingFilled(store: RecordStore.Store, series: string, subseries: string,
                      prof: map<string, Doc>, build: Build, id: string)
    requires id in RecordStore.SelectBySeries(store, series, subseries)
    requires COMPLIANCE_ENTITY !in store[id].entities
    ensures var store' := ProcessSpec(store, series, subseries, Some(prof), build).1;
      id in store' && store'[id].entities == store[id].entities + prof
      && store'[id].id == store[id].id && store'[id].arrangement == store[id].arrangement
      && store'[id].obj == store[id].obj && store'[id].events == store[id].events
  {
    RecordStore.SelectionRule(store, series, subseries);
    assert id in Fresh(store, RecordStore.SelectBySeries(store, series, subseries));
  }

  /** Hence, with a complete row, each leaf of the profile stored on such a
    * record is the row's value for it. */
  lemma FilledLeaves(store: RecordStore.Store, series: string, subseries: string,
                     info: map<string, string>, build: Build, id: string, k: nat)
    requires id in RecordStore.SelectBySeries(store, series, subseries)
    requires COMPLIANCE_ENTITY !in store[id].entities
    requires HasAllKeys(info) && k < NUM_LEAVES
    ensures var store' := ProcessSpec(store, series, subseries, RowProfile(info), build).1;
      id in store' && COMPLIANCE_ENTITY in store'[id].entities
      && At(store'[id].entities[COMPLIANCE_ENTITY], LEAF_PATHS[k]) == Some(Str(info[InfoKey(k)]))
  {
    RowProfileLeaves(info, k);
    var prof := RowProfile(info).value;
    PendingFilled(store, series, subseries, prof, build, id);
  }

  /** A row that selects a record without a profile but lacks a key ends
    * the run before any update. */
  lemma MissingKeyCrashes(store: RecordStore.Store, series: string, subseries: string,
                          info: map<string, string>, build: Build, id: string)
    requires id in RecordStore.SelectBySeries(store, series, subseries)
    requires COMPLIANCE_ENTITY !in store[id].entities && !HasAllKeys(info)
    ensures ProcessSpec(store, series, subseries, RowProfile(info), build) == (Crash, store, 0)
  {
    RecordStore.SelectionRule(store, series, subseries);
    assert id in Fresh(store, RecordStore.SelectBySeries(store, series, subseries));
  }

  /** Filling profiles leaves every arrangement as it was, so it does not
    * change which records a row selects. */
  lemma FillKeepsSelection(store: RecordStore.Store, ids: set<string>, prof: map<string, Doc>,
                           series: string, subseries: string)
    ensures RecordStore.SelectBySeries(FillAll(store, ids, prof), series, subseries)
         == RecordStore.SelectBySeries(store, series, subseries)
  {
    var store' := FillAll(store, ids, prof);
    RecordStore.SelectionRule(store, series, subseries);
    RecordStore.SelectionRule(store', series, subseries);
    assert forall id :: id in store' ==> store'[id].arrangement == store[id].arrangement;
  }

  /** Processing the same row twice: the second time every selected
    * record already has its profile, so the store is left as the first
    * time made it and every selected record reports an error row. */
  lemma ProcessTwice(store: RecordStore.Store, series: string, subseries: string,
                     prof: map<string, Doc>, build: Build)
    requires COMPLIANCE_ENTITY in prof
    ensures var first := ProcessSpec(store, series, subseries, Some(prof), build);
      var second := ProcessSpec(first.1, series, subseries, Some(prof), build);
      second.1 == first.1
      && second.2 == |RecordStore.SelectBySeries(store, series, subseries)|
  {
    var found := RecordStore.SelectBySeries(store, series, subseries);
    var pending := Fresh(store, found);
    var store1 := FillAll(store, pending, prof);
    RecordStore.SelectionRule(store, series, subseries);
    FillKeepsSelection(store, pending, prof, series, subseries);
    if found != {} {
      assert Fresh(store1, found) == {};
      assert found - Fresh(store1, found) == found;
      assert FillAll(store1, {}, prof) == store1;
    }
  }

  /** As written, a row whose selected records all lack a profile ends the
    * run after storing their profiles: `errorFlag` was never assigned, the
    * test of it raises NameError, and the handler's `"Error: " + exception`
    * raises TypeError. */
  lemma UnsetFlagCrashes(store: RecordStore.Store, series: string, subseries: string, prof: map<string, Doc>)
    requires RecordStore.SelectBySeries(store, series, subseries) != {}
    requires forall id :: id in RecordStore.SelectBySeries(store, series, subseries) ==>
      COMPLIANCE_ENTITY !in store[id].entities
    ensures var found := RecordStore.SelectBySeries(store, series, subseries);
      ProcessSpec(store, series, subseries, Some(prof), AsWritten) == (Crash, FillAll(store, found, prof), 0)
  {
    var found := RecordStore.SelectBySeries(store, series, subseries);
    RecordStore.SelectionRule(store, series, subseries);
    assert Fresh(store, found) == found;
  }

  /** As intended, a row that selects a record and builds its profile
    * succeeds, with one error row per record that already had one. */
  lemma FlagDefaultSucceeds(store: RecordStore.Store, series: string, subseries: string, prof: map<string, Doc>)
    requires RecordStore.SelectBySeries(store, series, subseries) != {}
    ensures var found := RecordStore.SelectBySeries(store, series, subseries);
      var r := ProcessSpec(store, series, subseries, Some(prof), Intended);
      r.0 == Done(true, SUCCESS) && r.2 == |found - Fresh(store, found)|
  {
  }

  // ---------------------------------------------------------------------
  // main in batch mode

  /** The result of one row: the entries it adds to the error list and the
    * store after it, and whether the run goes on. Over several rows,
    * `errors` is the whole error list. */
  datatype RowResult = Continue(errors: seq<seq<string>>, store: RecordStore.Store)
                     | Halt(errors: seq<seq<string>>, store: RecordStore.Store)

  /** One turn of the loop over the rows to process: a failed row is added
    * to the error list with processRecord's comment, after the error rows
    * of its records that already had a profile. */
  function RowStep(tags: seq<string>, row: seq<string>, store: RecordStore.Store, build: Build): RowResult
    requires |row| >= MIN_NUM_COLS + |tags|
  {
    RowOutcome(row, ProcessSpec(store, row[0], row[1], RowProfile(InfoOf(row, tags)), build))
  }

  /** The turn of `row` once processRecord has given `res`. */
  function RowOutcome(row: seq<string>, res: (Outcome, RecordStore.Store, nat)): RowResult
  {
    match res.0
    case Crash => Halt(DuplicateRows(res.2), res.1)
    case Done(status, comment) =>
      Continue(DuplicateRows(res.2) + (if status then [] else [row + [comment]]), res.1)
  }

  /** The loop over the rows from `rows` on, with the error list so far. */
  function RowsSpec(tags: seq<string>, rows: seq<seq<string>>, errorList: seq<seq<string>>,
                    store: RecordStore.Store, build: Build): RowResult
    requires forall r :: r in rows ==> |r| >= MIN_NUM_COLS + |tags|
    decreases |rows|
  {
    if rows == [] then Continue(errorList, store)
    else
      match RowStep(tags, rows[0], store, build)
      case Halt(errs, store') => Halt(errorList + errs, store')
      case Continue(errs, store') => RowsSpec(tags, rows[1..], errorList + errs, store', build)
  }

  /** Over any run of rows, a record that has a compliance profile keeps
    * it unchanged: the workflow never overwrites a profile. */
  lemma {:induction false} RowsKeepProfiles(tags: seq<string>, rows: seq<seq<string>>, errorList: seq<seq<string>>,
                                           store: RecordStore.Store, build: Build, id: string)
    requires forall r :: r in rows ==> |r| >= MIN_NUM_COLS + |tags|
    requires id in store && COMPLIANCE_ENTITY in store[id].entities
    ensures var res := RowsSpec(tags, rows, errorList, store, build);
      id in res.store && res.store[id] == store[id]
    decreases |rows|
  {
    if rows != [] {
      var row := rows[0];
      assert row in rows;
      OnlyPendingChange(store, row[0], row[1], RowProfile(InfoOf(row, tags)), build, id);
      var step := RowStep(tags, row, store, build);
      if step.Continue? {
        assert forall r :: r in rows[1..] ==> r in rows;
        RowsKeepProfiles(tags, rows[1..], errorList + step.errors, step.store, build, id);
      }
    }
  }

  /** The error list only grows: every entry already in it stays, in
    * place. */
  lemma {:induction false} RowsExtendErrors(tags: seq<string>, rows: seq<seq<string>>, errorList: seq<seq<string>>,
                                           store: RecordStore.Store, build: Build)
    requires forall r :: r in rows ==> |r| >= MIN_NUM_COLS + |tags|
    ensures errorList <= RowsSpec(tags, rows, errorList, store, build).errors
    decreases |rows|
  {
    if rows != [] {
      var step := RowStep(tags, rows[0], store, build);
      if step.Continue? {
        assert forall r :: r in rows[1..] ==> r in rows;
        RowsExtendErrors(tags, rows[1..], errorList + step.errors, step.store, build);
      }
    }
  }

  /** One turn of the loop over complianceList. */
  method ProcessRow(tags: seq<string>, row: seq<string>, store: RecordStore.Store, build: Build)
    returns (result: RowResult)
    requires |row| >= MIN_NUM_COLS + |tags|
    ensures result == RowStep(tags, row, store, build)
  {
    var info := ComplianceInfo(row, tags);
    var out, store', duplicates := ProcessRecord(store, row[0], row[1], info, build);
    ghost var spec := ProcessSpec(store, row[0], row[1], RowProfile(info), build);
    assert RowStep(tags, row, store, build) == RowOutcome(row, spec);
    if out.Crash? {
      return Halt(duplicates, store');
    }
    var errs := duplicates;
    if !out.status {
      errs := errs + [row + [out.comment]];
    }
    return Continue(errs, store');
  }

  /** The loop from row i on is the i-th turn followed by the loop from
    * row i + 1 on. */
  lemma RowsUnroll(tags: seq<string>, rows: seq<seq<string>>, i: nat, errorList: seq<seq<string>>,
                   store: RecordStore.Store, build: Build)
    requires i < |rows| && forall r :: r in rows ==> |r| >= MIN_NUM_COLS + |tags|
    ensures rows[i] in rows
    ensures RowsSpec(tags, rows[i..], errorList, store, build)
         == var step := RowStep(tags, rows[i], store, build);
            if step.Halt? then Halt(errorList + step.errors, step.store)
            else RowsSpec(tags, rows[i + 1..], errorList + step.errors, step.store, build)
  {
    assert rows[i..][1..] == rows[i + 1..];
  }

  /** The loop over complianceList. */
  method ProcessRows(tags: seq<string>, complianceList: seq<seq<string>>, errorList: seq<seq<string>>,
                     store: RecordStore.Store, build: Build)
    returns (result: RowResult)
    requires forall r :: r in complianceList ==> |r| >= MIN_NUM_COLS + |tags|
    ensures result == RowsSpec(tags, complianceList, errorList, store, build)
  {
    var errs := errorList;
    var store' := store;
    for i := 0 to |complianceList|
      invariant RowsSpec(tags, complianceList[i..], errs, store', build)
             == RowsSpec(tags, complianceList, errorList, store, build)
    {
      RowsUnroll(tags, complianceList, i, errs, store', build);
      var res := ProcessRow(tags, complianceList[i], store', build);
      if res.Halt? {
        return Halt(errs + res.errors, res.store);
      }
      errs := errs + res.errors;
      store' := res.store;
    }
    assert complianceList[|complianceList|..] == [];
    result := Continue(errs, store');
  }

  /** How a run ends: at the header (no row at all makes `len(None)`
    * raise, an empty one is an invalid header), in the middle of a row
    * with the error list as it then stands, or with every row processed
    * and the final error list. */
  datatype RunResult = HeaderInvalid | HeaderRaises | Halted(errorList: seq<seq<string>>, store: RecordStore.Store)
                     | Finished(errorList: seq<seq<string>>, store: RecordStore.Store)

  function RunSpec(c: Config, firstRow: Option<seq<string>>, rows: seq<seq<string>>, store: RecordStore.Store): RunResult
  {
    if firstRow.None? then HeaderRaises
    else if firstRow.value == [] then HeaderInvalid
    else
      var hdr := firstRow.value;
      var tags := ComplianceTagsOf(hdr, c);
      var minNumCols := MIN_NUM_COLS + |tags|;
      var errorList := [hdr + ["Comments"]] + Columns.Rejections(rows, minNumCols, c.build);
      Ended(RowsSpec(tags, Columns.Long(rows, minNumCols), errorList, store, c.build))
  }

  /** How the run ends once the loop over the rows has given `res`. */
  function Ended(res: RowResult): RunResult
  {
    match res
    case Halt(errs, store') => Halted(errs, store')
    case Continue(errs, store') => Finished(errs, store')
  }

  /** main in batch mode, after the CSV file has been read: `firstRow` and
    * `rows` are its rows. */
  method Run(c: Config, firstRow: Option<seq<string>>, rows: seq<seq<string>>, store: RecordStore.Store)
    returns (result: RunResult)
    ensures result == RunSpec(c, firstRow, rows, store)
  {
    if firstRow.None? {
      return HeaderRaises;
    }
    var hdr := firstRow.value;
    if |hdr| == 0 {
      return HeaderInvalid;
    }
    result := RunRows(c, hdr, rows, store);
  }

  /** The run past a valid header: the short rows are rejected and the
    * others processed in order. */
  method RunRows(c: Config, hdr: seq<string>, rows: seq<seq<string>>, store: RecordStore.Store)
    returns (result: RunResult)
    requires hdr != []
    ensures result == RunSpec(c, Some(hdr), rows, store)
  {
    var tags := ComplianceTags(hdr, c);
    var minNumCols := MIN_NUM_COLS + |tags|;
    var complianceList, rejected := Columns.SplitRows(rows, minNumCols, c.build);
    var errorList := [hdr + ["Comments"]] + rejected;
    var res := ProcessRows(tags, complianceList, errorList, store, c.build);
    if res.Halt? {
      return Halted(res.errors, res.store);
    }
    result := Finished(res.errors, res.store);
    assert result == Ended(res);
  }
}
