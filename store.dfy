// The document store the accession scripts write to, reduced to the four
// operations they use: insert, `$set` update, delete by `_id`, and the
// highest serial number recorded for a source directory. A store is a map
// from `_id` to record; the driver's duplicate-key error is the only
// failure modelled.

module RecordStore {
  import opened Common
  import opened Records
  import AdminMeta

  type Store = map<string, Record>

  /** Every record is filed under its own `_id`. */
  predicate Keyed(store: Store)
  {
    forall k :: k in store ==> store[k].id == k
  }

  /** insertRecordInDB: the driver returns the inserted `_id` (converted to
    * a string), or raises on a duplicate `_id`, in which case the given
    * error code is returned ("e08" in the package, -8 in the oldest
    * script) and the store is unchanged. A stored record is never
    * overwritten. */
  function InsertRecord(store: Store, rec: Record, errorCode: string): (res: (string, Store))
    ensures res.1.Keys == store.Keys + {rec.id}
    ensures forall k :: k in store ==> res.1[k] == store[k]
    ensures rec.id !in store ==> res.0 == rec.id && res.1[rec.id] == rec
    ensures rec.id in store ==> res.0 == errorCode && res.1 == store
    ensures Keyed(store) ==> Keyed(res.1)
  {
    if rec.id in store then (errorCode, store)
    else (rec.id, store[rec.id := rec])
  }

  /** deleteRecordFromDB / DeleteRecordFromDB: `None` stands for the
    * process exiting with ERROR_CANNOT_REMOVE_RECORD_FROM_DB, which happens
    * unless exactly one record (the one with that `_id`) was deleted. */
  function DeleteRecord(store: Store, id: string): (r: Option<Store>)
    ensures r.Some? <==> id in store
    ensures r.Some? ==> id !in r.value && r.value.Keys == store.Keys - {id}
    ensures r.Some? ==> forall k :: k in r.value ==> r.value[k] == store[k]
  {
    if id in store then Some(store - {id}) else None
  }

  /** Deleting what was just inserted restores the store. */
  lemma InsertThenDelete(store: Store, rec: Record, errorCode: string)
    requires rec.id !in store
    ensures DeleteRecord(InsertRecord(store, rec, errorCode).1, rec.id) == Some(store)
  {
    var s := InsertRecord(store, rec, errorCode).1;
    assert s - {rec.id} == store;
  }

  /** Deleting an `_id` that was never inserted ends the process. */
  lemma DeleteAbsentExits(store: Store, id: string)
    requires id !in store
    ensures DeleteRecord(store, id) == None
  {
  }

  /** updateRecordInDB(id, fields): `$set` of top-level fields on the record
    * with that `_id`. Without upsert the driver's upserted_id is None, so
    * the function returns the text "None"; an `_id` that matches nothing
    * changes nothing. */
  function UpdateRecord(store: Store, id: string, fields: map<string, Doc>): (res: (string, Store))
    ensures res.0 == "None"
    ensures res.1.Keys == store.Keys
    ensures forall k :: k in store && k != id ==> res.1[k] == store[k]
    ensures id in store ==>
      var u := res.1[id];
      u.id == store[id].id && u.arrangement == store[id].arrangement &&
      u.obj == store[id].obj && u.events == store[id].events &&
      (forall f :: f in fields ==> f in u.entities && u.entities[f] == fields[f]) &&
      (forall f :: f !in fields ==> (f in u.entities <==> f in store[id].entities)) &&
      (forall f :: f !in fields && f in u.entities ==> u.entities[f] == store[id].entities[f])
  {
    if id in store then ("None", store[id := store[id].(entities := store[id].entities + fields)])
    else ("None", store)
  }

  /** updateRecordInDB(id, document): the `$set` of every field of the
    * fetched document. The database refuses to change an `_id`, and the
    * error is caught, so only a document whose `_id` is `id` changes the
    * record; an `id` that matches nothing changes nothing. */
  function WriteBack(store: Store, id: string, doc: Record): Store
  {
    if id in store && doc.id == id then
      store[id := Record(id, doc.arrangement, doc.obj, doc.events, store[id].entities + doc.entities)]
    else store
  }

  /** The order in which the database returns a query's records lists
    * each record it selects exactly once. */
  ghost predicate Listing(ids: seq<string>, found: set<string>)
  {
    (forall id :: id in ids <==> id in found) && |ids| == |found|
  }

  /** The documents the query returns, in the given order, as they are when
    * the query runs. */
  function Fetch(store: Store, ids: seq<string>): (docs: seq<Record>)
    ensures |docs| <= |ids|
  {
    if ids == [] then []
    else (if ids[0] in store then [store[ids[0]]] else []) + Fetch(store, ids[1..])
  }

  /** A query that selects some record fetches some document. */
  lemma {:induction false} FetchNonEmpty(store: Store, ids: seq<string>, id: string)
    requires id in ids && id in store
    ensures |Fetch(store, ids)| > 0
    decreases |ids|
  {
    if ids[0] != id {
      FetchNonEmpty(store, ids[1..], id);
    }
  }

  /** A `$set` applied twice has the effect of applying it once. */
  lemma UpdateIdempotent(store: Store, id: string, fields: map<string, Doc>)
    ensures UpdateRecord(UpdateRecord(store, id, fields).1, id, fields).1 == UpdateRecord(store, id, fields).1
  {
    if id in store {
      var once := UpdateRecord(store, id, fields).1;
      assert once[id].entities + fields == once[id].entities;
    }
  }

  // ---------------------------------------------------------------------
  // getHighestSerialNo

  /** Python int() applied to a stored serial number: an integer is itself,
    * a string of decimal digits is its value, anything else raises. */
  function SerialValue(v: Value): (r: Option<int>)
    ensures v.Number? ==> r == Some(v.n)
    ensures v.Text? && r.Some? ==> |v.s| > 0 && forall i :: 0 <= i < |v.s| ==> IsDigit(v.s[i])
  {
    match v
    case Number(n) => Some(n)
    case Text(s) =>
      if |s| > 0 && forall i :: 0 <= i < |s| ==> IsDigit(s[i]) then Some(DigitsValue(s)) else None
  }

  /** The serial number of a stored record, if it has one int() accepts. */
  function RecordSerial(r: Record): Option<int>
  {
    if AdminMeta.SERIAL_NUMBER_LABEL in r.arrangement then SerialValue(r.arrangement[AdminMeta.SERIAL_NUMBER_LABEL])
    else None
  }

  /** The records the serial query returns: those whose originalName the
    * directory name matches as a regular expression (`$regex`, an abstract
    * predicate here). */
  function Matching(store: Store, dirName: string, regex: (string, string) -> bool): (ids: set<string>)
    ensures ids <= store.Keys
    ensures forall k :: k in store ==> (k in ids <==> regex(dirName, store[k].obj.originalName))
  {
    set k | k in store && regex(dirName, store[k].obj.originalName)
  }

  lemma MaxExists(s: set<int>)
    requires s != {}
    ensures exists m :: m in s && forall x :: x in s ==> x <= m
    decreases |s|
  {
    if forall x :: x !in s {
      assert false;
    }
    var y :| y in s;
    var rest := s - {y};
    assert forall x :: x in s ==> x in rest || x == y;
    if rest == {} {
      assert forall x :: x in s ==> x <= y;
    } else {
      MaxExists(rest);
      var m :| m in rest && forall x :: x in rest ==> x <= m;
      var top := if y > m then y else m;
      assert top in s && forall x :: x in s ==> x <= top;
    }
  }

  /** Python max() of a non-empty collection of integers. */
  function Max(s: set<int>): (m: int)
    requires s != {}
    ensures m in s && forall x :: x in s ==> x <= m
  {
    MaxExists(s);
    var m :| m in s && forall x :: x in s ==> x <= m; m
  }

  /** Every record among `ids` has a serial number int() accepts. */
  predicate SerialsKnown(store: Store, ids: set<string>)
    requires ids <= store.Keys
  {
    forall k :: k in ids ==> RecordSerial(store[k]).Some?
  }

  /** The serial numbers of the records `ids`. */
  function Serials(store: Store, ids: set<string>): set<int>
    requires ids <= store.Keys && SerialsKnown(store, ids)
  {
    set k | k in ids :: RecordSerial(store[k]).value
  }

  /** getHighestSerialNo(dirName): `emptyValue` when no record matches (0 in
    * the package, 1 in the older scripts), otherwise the largest serial
    * among the matches; `None` stands for the ValueError or KeyError int()
    * or the lookup raises when a matching record has no integer serial. */
  function HighestSerialNo(store: Store, dirName: string, regex: (string, string) -> bool, emptyValue: int): Option<int>
  {
    var ids := Matching(store, dirName, regex);
    if ids == {} then Some(emptyValue)
    else if !SerialsKnown(store, ids) then None
    else
      var k0 :| k0 in ids;
      assert RecordSerial(store[k0]).value in Serials(store, ids);
      Some(Max(Serials(store, ids)))
  }

  /** The answer is `emptyValue` when nothing matches, None exactly when
    * some match has no integer serial, and otherwise the serial of some
    * match that no other match's serial exceeds. */
  lemma HighestSerialNoMeaning(store: Store, dirName: string, regex: (string, string) -> bool, emptyValue: int)
    ensures var r := HighestSerialNo(store, dirName, regex, emptyValue);
      && (Matching(store, dirName, regex) == {} ==> r == Some(emptyValue))
      && (r.None? <==> exists k :: k in Matching(store, dirName, regex) && RecordSerial(store[k]).None?)
      && (Matching(store, dirName, regex) != {} && r.Some? ==>
        (exists k :: k in Matching(store, dirName, regex) && RecordSerial(store[k]) == Some(r.value)) &&
        (forall k :: k in Matching(store, dirName, regex) ==> RecordSerial(store[k]).Some? && RecordSerial(store[k]).value <= r.value))
  {
    var ids := Matching(store, dirName, regex);
    if ids != {} && SerialsKnown(store, ids) {
      var k0 :| k0 in ids;
      assert RecordSerial(store[k0]).value in Serials(store, ids);
      var m := Max(Serials(store, ids));
      assert forall k :: k in ids ==> RecordSerial(store[k]).value in Serials(store, ids);
      assert exists k :: k in ids && RecordSerial(store[k]) == Some(m);
    }
  }

  /** The package and the older scripts agree whenever some record matches,
    * and differ by exactly one when none does. */
  lemma HighestSerialVariants(store: Store, dirName: string, regex: (string, string) -> bool)
    ensures Matching(store, dirName, regex) != {} ==>
      HighestSerialNo(store, dirName, regex, 0) == HighestSerialNo(store, dirName, regex, 1)
    ensures Matching(store, dirName, regex) == {} ==>
      HighestSerialNo(store, dirName, regex, 0) == Some(0) && HighestSerialNo(store, dirName, regex, 1) == Some(1)
  {
  }

  // ---------------------------------------------------------------------
  // The (series, sub-series) query of the metadata workflows

  /** The arrangement keys the series and sub-series are stored under. */
  const SERIES_LABEL := "seriesLabel"
  const SUB_SERIES_LABEL := "sub-seriesLabel"

  /** A find() equality condition on an arrangement field: the record holds
    * the field, with that text. */
  predicate HasArrangement(r: Record, key: string, value: string)
  {
    key in r.arrangement && r.arrangement[key] == Text(value)
  }

  /** The records a find() with the given conditions returns. */
  function FindBySeries(store: Store, series: Option<string>, subseries: Option<string>): (ids: set<string>)
    ensures forall id :: id in ids <==> (id in store
      && (series.Some? ==> HasArrangement(store[id], SERIES_LABEL, series.value))
      && (subseries.Some? ==> HasArrangement(store[id], SUB_SERIES_LABEL, subseries.value)))
  {
    set id | id in store
      && (series.Some? ==> HasArrangement(store[id], SERIES_LABEL, series.value))
      && (subseries.Some? ==> HasArrangement(store[id], SUB_SERIES_LABEL, subseries.value))
  }

  /** The records the technical and compliance workflows select for a row:
    * first by both series and sub-series, then by sub-series alone when the
    * series is "", then by series alone when the sub-series is "" (each
    * query replacing the one before). */
  function SelectBySeries(store: Store, series: string, subseries: string): (ids: set<string>)
  {
    var records := FindBySeries(store, Some(series), Some(subseries));
    var records := if series == "" then FindBySeries(store, None, Some(subseries)) else records;
    if subseries == "" then FindBySeries(store, Some(series), None) else records
  }

  /** The last query that applies wins: an empty sub-series selects by series
    * alone (even when the series is empty too), an empty series with a
    * sub-series selects by sub-series alone, and otherwise both must
    * match. Every selected id is a stored record. */
  lemma SelectionRule(store: Store, series: string, subseries: string)
    ensures SelectBySeries(store, series, subseries) <= store.Keys
    ensures subseries == "" ==> forall id :: id in SelectBySeries(store, series, subseries) <==>
      (id in store && HasArrangement(store[id], SERIES_LABEL, series))
    ensures subseries != "" && series == "" ==> forall id :: id in SelectBySeries(store, series, subseries) <==>
      (id in store && HasArrangement(store[id], SUB_SERIES_LABEL, subseries))
    ensures subseries != "" && series != "" ==> forall id :: id in SelectBySeries(store, series, subseries) <==>
      (id in store && HasArrangement(store[id], SERIES_LABEL, series)
        && HasArrangement(store[id], SUB_SERIES_LABEL, subseries))
  {
  }
}
