// The admin entity of a metadata record: the arrangement fields taken from
// the batch row, minus the empty ones, plus a serial number that starts as
// the empty-string sentinel and is set once, just before accession.

module AdminMeta {
  import opened Records

  /** The arrangement key of the serial number (labels.serial_nbr). */
  const SERIAL_NUMBER_LABEL := "serialNumber"
  /** The placeholder written into fields that are filled in later. */
  const MD_INIT_STRING := ""

  /** The arrangement fields whose value is not the empty string. */
  function NonEmptyFields(info: map<string, string>): (m: map<string, string>)
  {
    map k | k in info && info[k] != "" :: info[k]
  }

  lemma {:induction false} NonEmptyFieldsMeaning(info: map<string, string>)
    ensures forall k :: k in NonEmptyFields(info) <==> k in info && info[k] != ""
    ensures forall k :: k in NonEmptyFields(info) ==> NonEmptyFields(info)[k] == info[k]
    ensures NonEmptyFields(NonEmptyFields(info)) == NonEmptyFields(info)
    ensures forall k :: k in info && info[k] == "" ==> k !in NonEmptyFields(info)
  {
  }

  /** The arrangement entity built from already-filtered fields: every field
    * as text, then the serial number set to the sentinel. */
  function ArrangementEntity(kept: map<string, string>): map<string, Value>
  {
    (map k | k in kept :: Text(kept[k]))[SERIAL_NUMBER_LABEL := Text(MD_INIT_STRING)]
  }

  /** initAdminMetadataEntity. The first loop collects the keys whose value
    * is "", the second pops them out of the caller's dictionary (returned
    * as `remaining`, since the caller sees the change), and the arrangement
    * entity is the remaining fields plus the serial-number sentinel, which
    * overrides a field of the same name. */
  method InitAdminMetadataEntity(info: map<string, string>)
    returns (remaining: map<string, string>, arrangement: map<string, Value>)
    ensures forall k :: k in remaining <==> k in info && info[k] != ""
    ensures forall k :: k in remaining ==> remaining[k] == info[k]
    ensures SERIAL_NUMBER_LABEL in arrangement && arrangement[SERIAL_NUMBER_LABEL] == Text("")
    ensures forall k :: k != SERIAL_NUMBER_LABEL ==>
      (k in arrangement <==> k in info && info[k] != "")
    ensures forall k :: k != SERIAL_NUMBER_LABEL && k in arrangement ==> arrangement[k] == Text(info[k])
    ensures remaining == NonEmptyFields(info) && arrangement == ArrangementEntity(remaining)
  {
    var emptyKeys: seq<string> := [];
    var pending := info.Keys;
    while pending != {}
      invariant pending <= info.Keys
      invariant forall k :: k in emptyKeys ==> k in info && info[k] == ""
      invariant forall k :: k in info && k !in pending && info[k] == "" ==> k in emptyKeys
      decreases |pending|
    {
      var k :| k in pending;
      if info[k] == "" {
        emptyKeys := emptyKeys + [k];
      }
      pending := pending - {k};
    }
    remaining := info;
    var i := 0;
    while i < |emptyKeys|
      invariant 0 <= i <= |emptyKeys|
      invariant forall k :: k in remaining <==> k in info && k !in emptyKeys[..i]
      invariant forall k :: k in remaining ==> remaining[k] == info[k]
    {
      remaining := remaining - {emptyKeys[i]};
      i := i + 1;
    }
    assert emptyKeys[..i] == emptyKeys;
    assert remaining == NonEmptyFields(info);
    arrangement := ArrangementEntity(remaining);
  }

  /** updateSerialNumber: writes the serial number into the record's
    * arrangement entity, in place. */
  function UpdateSerialNumber(r: Record, serial: int): (u: Record)
    ensures SERIAL_NUMBER_LABEL in u.arrangement && u.arrangement[SERIAL_NUMBER_LABEL] == Number(serial)
    ensures forall k :: k != SERIAL_NUMBER_LABEL ==>
      (k in u.arrangement <==> k in r.arrangement) &&
      (k in u.arrangement ==> u.arrangement[k] == r.arrangement[k])
    ensures u.id == r.id && u.obj == r.obj && u.events == r.events && u.entities == r.entities
  {
    r.(arrangement := r.arrangement[SERIAL_NUMBER_LABEL := Number(serial)])
  }
}
