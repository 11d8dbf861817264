// The empty shell of a compliance-metadata profile and the header check of
// the compliance CSV (metadatautilspkg/compliancemetadatautils.py).
//
// The shell has a fixed shape: a record type, a retention schedule and a
// disposition (each with an authority), and an access entity. It has
// fifteen leaves, which the compliance workflow later fills one by one.

module ComplianceProfile {
  import opened Common
  import opened Records

  /** The name of the record entity the profile is stored under; the
    * compliance workflow also tests `"compliance" in rec` literally. */
  const COMPLIANCE_ENTITY := "compliance"

  /** The number of leaves of the profile. */
  const NUM_LEAVES := 15

  /** The path of each leaf, in the order the compliance workflow fills
    * them. */
  const LEAF_PATHS: seq<seq<Label>> := [
    [RecordType],
    [RetentionSchedule, Authority, AuthorityName],
    [RetentionSchedule, Authority, AuthorityUrl],
    [RetentionSchedule, Authority, AuthorityAffiliation],
    [RetentionSchedule, InitiatingEvent],
    [RetentionSchedule, Duration],
    [RetentionSchedule, Url],
    [RetentionSchedule, EffectiveDate],
    [Disposition, Authority, AuthorityName],
    [Disposition, Authority, AuthorityUrl],
    [Disposition, Authority, AuthorityAffiliation],
    [Disposition, DispositionMethod],
    [Disposition, Url],
    [Disposition, EffectiveDate],
    [Access, Demographic]]

  /** An authority entity with the given name, url and affiliation. */
  function AuthorityEntity(name: Doc, url: Doc, affiliation: Doc): Doc
  {
    Obj(map[AuthorityName := name, AuthorityUrl := url, AuthorityAffiliation := affiliation])
  }

  /** The compliance entity whose k-th leaf (in LEAF_PATHS order) is v[k]. */
  function Entity(v: seq<Doc>): Doc
    requires |v| == NUM_LEAVES
  {
    Obj(map[
      RecordType := v[0],
      RetentionSchedule := Obj(map[
        Authority := AuthorityEntity(v[1], v[2], v[3]),
        InitiatingEvent := v[4], Duration := v[5], Url := v[6], EffectiveDate := v[7]]),
      Disposition := Obj(map[
        Authority := AuthorityEntity(v[8], v[9], v[10]),
        DispositionMethod := v[11], Url := v[12], EffectiveDate := v[13]]),
      Access := Obj(map[Demographic := v[14]])])
  }

  /** The k-th leaf path leads to v[k]. */
  lemma EntityLeaf(v: seq<Doc>, k: nat)
    requires |v| == NUM_LEAVES && k < NUM_LEAVES
    ensures At(Entity(v), LEAF_PATHS[k]) == Some(v[k])
  {
    var e := Entity(v);
    var p := LEAF_PATHS[k];
    if |p| == 3 {
      assert p[1..][1..][1..] == [];
    } else if |p| == 2 {
      assert p[1..][1..] == [];
    } else {
      assert p[1..] == [];
    }
  }

  /** The inner entities and their keys do not depend on the leaves: the
    * top level holds record type, retention schedule, disposition and
    * access; both schedules hold an authority {name, url, affiliation}, a
    * url and an effective date, the retention schedule adds the initiating
    * event and the duration, the disposition adds the method; access holds
    * the demographic. */
  lemma EntityShape(v: seq<Doc>)
    requires |v| == NUM_LEAVES
    ensures var e := Entity(v);
      e.Obj? && e.fields.Keys == {RecordType, RetentionSchedule, Disposition, Access}
      && Child(e, RetentionSchedule).fields.Keys == {Authority, InitiatingEvent, Duration, Url, EffectiveDate}
      && Child(e, Disposition).fields.Keys == {Authority, DispositionMethod, Url, EffectiveDate}
      && Child(e, Access).fields.Keys == {Demographic}
      && Child(Child(e, RetentionSchedule), Authority).fields.Keys == {AuthorityName, AuthorityUrl, AuthorityAffiliation}
      && Child(Child(e, Disposition), Authority).fields.Keys == {AuthorityName, AuthorityUrl, AuthorityAffiliation}
  {
  }

  /** createComplianceProfile: the compliance entity with `{}` at every
    * leaf. */
  function CreateComplianceProfile(): (p: map<string, Doc>)
    ensures p.Keys == {COMPLIANCE_ENTITY}
    ensures forall k :: 0 <= k < NUM_LEAVES ==> At(p[COMPLIANCE_ENTITY], LEAF_PATHS[k]) == Some(EMPTY)
  {
    var leaves := seq(NUM_LEAVES, _ => EMPTY);
    forall k | 0 <= k < NUM_LEAVES
      ensures At(Entity(leaves), LEAF_PATHS[k]) == Some(EMPTY)
    {
      EntityLeaf(leaves, k);
    }
    map[COMPLIANCE_ENTITY := Entity(leaves)]
  }

  /** isFileHeaderValid: the first two columns are the expected names
    * (CSV_COM_COL_1_NAME and CSV_COM_COL_2_NAME, which
    * metadatautilspkg/globalvars.py does not define, so they are
    * parameters). Indexing a
    * column that is not there raises IndexError: `None`. */
  function IsFileHeaderValid(firstRow: seq<string>, col1Name: string, col2Name: string): (r: Option<bool>)
    ensures r == Some(true) <==> |firstRow| >= 2 && firstRow[0] == col1Name && firstRow[1] == col2Name
    ensures r.None? <==> |firstRow| == 0 || (|firstRow| == 1 && firstRow[0] == col1Name)
  {
    if |firstRow| == 0 then None
    else if firstRow[0] != col1Name then Some(false)
    else if |firstRow| == 1 then None
    else Some(firstRow[1] == col2Name)
  }
}
