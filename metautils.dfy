// The small helpers shared by every accession script: the format name of a
// file, the (placeholder) format version, the batch-file header test and the
// EDTF timestamp built from the local clock. The three copies of these
// helpers in the repository are the same expressions, so they are modelled
// once here.

module MetadataUtils {
  import opened Common

  /** The two mandatory batch-file columns (CSV_COL_1_NAME, CSV_COL_2_NAME). */
  const CSV_COL_1_NAME := "source"
  const CSV_COL_2_NAME := "destination"

  /** getFileFormatName: the upper-cased text after the last '.'. */
  function FileFormatName(fileName: string): (r: string)
    ensures |r| <= |fileName|
    ensures '.' !in r && forall i :: 0 <= i < |r| ==> !('a' <= r[i] <= 'z')
  {
    AfterLastShape(fileName, '.');
    Upper(AfterLast(fileName, '.'))
  }

  /** A name without a '.' is its own format name, upper-cased. */
  lemma FormatNameWithoutDot(fileName: string)
    requires '.' !in fileName
    ensures FileFormatName(fileName) == Upper(fileName)
  {
    AfterLastNoSep(fileName, '.');
  }

  /** The format name recorded for a file is the upper-cased extension that
    * also ends the name of its unique destination copy. */
  lemma FormatNameOfUniqueName(id: string, ext: string)
    requires '.' !in ext
    ensures FileFormatName(id + "." + ext) == Upper(ext)
  {
    AfterLastOfSuffix(id, ext, '.');
  }

  /** getFileFormatVersion: a stand-in that never reports a version. */
  function FileFormatVersion(fileName: string): (r: string)
    ensures |r| == 0
  {
    ""
  }

  /** isHeaderValid: `None` where indexing the header raises IndexError (an
    * empty header, or a one-column header whose first column is "source";
    * `and` does not evaluate hdr[1] when the first test fails). */
  function IsHeaderValid(hdr: seq<string>): (r: Option<bool>)
    ensures r == Some(true) <==> |hdr| >= 2 && hdr[0] == CSV_COL_1_NAME && hdr[1] == CSV_COL_2_NAME
    ensures r.None? <==> |hdr| == 0 || (|hdr| == 1 && hdr[0] == CSV_COL_1_NAME)
  {
    if |hdr| == 0 then None
    else if hdr[0] != CSV_COL_1_NAME then Some(false)
    else if |hdr| == 1 then None
    else Some(hdr[1] == CSV_COL_2_NAME)
  }

  /** getCurrentEDTFTimestamp, given the two strings read from the clock:
    * `iso` is datetime.now().isoformat('T') and `tz` is strftime('%z').
    * The fractional seconds (from the first '.') are dropped and a ':' is
    * spliced into the offset after its third character. */
  function EdtfTimestamp(iso: string, tz: string): (r: string)
    ensures |r| == |BeforeFirst(iso, '.')| + |tz| + 1
    ensures r[..|BeforeFirst(iso, '.')|] == BeforeFirst(iso, '.')
    ensures '.' !in r[..|BeforeFirst(iso, '.')|]
  {
    BeforeFirstShape(iso, '.');
    BeforeFirst(iso, '.') + SliceTo(tz, 3) + ":" + SliceFrom(tz, 3)
  }

  /** Taking the spliced ':' back out gives the whole-second time followed
    * by the offset exactly as strftime produced it. */
  lemma EdtfTimestampRoundTrip(iso: string, tz: string)
    ensures var ts := BeforeFirst(iso, '.');
            var k := |ts| + |SliceTo(tz, 3)|;
            var r := EdtfTimestamp(iso, tz);
            k < |r| && r[k] == ':' && r[..k] + r[k + 1..] == ts + tz
  {
    var ts := BeforeFirst(iso, '.');
    var r := EdtfTimestamp(iso, tz);
    var k := |ts| + |SliceTo(tz, 3)|;
    assert r == ts + SliceTo(tz, 3) + ":" + SliceFrom(tz, 3);
    assert r[..k] == ts + SliceTo(tz, 3);
    assert r[k + 1..] == SliceFrom(tz, 3);
    SlicesJoin(tz, 3);
  }

  predicate IsAsciiDigit(ch: char) { '0' <= ch <= '9' }

  /** The ISO 8601 combined date and time with a UTC offset in extended
    * format: YYYY-MM-DDThh:mm:ss±hh:mm. */
  predicate IsIsoDateTimeWithOffset(s: string)
  {
    |s| == 25 &&
    (forall i | i in {0, 1, 2, 3, 5, 6, 8, 9, 11, 12, 14, 15, 17, 18, 20, 21, 23, 24} :: IsAsciiDigit(s[i])) &&
    s[4] == '-' && s[7] == '-' && s[10] == 'T' && s[13] == ':' && s[16] == ':' &&
    (s[19] == '+' || s[19] == '-') && s[22] == ':'
  }

  /** The shape datetime.isoformat gives for local time: seconds with or
    * without a six-digit fraction. */
  predicate IsIsoLocal(iso: string)
  {
    (|iso| == 19 || (|iso| == 26 && iso[19] == '.' && forall i | 20 <= i < 26 :: IsAsciiDigit(iso[i]))) &&
    (forall i | i in {0, 1, 2, 3, 5, 6, 8, 9, 11, 12, 14, 15, 17, 18} :: IsAsciiDigit(iso[i])) &&
    iso[4] == '-' && iso[7] == '-' && iso[10] == 'T' && iso[13] == ':' && iso[16] == ':'
  }

  /** The shape strftime('%z') gives: a sign and four digits. */
  predicate IsOffset(tz: string)
  {
    |tz| == 5 && (tz[0] == '+' || tz[0] == '-') && forall i | 1 <= i < 5 :: IsAsciiDigit(tz[i])
  }

  /** For well-formed clock readings the result is an ISO 8601 combined
    * date-time with an extended-format UTC offset. */
  lemma EdtfTimestampIsIso(iso: string, tz: string)
    requires IsIsoLocal(iso) && IsOffset(tz)
    ensures IsIsoDateTimeWithOffset(EdtfTimestamp(iso, tz))
  {
    var ts := BeforeFirst(iso, '.');
    BeforeFirstShape(iso, '.');
    assert '.' !in iso[..19];
    if |iso| == 19 {
      assert '.' !in iso;
    } else {
      assert iso[19] == '.';
    }
    assert ts == iso[..19];
    var r := EdtfTimestamp(iso, tz);
    assert r == iso[..19] + tz[..3] + ":" + tz[3..];
  }
}
