// The CSV conventions the batch scripts share. A header marks some columns
// with a prefix ("ead:", "arrange:", a compliance marker). Each marked
// column is numbered from 1 and given a tag derived from its name. Each
// data row then becomes a dictionary from those tags to the row's
// columns. A row that is too short is rejected into the error list with a
// "Not a valid input" comment, padded with empty columns.

module Columns {
  import opened Common

  /** The prefix that marks an arrangement column, and the suffix its tag
    * takes unless the column names a name. */
  const ARRANGEMENT_INFO_MARKER := "arrange:"
  const ARRANGEMENT_INFO_LABEL_SUFFIX := "Label"

  /** The columns of `hdr` that start with `marker`, in order. */
  function Marked(hdr: seq<string>, marker: string): (cols: seq<string>)
    ensures |cols| <= |hdr|
    ensures forall c :: c in cols ==> c in hdr && StartsWith(c, marker)
    decreases |hdr|
  {
    if hdr == [] then []
    else
      var last := hdr[|hdr| - 1];
      Marked(hdr[..|hdr| - 1], marker) + (if StartsWith(last, marker) then [last] else [])
  }

  /** Every column of `hdr` that starts with `marker` is among the marked
    * columns. */
  lemma {:induction false} MarkedComplete(hdr: seq<string>, marker: string)
    ensures forall c :: c in hdr && StartsWith(c, marker) ==> c in Marked(hdr, marker)
    decreases |hdr|
  {
    if hdr != [] {
      MarkedComplete(hdr[..|hdr| - 1], marker);
      assert hdr == hdr[..|hdr| - 1] + [hdr[|hdr| - 1]];
    }
  }

  /** Extending the header by one column extends the marked columns by
    * that column if it is marked. */
  lemma MarkedSnoc(hdr: seq<string>, i: nat, marker: string)
    requires i < |hdr|
    ensures Marked(hdr[..i + 1], marker)
         == Marked(hdr[..i], marker) + (if StartsWith(hdr[i], marker) then [hdr[i]] else [])
  {
    assert hdr[..i + 1][..i] == hdr[..i];
  }

  /** The tag of every column of `cols`, in order. */
  function TagsOf(cols: seq<string>, tag: string -> string): (tags: seq<string>)
    ensures |tags| == |cols|
    ensures forall k :: 0 <= k < |cols| ==> tags[k] == tag(cols[k])
  {
    if cols == [] then []
    else TagsOf(cols[..|cols| - 1], tag) + [tag(cols[|cols| - 1])]
  }

  lemma TagsOfSnoc(cols: seq<string>, c: string, tag: string -> string)
    ensures TagsOf(cols + [c], tag) == TagsOf(cols, tag) + [tag(c)]
  {
    assert (cols + [c])[..|cols|] == cols;
  }

  /** The dictionary built from `row` after the first `n` tags: the k-th
    * tag (from 0) takes column `offset + k`, a later tag overwriting an
    * equal earlier one. */
  function Tagged(row: seq<string>, tags: seq<string>, offset: nat, n: nat): map<string, string>
    requires n <= |tags| && offset + |tags| <= |row|
  {
    if n == 0 then map[] else Tagged(row, tags, offset, n - 1)[tags[n - 1] := row[offset + n - 1]]
  }

  /** The dictionary's keys are exactly the tags. */
  lemma {:induction false} TaggedKeys(row: seq<string>, tags: seq<string>, offset: nat, n: nat)
    requires n <= |tags| && offset + |tags| <= |row|
    ensures Tagged(row, tags, offset, n).Keys == set j | 0 <= j < n :: tags[j]
  {
    if n > 0 {
      TaggedKeys(row, tags, offset, n - 1);
      assert (set j | 0 <= j < n :: tags[j]) == (set j | 0 <= j < n - 1 :: tags[j]) + {tags[n - 1]};
    }
  }

  /** Each tag maps to the column of its LAST occurrence. */
  lemma {:induction false} TaggedLastWins(row: seq<string>, tags: seq<string>, offset: nat, n: nat, j: nat)
    requires n <= |tags| && offset + |tags| <= |row|
    requires j < n && forall j' :: j < j' < n ==> tags[j'] != tags[j]
    ensures tags[j] in Tagged(row, tags, offset, n)
    ensures Tagged(row, tags, offset, n)[tags[j]] == row[offset + j]
  {
    if j < n - 1 {
      TaggedLastWins(row, tags, offset, n - 1, j);
    }
  }

  const NOT_VALID_INPUT := "Not a valid input"

  /** The number of empty columns a short row is padded with before its
    * comment: `minNumCols - len(row) - 1` as written (a negative count
    * gives none), `minNumCols - len(row)` as intended. */
  function PadCount(row: seq<string>, minNumCols: nat, build: Build): nat
  {
    var n := if build == AsWritten then minNumCols - |row| - 1 else minNumCols - |row|;
    if n < 0 then 0 else n
  }

  /** The error-list entry of a row shorter than `minNumCols`. */
  function RejectedRow(row: seq<string>, minNumCols: nat, build: Build): (e: seq<string>)
    ensures |e| == |row| + PadCount(row, minNumCols, build) + 1
    ensures e[..|row|] == row && e[|e| - 1] == NOT_VALID_INPUT
  {
    row + seq(PadCount(row, minNumCols, build), _ => "") + [NOT_VALID_INPUT]
  }

  /** As written, the comment of a short row lands in column
    * `minNumCols - 1`, and the entry has no column under "Comments" at all,
    * since the header has at least `minNumCols` columns. */
  lemma RejectedCommentMisaligned(hdr: seq<string>, row: seq<string>, minNumCols: nat)
    requires |row| < minNumCols <= |hdr|
    ensures var e := RejectedRow(row, minNumCols, AsWritten);
      |e| == minNumCols && e[minNumCols - 1] == NOT_VALID_INPUT && |e| <= |hdr|
  {
  }

  /** As intended, the comment lands in column `minNumCols`, under
    * "Comments" whenever the header is exactly the required columns. */
  lemma RejectedCommentAligned(hdr: seq<string>, row: seq<string>, minNumCols: nat)
    requires |row| < minNumCols && |hdr| == minNumCols
    ensures var e := RejectedRow(row, minNumCols, Intended);
      var h := hdr + ["Comments"];
      |e| == |h| && e[|hdr|] == NOT_VALID_INPUT && h[|hdr|] == "Comments"
  {
  }

  /** The rows with at least `minNumCols` columns, in order. */
  function Long(rows: seq<seq<string>>, minNumCols: nat): (kept: seq<seq<string>>)
    ensures |kept| <= |rows|
    ensures forall r :: r in kept ==> r in rows && |r| >= minNumCols
  {
    if rows == [] then []
    else
      var last := rows[|rows| - 1];
      Long(rows[..|rows| - 1], minNumCols) + (if |last| >= minNumCols then [last] else [])
  }

  /** The error-list entries of the short rows, in order. */
  function Rejections(rows: seq<seq<string>>, minNumCols: nat, build: Build): (errs: seq<seq<string>>)
    ensures |errs| + |Long(rows, minNumCols)| == |rows|
  {
    if rows == [] then []
    else
      var last := rows[|rows| - 1];
      Rejections(rows[..|rows| - 1], minNumCols, build)
        + (if |last| < minNumCols then [RejectedRow(last, minNumCols, build)] else [])
  }

  /** The loop that reads the rows after the header: short rows go to the
    * error list, the others to the list of rows to process. */
  method SplitRows(rows: seq<seq<string>>, minNumCols: nat, build: Build)
    returns (accepted: seq<seq<string>>, rejected: seq<seq<string>>)
    ensures accepted == Long(rows, minNumCols)
    ensures rejected == Rejections(rows, minNumCols, build)
  {
    accepted := [];
    rejected := [];
    for i := 0 to |rows|
      invariant accepted == Long(rows[..i], minNumCols)
      invariant rejected == Rejections(rows[..i], minNumCols, build)
    {
      SplitSnoc(rows, i, minNumCols, build);
      var row := rows[i];
      if |row| < minNumCols {
        var emptyStrings := seq(PadCount(row, minNumCols, build), _ => "");
        rejected := rejected + [row + emptyStrings + [NOT_VALID_INPUT]];
      } else {
        accepted := accepted + [row];
      }
    }
    assert rows[..|rows|] == rows;
  }

  lemma SplitSnoc(rows: seq<seq<string>>, i: nat, minNumCols: nat, build: Build)
    requires i < |rows|
    ensures Long(rows[..i + 1], minNumCols) == Long(rows[..i], minNumCols) + (if |rows[i]| >= minNumCols then [rows[i]] else [])
    ensures Rejections(rows[..i + 1], minNumCols, build)
         == Rejections(rows[..i], minNumCols, build) + (if |rows[i]| < minNumCols then [RejectedRow(rows[i], minNumCols, build)] else [])
  {
    assert rows[..i + 1][..i] == rows[..i];
  }

  lemma {:induction false} RejectionsNonEmpty(rows: seq<seq<string>>, minNumCols: nat, build: Build, i: nat)
    requires i < |rows| && |rows[i]| < minNumCols
    ensures |Rejections(rows, minNumCols, build)| > 0
    decreases |rows|
  {
    if i < |rows| - 1 {
      assert rows[..|rows| - 1][i] == rows[i];
      RejectionsNonEmpty(rows[..|rows| - 1], minNumCols, build, i);
    }
  }

  /** The tag of an arrange: column: the text after its last ':', followed
    * by "Label" unless the column mentions "name". */
  function NameOrLabelTag(col: string): string
  {
    if Contains(col, "name") then AfterLast(col, ':') else AfterLast(col, ':') + ARRANGEMENT_INFO_LABEL_SUFFIX
  }

  /** The tag of the column "arrange:X", for an X without ':', is X itself
    * when the column mentions "name" and X + "Label" otherwise. */
  lemma NameOrLabelTagOf(x: string)
    requires ':' !in x
    ensures NameOrLabelTag(ARRANGEMENT_INFO_MARKER + x) ==
      (if Contains(ARRANGEMENT_INFO_MARKER + x, "name") then x else x + ARRANGEMENT_INFO_LABEL_SUFFIX)
  {
    assert ARRANGEMENT_INFO_MARKER + x == "arrange" + [':'] + x;
    AfterLastOfSuffix("arrange", x, ':');
  }

  function NameOrLabelTagsOf(hdr: seq<string>): seq<string>
  {
    TagsOf(Marked(hdr, ARRANGEMENT_INFO_MARKER), NameOrLabelTag)
  }

  /** The loop that numbers the header's arrange: columns:
    * tags[k] is arrangementInfoTags[k + 1]. */
  method NameOrLabelTags(hdr: seq<string>) returns (tags: seq<string>)
    ensures tags == NameOrLabelTagsOf(hdr)
  {
    tags := [];
    for i := 0 to |hdr|
      invariant tags == TagsOf(Marked(hdr[..i], ARRANGEMENT_INFO_MARKER), NameOrLabelTag)
    {
      MarkedSnoc(hdr, i, ARRANGEMENT_INFO_MARKER);
      if StartsWith(hdr[i], ARRANGEMENT_INFO_MARKER) {
        TagsOfSnoc(Marked(hdr[..i], ARRANGEMENT_INFO_MARKER), hdr[i], NameOrLabelTag);
        var tag := AfterLast(hdr[i], ':');
        if !Contains(hdr[i], "name") {
          tag := tag + ARRANGEMENT_INFO_LABEL_SUFFIX;
        }
        tags := tags + [tag];
      }
    }
    assert hdr[..|hdr|] == hdr;
  }

  /** The arrangement dictionary of a row: tag k (from 0) takes column k;
    * None (IndexError) when the row has fewer columns than tags. */
  function InfoOf(row: seq<string>, tags: seq<string>): Option<map<string, string>>
  {
    if |row| < |tags| then None else Some(Tagged(row, tags, 0, |tags|))
  }

  /** The loop that fills the arrangement dictionary of a row. */
  method ArrangementInfo(row: seq<string>, tags: seq<string>) returns (info: Option<map<string, string>>)
    ensures info == InfoOf(row, tags)
  {
    if |row| < |tags| {
      return None;
    }
    var m := map[];
    for arrangementId := 1 to |tags| + 1
      invariant m == Tagged(row, tags, 0, arrangementId - 1)
    {
      m := m[tags[arrangementId - 1] := row[arrangementId - 1]];
    }
    info := Some(m);
  }
}
