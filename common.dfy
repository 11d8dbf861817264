// Shared value types and the handful of Python string operations the
// workflow scripts rely on (str.split, str.replace, str.upper,
// `in`, startswith, os.path.join/basename, list slicing, "%d" formatting and
// string ordering), each defined once and characterised by lemmas.

module Common {

  datatype Option<T> = None | Some(value: T)

  /** Where the code does not do what its own comments say it should, the
    * model runs either as the code is written or with that repair. */
  datatype Build = AsWritten | Intended

  // ---------------------------------------------------------------------
  // Substring search (Python `pat in s` and str.find)

  /** `pat` occurs in `s` starting at index `j`. */
  predicate OccursAt(s: string, pat: string, j: int)
  {
    0 <= j && j + |pat| <= |s| && s[j..j + |pat|] == pat
  }

  lemma OccursShift(s: string, pat: string, j: int)
    requires |s| > 0 && 1 <= j
    ensures OccursAt(s, pat, j) <==> OccursAt(s[1..], pat, j - 1)
  {
    if j + |pat| <= |s| {
      assert s[1..][j - 1..j - 1 + |pat|] == s[j..j + |pat|];
    }
  }

  /** Python `s.find(pat)`: the first index where `pat` occurs, or -1. */
  function Find(s: string, pat: string): (r: int)
    ensures -1 <= r <= |s|
    ensures r >= 0 ==> OccursAt(s, pat, r)
    ensures r >= 0 ==> forall j :: 0 <= j < r ==> !OccursAt(s, pat, j)
    ensures r < 0 ==> forall j :: !OccursAt(s, pat, j)
    decreases |s|
  {
    if |s| < |pat| then -1
    else if s[..|pat|] == pat then 0
    else
      var t := Find(s[1..], pat);
      assert forall j :: 1 <= j ==> (OccursAt(s, pat, j) <==> OccursAt(s[1..], pat, j - 1)) by {
        forall j | 1 <= j ensures OccursAt(s, pat, j) <==> OccursAt(s[1..], pat, j - 1) {
          OccursShift(s, pat, j);
        }
      }
      if t < 0 then -1 else t + 1
  }

  /** Python `pat in s`. */
  predicate Contains(s: string, pat: string)
  {
    Find(s, pat) >= 0
  }

  /** Python `s.startswith(p)`. */
  predicate StartsWith(s: string, p: string)
  {
    |p| <= |s| && s[..|p|] == p
  }

  lemma ContainsChar(s: string, c: char)
    ensures Contains(s, [c]) <==> c in s
  {
    if c in s {
      var j :| 0 <= j < |s| && s[j] == c;
      assert OccursAt(s, [c], j);
    }
    if Contains(s, [c]) {
      var j := Find(s, [c]);
      assert s[j..j + 1][0] == c;
    }
  }

  // ---------------------------------------------------------------------
  // str.split / str.join / str.replace

  /** Python `sep.join(parts)`. */
  function Join(parts: seq<string>, sep: string): string
  {
    if |parts| == 0 then ""
    else if |parts| == 1 then parts[0]
    else parts[0] + sep + Join(parts[1..], sep)
  }

  /** Python `s.split(sep)` for a non-empty separator: cut at every
    * occurrence, scanning left to right without overlap. */
  function Split(s: string, sep: string): (parts: seq<string>)
    requires |sep| > 0
    ensures |parts| >= 1
    decreases |s|
  {
    var i := Find(s, sep);
    if i < 0 then [s] else [s[..i]] + Split(s[i + |sep|..], sep)
  }

  /** The parts of a split join back into the text, and none of them holds
    * the separator. */
  lemma {:induction false} SplitSpec(s: string, sep: string)
    requires |sep| > 0
    ensures Join(Split(s, sep), sep) == s
    ensures forall i :: 0 <= i < |Split(s, sep)| ==> !Contains(Split(s, sep)[i], sep)
    decreases |s|
  {
    var i := Find(s, sep);
    if i >= 0 {
      var tail := s[i + |sep|..];
      var rest := Split(tail, sep);
      SplitSpec(tail, sep);
      assert !Contains(s[..i], sep) by {
        forall j | OccursAt(s[..i], sep, j) ensures false {
          assert s[..i][j..j + |sep|] == s[j..j + |sep|];
          assert OccursAt(s, sep, j);
        }
      }
      assert s == s[..i] + sep + tail;
      var parts := [s[..i]] + rest;
      assert Split(s, sep) == parts;
      assert parts[1..] == rest;
      forall k | 0 <= k < |parts| ensures !Contains(parts[k], sep) {
        if k > 0 { assert parts[k] == rest[k - 1]; }
      }
    }
  }

  /** Python `s.replace(pat, rep)` for a non-empty `pat`. */
  function Replace(s: string, pat: string, rep: string): (r: string)
    requires |pat| > 0
    ensures !Contains(s, pat) ==> r == s
  {
    Join(Split(s, pat), rep)
  }

  /** Python `s.split(c)[-1]`: the text after the last `c`, or all of `s`. */
  function AfterLast(s: string, c: char): string
  {
    var parts := Split(s, [c]);
    parts[|parts| - 1]
  }

  /** Python `s.split(c)[0]`: the text before the first `c`, or all of `s`. */
  function BeforeFirst(s: string, c: char): string
  {
    Split(s, [c])[0]
  }

  /** `r` is the end of `s` after its last `c`, or all of `s`. */
  predicate LastPart(s: string, c: char, r: string)
  {
    |r| <= |s| && r == s[|s| - |r|..] && c !in r && (|r| < |s| ==> s[|s| - |r| - 1] == c)
  }

  lemma {:induction false} AfterLastShape(s: string, c: char)
    ensures LastPart(s, c, AfterLast(s, c))
    decreases |s|
  {
    var i := Find(s, [c]);
    if i < 0 {
      AfterLastNoCut(s, c);
    } else {
      assert s[i..i + 1] == [c];
      var t := s[i + 1..];
      AfterLastStep(s, c, i);
      AfterLastShape(t, c);
      SuffixOfTail(s, i, c, AfterLast(t, c));
    }
  }

  /** Without any `c` to cut at, the text after the last `c` is all of `s`. */
  lemma AfterLastNoCut(s: string, c: char)
    requires Find(s, [c]) < 0
    ensures AfterLast(s, c) == s && c !in s
  {
    ContainsChar(s, c);
  }

  /** The last part of the text after position i, where `s[i]` is `c`, is
    * the last part of `s`. */
  lemma SuffixOfTail(s: string, i: int, c: char, r: string)
    requires 0 <= i < |s| && s[i..i + 1] == [c]
    requires LastPart(s[i + 1..], c, r)
    ensures LastPart(s, c, r)
  {
    var t := s[i + 1..];
    assert s[i] == c;
    assert t[|t| - |r|..] == s[|s| - |r|..];
    if |r| < |t| {
      assert t[|t| - |r| - 1] == s[|s| - |r| - 1];
    }
  }

  /** The text after the last `c` of `u + [c] + v`, where v holds no `c`,
    * is v. */
  lemma AfterLastOfSuffix(u: string, v: string, c: char)
    requires c !in v
    ensures AfterLast(u + [c] + v, c) == v
  {
    var s := u + [c] + v;
    var r := AfterLast(s, c);
    AfterLastShape(s, c);
    assert s[|s| - |v| - 1] == c;
    assert |r| == |v|;
  }

  lemma AfterLastStep(s: string, c: char, i: int)
    requires i == Find(s, [c]) && i >= 0
    ensures AfterLast(s, c) == AfterLast(s[i + 1..], c)
  {
    var sep := [c];
    assert |sep| == 1;
    var rest := Split(s[i + 1..], sep);
    var parts := [s[..i]] + rest;
    assert Split(s, sep) == parts;
    assert parts[|parts| - 1] == rest[|rest| - 1];
  }

  lemma AfterLastNoSep(s: string, c: char)
    requires c !in s
    ensures AfterLast(s, c) == s
  {
    ContainsChar(s, c);
  }

  lemma BeforeFirstShape(s: string, c: char)
    ensures var r := BeforeFirst(s, c);
      |r| <= |s| && r == s[..|r|] && c !in r &&
      (|r| < |s| ==> s[|r|] == c) &&
      (c !in s ==> r == s)
  {
    var r := BeforeFirst(s, c);
    var i := Find(s, [c]);
    SplitSpec(s, [c]);
    ContainsChar(r, c);
    ContainsChar(s, c);
    if i >= 0 {
      assert r == s[..i];
      assert s[i..i + 1] == [c];
    }
  }

  /** The text before the first `c` of `u + [c] + v`, where `u` has no `c`,
    * is `u`. */
  lemma BeforeFirstOfJoin(u: string, v: string, c: char)
    requires c !in u
    ensures BeforeFirst(u + [c] + v, c) == u
  {
    var s := u + [c] + v;
    var r := BeforeFirst(s, c);
    BeforeFirstShape(s, c);
    assert s[|u|] == c;
    assert r == s[..|u|] == u;
  }

  // ---------------------------------------------------------------------
  // str.upper

  function UpperChar(ch: char): char
  {
    if 'a' <= ch <= 'z' then (ch as int - 32) as char else ch
  }

  /** Python `s.upper()` on ASCII letters. */
  function Upper(s: string): (r: string)
    ensures |r| == |s|
    ensures forall i :: 0 <= i < |s| ==> !('a' <= r[i] <= 'z')
    ensures forall i :: 0 <= i < |s| && !('a' <= s[i] <= 'z') ==> r[i] == s[i]
    ensures forall i :: 0 <= i < |s| && 'a' <= s[i] <= 'z' ==> r[i] as int == s[i] as int - 32
  {
    if s == [] then [] else [UpperChar(s[0])] + Upper(s[1..])
  }

  lemma {:induction false} UpperIdempotent(s: string)
    ensures Upper(Upper(s)) == Upper(s)
  {
    var u := Upper(s);
    assert forall i :: 0 <= i < |u| ==> Upper(u)[i] == u[i];
  }

  // ---------------------------------------------------------------------
  // os.path.join / os.path.basename

  /** os.path.join(dir, name) for POSIX paths. */
  function PathJoin(dir: string, name: string): (r: string)
    ensures StartsWith(name, "/") ==> r == name
    ensures |r| >= |name|
    ensures !StartsWith(name, "/") ==> r[|r| - |name|..] == name && StartsWith(r, dir)
  {
    if StartsWith(name, "/") then name
    else if dir == [] || dir[|dir| - 1] == '/' then dir + name
    else dir + "/" + name
  }

  /** os.path.basename(path): the text after the last '/'. */
  function Basename(path: string): string
  {
    AfterLast(path, '/')
  }

  // ---------------------------------------------------------------------
  // Sequence slicing and number formatting

  /** Python `s[n:]` for any integer n (a negative n counts from the end). */
  function SliceFrom<T>(s: seq<T>, n: int): (r: seq<T>)
    ensures 0 <= n <= |s| ==> r == s[n..]
    ensures n >= |s| ==> r == []
    ensures |r| <= |s| && r == s[|s| - |r|..]
  {
    if n >= |s| then []
    else if n >= 0 then s[n..]
    else if |s| + n >= 0 then s[|s| + n..]
    else s
  }

  /** Python `s[:n]` for a non-negative n (the whole of s when n is past
    * its end). */
  function SliceTo<T>(s: seq<T>, n: nat): (r: seq<T>)
    ensures |r| == if n <= |s| then n else |s|
    ensures r == s[..|r|]
  {
    if n <= |s| then s[..n] else s
  }

  lemma SlicesJoin<T>(s: seq<T>, n: nat)
    ensures SliceTo(s, n) + SliceFrom(s, n) == s
  {
  }

  function DigitChar(d: nat): char
    requires d < 10
  {
    ['0', '1', '2', '3', '4', '5', '6', '7', '8', '9'][d]
  }

  predicate IsDigit(ch: char)
  {
    '0' <= ch <= '9'
  }

  /** "{}".format(n) for a non-negative int. */
  function NatToString(n: nat): (r: string)
    ensures |r| >= 1
    ensures forall i :: 0 <= i < |r| ==> IsDigit(r[i])
  {
    if n < 10 then [DigitChar(n)] else NatToString(n / 10) + [DigitChar(n % 10)]
  }

  /** Python int(s) on a string of decimal digits. */
  function DigitsValue(s: string): nat
    requires forall i :: 0 <= i < |s| ==> IsDigit(s[i])
  {
    if s == [] then 0
    else
      assert IsDigit(s[|s| - 1]);
      10 * DigitsValue(s[..|s| - 1]) + (s[|s| - 1] as int - '0' as int)
  }

  lemma {:induction false} NatToStringRoundTrip(n: nat)
    ensures DigitsValue(NatToString(n)) == n
  {
    var r := NatToString(n);
    DigitCharValue(n % 10);
    if n >= 10 {
      NatToStringRoundTrip(n / 10);
      assert r[..|r| - 1] == NatToString(n / 10);
      assert r[|r| - 1] == DigitChar(n % 10);
    } else {
      assert r[..0] == [];
    }
  }

  lemma DigitCharValue(d: nat)
    requires d < 10
    ensures DigitChar(d) as int - '0' as int == d
  {
  }

  // ---------------------------------------------------------------------
  // Python string ordering (lexicographic by code point)

  predicate LexLess(a: string, b: string)
  {
    if a == [] then b != []
    else if b == [] then false
    else if a[0] != b[0] then a[0] < b[0]
    else LexLess(a[1..], b[1..])
  }

  /** Python `a >= b` on strings. */
  predicate StrGe(a: string, b: string)
  {
    !LexLess(a, b)
  }

  lemma {:induction false} LexLessTotal(a: string, b: string)
    ensures a == b || LexLess(a, b) || LexLess(b, a)
    ensures !(LexLess(a, b) && LexLess(b, a))
    ensures !LexLess(a, a)
  {
    if a != [] && b != [] && a[0] == b[0] {
      LexLessTotal(a[1..], b[1..]);
      if a[1..] == b[1..] { assert a == [a[0]] + a[1..] && b == [b[0]] + b[1..]; }
    }
    if a != [] { LexLessTotal(a[1..], a[1..]); }
  }
}
