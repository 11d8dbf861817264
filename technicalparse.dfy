// Reading the output of ImageMagick's `identify` in technical.py: the
// version check run before anything else, and the parse of the verbose
// output into a property dictionary. Both cut the output into lines and
// each line at ": " into a key and a value stripped of spaces; a line that
// does not cut into exactly two parts raises ValueError, which nothing
// catches.

module TechnicalParse {
  import opened Common

  // ---------------------------------------------------------------------
  // str.strip(" ")

  /** Python `s.lstrip(c)` for one character `c`. */
  function DropLeading(s: string, c: char): (r: string)
    ensures |r| <= |s| && r == s[|s| - |r|..]
    ensures forall i :: 0 <= i < |s| - |r| ==> s[i] == c
    ensures r == [] || r[0] != c
  {
    if |s| > 0 && s[0] == c then DropLeading(s[1..], c) else s
  }

  /** Python `s.rstrip(c)` for one character `c`. */
  function DropTrailing(s: string, c: char): (r: string)
    ensures |r| <= |s| && r == s[..|r|]
    ensures forall i :: |r| <= i < |s| ==> s[i] == c
    ensures r == [] || r[|r| - 1] != c
  {
    if |s| > 0 && s[|s| - 1] == c then DropTrailing(s[..|s| - 1], c) else s
  }

  /** Python `s.strip(" ")`: only spaces are removed (a tab stays), and
    * the result neither starts nor ends with a space. */
  function StripSpaces(s: string): (r: string)
    ensures r == [] || (r[0] != ' ' && r[|r| - 1] != ' ')
  {
    var l := DropLeading(s, ' ');
    var r := DropTrailing(l, ' ');
    assert r != [] ==> r[0] == l[0];
    r
  }

  /** Stripping twice strips once. */
  lemma StripSpacesIdempotent(s: string)
    ensures StripSpaces(StripSpaces(s)) == StripSpaces(s)
  {
    var l := DropLeading(s, ' ');
    var r := DropTrailing(l, ' ');
    assert r != [] ==> r[0] == l[0];
    assert DropLeading(r, ' ') == r;
  }

  // ---------------------------------------------------------------------
  // Lines

  /** Python `lst.remove(x)`: drops the first element equal to `x`. */
  function RemoveFirst(s: seq<string>, x: string): (r: seq<string>)
    requires x in s
    ensures |r| == |s| - 1
    ensures multiset(r) == multiset(s) - multiset{x}
  {
    if s[0] == x then
      assert s == [s[0]] + s[1..];
      s[1..]
    else
      assert s == [s[0]] + s[1..];
      [s[0]] + RemoveFirst(s[1..], x)
  }

  /** The non-empty lines, in order. */
  function NonBlank(lines: seq<string>): (r: seq<string>)
    ensures forall l :: l in r <==> l in lines && l != ""
  {
    if lines == [] then []
    else (if lines[0] == "" then [] else [lines[0]]) + NonBlank(lines[1..])
  }

  /** Removing one empty line keeps the non-empty ones as they were. */
  lemma {:induction false} NonBlankRemove(lines: seq<string>)
    requires "" in lines
    ensures NonBlank(RemoveFirst(lines, "")) == NonBlank(lines)
  {
    if lines[0] != "" {
      NonBlankRemove(lines[1..]);
      var r := RemoveFirst(lines, "");
      assert r[0] == lines[0] && r[1..] == RemoveFirst(lines[1..], "");
    }
  }

  /** Lines without an empty one are all kept. */
  lemma {:induction false} NonBlankNone(lines: seq<string>)
    requires "" !in lines
    ensures NonBlank(lines) == lines
  {
    if lines != [] {
      assert lines[0] in lines;
      NonBlankNone(lines[1..]);
      assert lines == [lines[0]] + lines[1..];
    }
  }

  /** `while '' in lst: lst.remove('')`. */
  method RemoveBlanks(lines: seq<string>) returns (kept: seq<string>)
    ensures kept == NonBlank(lines)
  {
    kept := lines;
    while "" in kept
      invariant NonBlank(kept) == NonBlank(lines)
      decreases |kept|
    {
      NonBlankRemove(kept);
      kept := RemoveFirst(kept, "");
    }
    NonBlankNone(kept);
  }

  // ---------------------------------------------------------------------
  // Key and value of one line

  const SEP := ": "

  /** `key, value = item.split(": ")` with both stripped of spaces, or
    * None where the unpacking raises ValueError. */
  function KeyValue(item: string): (kv: Option<(string, string)>)
  {
    var parts := Split(item, SEP);
    if |parts| == 2 then Some((StripSpaces(parts[0]), StripSpaces(parts[1]))) else None
  }

  /** A text without the first character of `sep` does not contain `sep`. */
  lemma NoFirstChar(s: string, sep: string)
    requires |sep| > 0 && sep[0] !in s
    ensures !Contains(s, sep)
  {
  }

  /** Splitting a text without the separator gives the text itself. */
  lemma SplitWhole(s: string, sep: string)
    requires |sep| > 0 && !Contains(s, sep)
    ensures Split(s, sep) == [s]
  {
  }

  /** The first occurrence of `sep` in `k + sep + v` is right after `k`
    * when `k` does not contain `sep` and no occurrence can straddle the
    * end of `k`. */
  lemma FindAfter(k: string, v: string, sep: string)
    requires |sep| > 0 && !Contains(k, sep)
    requires forall j :: 0 <= j < |k| && |k| < j + |sep| ==> !OccursAt(k + sep + v, sep, j)
    ensures Find(k + sep + v, sep) == |k|
  {
    var s := k + sep + v;
    assert s[|k|..|k| + |sep|] == sep;
    assert OccursAt(s, sep, |k|);
    forall j | 0 <= j < |k| && j + |sep| <= |k| ensures !OccursAt(s, sep, j) {
      assert !OccursAt(k, sep, j);
      assert s[j..j + |sep|] == k[j..j + |sep|];
    }
  }

  /** `k + sep + v` splits into `k` and `v` when neither holds the first
    * character of `sep`. */
  lemma SplitAround(k: string, v: string, sep: string)
    requires |sep| > 0 && sep[0] !in k && sep[0] !in v
    ensures Split(k + sep + v, sep) == [k, v]
  {
    var s := k + sep + v;
    NoFirstChar(k, sep);
    NoFirstChar(v, sep);
    forall j | 0 <= j < |k| && |k| < j + |sep| ensures !OccursAt(s, sep, j) {
      assert s[j] == k[j];
    }
    FindAfter(k, v, sep);
    SplitTwo(k, v, sep);
  }

  /** `k + sep + v` splits into `k` and `v` when its first `sep` is the
    * one after `k` and `v` holds none. */
  lemma SplitTwo(k: string, v: string, sep: string)
    requires |sep| > 0 && Find(k + sep + v, sep) == |k| && !Contains(v, sep)
    ensures Split(k + sep + v, sep) == [k, v]
  {
    var s := k + sep + v;
    assert s[..|k|] == k;
    assert s[|k| + |sep|..] == v;
    SplitWhole(v, sep);
  }

  /** The first ": " of `k + ": " + v` is the one after `k` when `k` holds
    * none. */
  lemma FindSep(k: string, v: string)
    requires !Contains(k, SEP)
    ensures Find(k + SEP + v, SEP) == |k|
  {
    var item := k + SEP + v;
    forall j | 0 <= j < |k| && |k| < j + |SEP| ensures !OccursAt(item, SEP, j) {
      assert j + 1 == |k|;
      assert item[j + 1] == ':';
      assert item[j..j + 2][1] == ':';
    }
    FindAfter(k, v, SEP);
  }

  /** A text without ": ", then ": ", then another text without ": "
    * unpacks into those texts stripped of spaces. */
  lemma KeyValueOf(k: string, v: string)
    requires !Contains(k, SEP) && !Contains(v, SEP)
    ensures KeyValue(k + SEP + v) == Some((StripSpaces(k), StripSpaces(v)))
  {
    FindSep(k, v);
    SplitTwo(k, v, SEP);
  }

  /** Conversely, a line that unpacks is such a text: the line is its two
    * parts joined by ": ", neither of which holds ": ". */
  lemma KeyValueShape(item: string)
    requires KeyValue(item).Some?
    ensures var parts := Split(item, SEP);
      |parts| == 2 && item == parts[0] + SEP + parts[1]
      && !Contains(parts[0], SEP) && !Contains(parts[1], SEP)
      && KeyValue(item) == Some((StripSpaces(parts[0]), StripSpaces(parts[1])))
  {
    var parts := Split(item, SEP);
    SplitSpec(item, SEP);
    assert Join(parts, SEP) == parts[0] + SEP + Join(parts[1..], SEP);
    assert parts[1..] == [parts[1]];
  }

  // ---------------------------------------------------------------------
  // The dictionary of a list of lines

  /** The unpacked form of each line. */
  function KeyValues(items: seq<string>): (kvs: seq<Option<(string, string)>>)
    ensures |kvs| == |items|
  {
    seq(|items|, i requires 0 <= i < |items| => KeyValue(items[i]))
  }

  /** The dictionary the loop builds from unpacked lines, a later key
    * overwriting an earlier one, or None when some line raised. */
  function DictOf(kvs: seq<Option<(string, string)>>): (d: Option<map<string, string>>)
  {
    if kvs == [] then Some(map[])
    else
      var prev := DictOf(kvs[..|kvs| - 1]);
      var kv := kvs[|kvs| - 1];
      if prev.None? || kv.None? then None else Some(prev.value[kv.value.0 := kv.value.1])
  }

  /** The dictionary of a list of lines. */
  function Dict(items: seq<string>): Option<map<string, string>>
  {
    DictOf(KeyValues(items))
  }

  /** The dictionary exists exactly when every line unpacks. */
  lemma {:induction false} DictSome(kvs: seq<Option<(string, string)>>)
    ensures DictOf(kvs).Some? <==> forall i :: 0 <= i < |kvs| ==> kvs[i].Some?
  {
    if kvs != [] {
      var init := kvs[..|kvs| - 1];
      DictSome(init);
      assert forall i :: 0 <= i < |init| ==> init[i] == kvs[i];
    }
  }

  /** When it exists, each key holds the value of its last line. */
  lemma {:induction false} DictLastWins(kvs: seq<Option<(string, string)>>, i: nat)
    requires DictOf(kvs).Some? && i < |kvs| && kvs[i].Some?
    requires forall j :: i < j < |kvs| ==> kvs[j].Some? && kvs[j].value.0 != kvs[i].value.0
    ensures kvs[i].value.0 in DictOf(kvs).value
    ensures DictOf(kvs).value[kvs[i].value.0] == kvs[i].value.1
  {
    if i < |kvs| - 1 {
      var init := kvs[..|kvs| - 1];
      assert init[i] == kvs[i];
      assert forall j :: i < j < |init| ==> init[j] == kvs[j];
      DictLastWins(init, i);
    }
  }

  /** Conversely, every key of the dictionary comes from a line, and
    * holds the value of the last line with that key. */
  lemma {:induction false} DictLastEntry(kvs: seq<Option<(string, string)>>, key: string)
    requires DictOf(kvs).Some? && key in DictOf(kvs).value
    ensures exists i :: (0 <= i < |kvs| && kvs[i] == Some((key, DictOf(kvs).value[key]))
      && (forall j :: i < j < |kvs| ==> kvs[j].Some? && kvs[j].value.0 != key))
  {
    var init := kvs[..|kvs| - 1];
    if kvs[|kvs| - 1].value.0 != key {
      DictLastEntry(init, key);
      var i :| 0 <= i < |init| && init[i] == Some((key, DictOf(init).value[key]))
        && (forall j :: i < j < |init| ==> init[j].Some? && init[j].value.0 != key);
      assert init[i] == kvs[i];
      assert forall j :: i < j < |init| ==> init[j] == kvs[j];
    }
  }

  /** The dictionary of a single line. */
  lemma DictOne(kvs: seq<Option<(string, string)>>)
    requires |kvs| == 1
    ensures DictOf(kvs) == if kvs[0].None? then None else Some(map[kvs[0].value.0 := kvs[0].value.1])
  {
    assert kvs[..0] == [];
  }

  /** One more line extends the dictionary, or makes the whole list
    * raise. */
  lemma DictStep(kvs: seq<Option<(string, string)>>, i: nat, m: map<string, string>)
    requires i < |kvs| && DictOf(kvs[..i]) == Some(m)
    ensures kvs[i].Some? ==> DictOf(kvs[..i + 1]) == Some(m[kvs[i].value.0 := kvs[i].value.1])
    ensures kvs[i].None? ==> DictOf(kvs) == None
  {
    assert kvs[..i + 1][..i] == kvs[..i];
    DictSome(kvs);
  }

  /** The loop that unpacks the lines into a dictionary; it raises at the
    * first line that does not unpack. */
  method ToDict(items: seq<string>) returns (d: Option<map<string, string>>)
    ensures d == Dict(items)
  {
    ghost var kvs := KeyValues(items);
    var m: map<string, string> := map[];
    for i := 0 to |items|
      invariant DictOf(kvs[..i]) == Some(m)
    {
      var kv := Unpack(items, i);
      DictStep(kvs, i, m);
      if kv.None? {
        return None;
      }
      var (key, value) := kv.value;
      m := m[key := value];
    }
    assert kvs[..|items|] == kvs;
    d := Some(m);
  }

  /** `key, value = item.split(": ")`, then both stripped of spaces. */
  method Unpack(items: seq<string>, i: nat) returns (kv: Option<(string, string)>)
    requires i < |items|
    ensures kv == KeyValues(items)[i]
  {
    var parts := Split(items[i], SEP);
    if |parts| != 2 {
      return None;
    }
    var key := StripSpaces(parts[0]);
    var value := StripSpaces(parts[1]);
    kv := Some((key, value));
  }

  // ---------------------------------------------------------------------
  // The ImageMagick version check

  /** The check ends with the version line's value, with exit
    * ERROR_INSTALL_IMAGEMAGICK, or with ValueError. */
  datatype VersionCheck = Installed(ver: string) | NotInstalled | Raises

  /** The output of `identify -version` cut into its non-empty lines. */
  function VersionLines(output: string): seq<string>
  {
    NonBlank(Split(output, "\n"))
  }

  /** Some non-empty line lacks ": " (the loop exits on the first). */
  predicate HasBareLine(lines: seq<string>)
  {
    exists i :: 0 <= i < |lines| && !Contains(lines[i], SEP)
  }

  function CheckVersion(output: string): VersionCheck
  {
    var lines := VersionLines(output);
    if HasBareLine(lines) then NotInstalled
    else
      var version := Dict(lines);
      if version.None? then Raises
      else if "Version" in version.value && Contains(version.value["Version"], "ImageMagick") then
        Installed(version.value["Version"])
      else NotInstalled
  }

  /** The check run first in main: drop the empty lines, exit when a line
    * lacks ": ", unpack the lines into a dictionary, and require a
    * "Version" whose value mentions ImageMagick. */
  method CheckImageMagick(output: string) returns (r: VersionCheck)
    ensures r == CheckVersion(output)
  {
    var imgversion := Split(output, "\n");
    imgversion := RemoveBlanks(imgversion);
    for i := 0 to |imgversion|
      invariant forall j :: 0 <= j < i ==> Contains(imgversion[j], SEP)
    {
      if !Contains(imgversion[i], SEP) {
        return NotInstalled;
      }
    }
    var version := ToDict(imgversion);
    if version.None? {
      return Raises;
    }
    if "Version" in version.value {
      var ver := version.value["Version"];
      if !Contains(ver, "ImageMagick") {
        return NotInstalled;
      }
      return Installed(ver);
    }
    return NotInstalled;
  }

  /** The check accepts exactly the value of the last "Version" line,
    * when it mentions ImageMagick; it raises exactly when every line holds
    * ": " but some line does not unpack. */
  lemma VersionInstalled(output: string, ver: string)
    ensures CheckVersion(output) == Installed(ver) ==>
      var kvs := KeyValues(VersionLines(output));
      Contains(ver, "ImageMagick") &&
      exists i :: 0 <= i < |kvs| && kvs[i] == Some(("Version", ver))
        && (forall j :: i < j < |kvs| ==> kvs[j].Some? && kvs[j].value.0 != "Version")
    ensures CheckVersion(output).Raises? <==>
      var kvs := KeyValues(VersionLines(output));
      !HasBareLine(VersionLines(output)) && exists i :: 0 <= i < |kvs| && kvs[i].None?
  {
    var kvs := KeyValues(VersionLines(output));
    DictSome(kvs);
    if CheckVersion(output) == Installed(ver) {
      DictLastEntry(kvs, "Version");
    }
  }

  // ---------------------------------------------------------------------
  // The property dictionary of `identify -verbose`

  /** The lines holding ": ", in order. */
  function WithSeparator(lines: seq<string>): (data: seq<string>)
    ensures forall l :: l in data <==> l in lines && Contains(l, SEP)
  {
    if lines == [] then []
    else
      var last := lines[|lines| - 1];
      assert forall l :: l in lines <==> l in lines[..|lines| - 1] || l == last;
      WithSeparator(lines[..|lines| - 1]) + (if Contains(last, SEP) then [last] else [])
  }

  /** The loop that keeps the lines holding ": ". */
  method SeparatorLines(lines: seq<string>) returns (data: seq<string>)
    ensures data == WithSeparator(lines)
  {
    data := [];
    for i := 0 to |lines|
      invariant data == WithSeparator(lines[..i])
    {
      assert lines[..i + 1][..i] == lines[..i];
      if Contains(lines[i], SEP) {
        data := data + [lines[i]];
      }
    }
    assert lines[..|lines|] == lines;
  }

  /** `word.replace(':  ', ':')` as written: a colon followed by two spaces
    * loses both spaces. As intended, it keeps one, so that ": " still cuts
    * the line. */
  function Squeeze(line: string, build: Build): string
  {
    Replace(line, ":  ", if build == AsWritten then ":" else SEP)
  }

  function Squeezed(data: seq<string>, build: Build): (r: seq<string>)
    ensures |r| == |data|
  {
    seq(|data|, i requires 0 <= i < |data| => Squeeze(data[i], build))
  }

  /** The property dictionary of the verbose output, or None where an
    * unpacking raises. */
  function Properties(output: string, build: Build): Option<map<string, string>>
  {
    Dict(Squeezed(WithSeparator(Split(output, "\n")), build))
  }

  /** technicalRecord's parse of `identify -verbose`: keep the lines with
    * ": ", squeeze colons followed by two spaces, unpack into a dictionary. */
  method ReadProperties(output: string, build: Build) returns (prop: Option<map<string, string>>)
    ensures prop == Properties(output, build)
  {
    var lines := Split(output, "\n");
    var data := SeparatorLines(lines);
    data := seq(|data|, i requires 0 <= i < |data| => Squeeze(data[i], build));
    prop := ToDict(data);
  }

  /** The property of every line that holds ": " once the colons are
    * squeezed: the dictionary exists exactly when each such line unpacks,
    * and holds every key of the squeezed lines. */
  lemma PropertiesSome(output: string, build: Build)
    ensures var data := Squeezed(WithSeparator(Split(output, "\n")), build);
      Properties(output, build).Some? <==> forall i :: 0 <= i < |data| ==> KeyValue(data[i]).Some?
  {
    var data := Squeezed(WithSeparator(Split(output, "\n")), build);
    var kvs := KeyValues(data);
    DictSome(kvs);
    forall i | 0 <= i < |data| ensures kvs[i] == KeyValue(data[i]) {
      assert kvs[i] == KeyValue(data[i]);
    }
  }

  /** A line "key:  value" (two spaces after the colon), with no colon or
    * line break in the key or the value and a value not starting with a
    * space. */
  predicate TwoSpaceLine(k: string, v: string)
  {
    ':' !in k && ':' !in v && '\n' !in k && '\n' !in v && (v == [] || v[0] != ' ')
  }

  /** The one line of such an output is the one line kept. */
  lemma TwoSpaceKept(k: string, v: string)
    requires TwoSpaceLine(k, v)
    ensures WithSeparator(Split(k + ":  " + v, "\n")) == [k + ":  " + v]
  {
    var line := k + ":  " + v;
    NoFirstChar(line, "\n");
    SplitWhole(line, "\n");
    assert line[|k|..|k| + 2] == SEP;
    assert OccursAt(line, SEP, |k|);
    var none: seq<string> := [];
    assert [line][..0] == none;
  }

  /** Such a line is squeezed into the key, the squeezed separator, and the
    * value. */
  lemma TwoSpaceLineSqueeze(k: string, v: string, build: Build)
    requires TwoSpaceLine(k, v)
    ensures Squeeze(k + ":  " + v, build) == k + (if build == AsWritten then ":" else SEP) + v
  {
    SplitAround(k, v, ":  ");
    var rep := if build == AsWritten then ":" else SEP;
    assert Join([k, v], rep) == k + rep + Join([v], rep);
  }

  /** The one line of such an output is kept, and squeezed into the key, the
    * squeezed separator, and the value. */
  lemma TwoSpaceSqueeze(k: string, v: string, build: Build)
    requires TwoSpaceLine(k, v)
    ensures Squeezed(WithSeparator(Split(k + ":  " + v, "\n")), build)
         == [k + (if build == AsWritten then ":" else SEP) + v]
  {
    TwoSpaceKept(k, v);
    TwoSpaceLineSqueeze(k, v, build);
  }

  /** "key:value" with no other colon, and a value not starting with a
    * space, holds no ": ". */
  lemma NoSeparatorAfterColon(k: string, v: string)
    requires ':' !in k && ':' !in v && (v == [] || v[0] != ' ')
    ensures !Contains(k + ":" + v, SEP)
  {
    var w := k + ":" + v;
    forall j | 0 <= j && j + 2 <= |w| ensures !OccursAt(w, SEP, j) {
      assert w[j..j + 2][0] == w[j] && w[j..j + 2][1] == w[j + 1];
      if j < |k| {
        assert w[j] == k[j];
      } else if j > |k| {
        assert w[j] == v[j - |k| - 1];
      } else {
        assert w[j + 1] == v[0];
      }
    }
  }

  /** As written, a line "key:  value" loses the separator ": " when
    * squeezed and the unpacking raises: the run aborts on any image whose
    * verbose output holds such a line. */
  lemma TwoSpaceLineAsWrittenRaises(k: string, v: string)
    requires TwoSpaceLine(k, v)
    ensures Properties(k + ":  " + v, AsWritten).None?
  {
    TwoSpaceSqueeze(k, v, AsWritten);
    var w := k + ":" + v;
    assert Squeezed(WithSeparator(Split(k + ":  " + v, "\n")), AsWritten) == [w];
    NoSeparatorAfterColon(k, v);
    SplitWhole(w, SEP);
    var kvs := KeyValues([w]);
    assert kvs[0] == KeyValue(w);
    DictOne(kvs);
  }

  /** As intended, the same line yields the property `key` -> `value`
    * (both stripped of spaces). */
  lemma TwoSpaceLineIntendedParses(k: string, v: string)
    requires TwoSpaceLine(k, v)
    ensures Properties(k + ":  " + v, Intended) == Some(map[StripSpaces(k) := StripSpaces(v)])
  {
    TwoSpaceSqueeze(k, v, Intended);
    NoFirstChar(k, SEP);
    NoFirstChar(v, SEP);
    KeyValueOf(k, v);
    var kvs := KeyValues([k + SEP + v]);
    assert kvs[0] == KeyValue(k + SEP + v);
    DictOne(kvs);
  }
}
