// The file system as the transfer scripts see it: a map from path to
// contents, and the four operations they apply to it (shutil.copy,
// shutil.move, os.rename, os.remove). What lands at the destination of a
// copy is an input, so that a corrupted transfer can be modelled.

module Files {
  import opened Common

  type Bytes = seq<bv8>
  type FileSystem = map<string, Bytes>

  /** shutil.copy / copy2 from `src` to `dst`: `dst` now holds `landed`
    * (the source's bytes, unless the transfer was corrupted); every other
    * path is untouched. */
  function Copy(fs: FileSystem, dst: string, landed: Bytes): (r: FileSystem)
    ensures dst in r && r[dst] == landed
    ensures r.Keys == fs.Keys + {dst}
    ensures forall p :: p in fs && p != dst ==> r[p] == fs[p]
  {
    fs[dst := landed]
  }

  /** os.rename(src, dst) and shutil.move: the contents of `src` are now at
    * `dst`, and `src` is gone unless it is `dst` itself. */
  function Rename(fs: FileSystem, src: string, dst: string): (r: FileSystem)
    requires src in fs
    ensures dst in r && r[dst] == fs[src]
    ensures src != dst ==> src !in r
    ensures r.Keys == (fs.Keys - {src}) + {dst}
    ensures forall p :: p in fs && p != src && p != dst ==> r[p] == fs[p]
  {
    (fs - {src})[dst := fs[src]]
  }

  /** os.remove(path) of a file that exists. */
  function Remove(fs: FileSystem, path: string): (r: FileSystem)
    ensures path !in r
    ensures r.Keys == fs.Keys - {path}
    ensures forall p :: p in r ==> r[p] == fs[p]
  {
    fs - {path}
  }

  /** Renaming there and back restores the file system, when the target
    * did not exist before. */
  lemma RenameRoundTrip(fs: FileSystem, a: string, b: string)
    requires a in fs && b !in fs
    ensures Rename(Rename(fs, a, b), b, a) == fs
  {
    var r := Rename(Rename(fs, a, b), b, a);
    assert r.Keys == fs.Keys;
  }

  /** A copy to `p` renamed to `u` leaves the copied bytes at `u` and
    * nothing at `p`. */
  lemma CopyThenRename(fs: FileSystem, p: string, u: string, landed: Bytes)
    ensures Rename(Copy(fs, p, landed), p, u) == (fs - {p})[u := landed]
  {
    assert fs[p := landed] - {p} == fs - {p};
  }

  /** Removing a file that a copy has just created restores the file
    * system, when the destination did not exist before. */
  lemma CopyThenRemove(fs: FileSystem, dst: string, landed: Bytes)
    requires dst !in fs
    ensures Remove(Copy(fs, dst, landed), dst) == fs
  {
    assert Remove(Copy(fs, dst, landed), dst).Keys == fs.Keys;
  }

  // ---------------------------------------------------------------------
  // sorted(glob.glob(os.path.join(src, "*." + ext)))

  /** A path glob's pattern `*.ext` in `src` matches: a name in `src` that
    * does not start with '.' (glob hides those) and ends with ".ext". */
  predicate GlobMatch(p: string, src: string, ext: string)
  {
    var name := Basename(p);
    p == PathJoin(src, name) && name != [] && name[0] != '.'
    && |name| > |ext| && name[|name| - |ext| - 1..] == "." + ext
  }

  /** `list` is the sorted listing glob gives over the files of fs: in
    * strictly increasing order, holding exactly the matching files. */
  ghost predicate GlobOk(list: seq<string>, src: string, ext: string, fs: FileSystem)
  {
    (forall i, j :: 0 <= i < j < |list| ==> LexLess(list[i], list[j]))
    && (forall p :: p in list <==> p in fs && GlobMatch(p, src, ext))
  }

  /** There is one sorted listing: two lists that are both glob's sorted
    * listing of the same directory are equal. */
  lemma GlobDetermined(a: seq<string>, b: seq<string>, src: string, ext: string, fs: FileSystem)
    requires GlobOk(a, src, ext, fs) && GlobOk(b, src, ext, fs)
    ensures a == b
  {
    SortedSame(a, b);
  }

  /** A position of an element of a list. */
  lemma IndexOf(s: seq<string>, x: string) returns (i: nat)
    requires x in s
    ensures i < |s| && s[i] == x
  {
    i :| 0 <= i < |s| && s[i] == x;
  }

  lemma HeadLeast(s: seq<string>, i: nat)
    requires forall i, j :: 0 <= i < j < |s| ==> LexLess(s[i], s[j])
    requires i < |s|
    ensures i == 0 || LexLess(s[0], s[i])
  {
  }

  lemma Heads(s: seq<string>)
    ensures s != [] ==> s[0] in s
  {
  }

  /** Two strictly increasing lists of the same strings are equal. */
  lemma {:induction false} SortedSame(a: seq<string>, b: seq<string>)
    requires forall i, j :: 0 <= i < j < |a| ==> LexLess(a[i], a[j])
    requires forall i, j :: 0 <= i < j < |b| ==> LexLess(b[i], b[j])
    requires forall p :: p in a <==> p in b
    ensures a == b
    decreases |a|
  {
    Heads(a);
    Heads(b);
    if a == [] || b == [] {
      if a != b { assert false; }
    } else {
      var k := IndexOf(b, a[0]);
      var m := IndexOf(a, b[0]);
      LexLessTotal(a[0], b[0]);
      HeadLeast(b, k);
      HeadLeast(a, m);
      assert a[0] == b[0];
      forall p
        ensures p in a[1..] <==> p in b[1..]
      {
        if p in a[1..] {
          var i := IndexOf(a[1..], p);
          assert LexLess(a[0], a[i + 1]);
          LexLessTotal(p, p);
          assert p != b[0] && p in b;
          var j := IndexOf(b, p);
          assert b[1..][j - 1] == p;
        }
        if p in b[1..] {
          var i := IndexOf(b[1..], p);
          assert LexLess(b[0], b[i + 1]);
          LexLessTotal(p, p);
          assert p != a[0] && p in a;
          var j := IndexOf(a, p);
          assert a[1..][j - 1] == p;
        }
      }
      SortedSame(a[1..], b[1..]);
    }
  }
}
