// The derivative workflow (derivatives.py). It checks that ImageMagick is
// installed, reads the command line (CSV file, source and destination file
// types, resize value) and the CSV of directories. For every directory it
// walks the tree; for every file it names the derivative after the file's
// stem, the resize value and the destination type, refuses to go on when a
// file of that name is already listed beside it, and otherwise, when the
// record named by the stem holds a technical entity, issues the `convert`
// command for the geometry chosen from the recorded resolutions and appends
// a migration event to that record.

module Derivatives {
  import opened Common
  import opened Records
  import RecordStore
  import TechnicalParse
  import TechnicalProfile

  const ERROR_INVALID_ARGUMENT_STRING := "e01"
  const ERROR_CANNOT_OPEN_CSV_FILE := "e02"
  const ERROR_INVALID_HEADER_ROW := "e05"
  const ERROR_CANNOT_FIND_DIRECTORY := "e16"
  const ERROR_INSTALL_IMAGEMAGICK := "e19"
  const ERROR_FILE_ARGUMENT := "e22"

  const MSG_INVALID_HEADER_ROW := "The header in the input CSV file is invalid."
  const MSG_CANNOT_FIND_DIRECTORY := Template("Cannot find the filepath directory. '", "'.")
  const MSG_INSTALL_IMAGEMAGICK := "Image Magick is not installed."
  const MSG_FILE_ARGUMENT := "Required argument '-f' not passed in the command line."

  /** A message template with one `{}`: the text before it and after it. */
  datatype Template = Template(head: string, tail: string)

  /** `t.format(arg)`. */
  function Fill(t: Template, arg: string): string
  {
    t.head + arg + t.tail
  }

  /** An entry of the error-code module: the exit code and the message. */
  datatype ErrorCode = ErrorCode(code: string, message: string)

  /** What the script reads from the error-code and global-variable modules
    * that those modules do not define: the code and message template for an
    * existing derivative, the entries for a missing `-s` and for an empty
    * destination type and resize value, and the value `globalvars.resize`
    * holds before the command line is read. */
  datatype Globals = Globals(fileExistsCode: string, fileExistsMessage: Template, sourceType: ErrorCode,
                             destTypeResize: ErrorCode, resize: string)

  // ---------------------------------------------------------------------
  // The command line

  /** The command line after argparse: the number of arguments and the
    * value of each option (None when it is not given). */
  datatype Args = Args(count: nat, file: Option<string>, sourceType: Option<string>,
                       destType: Option<string>, resize: Option<string>)

  /** The globals parseCommandLineArgs sets. */
  datatype Options = Options(csvFile: string, sourceType: string, destType: string, resize: string)

  /** The options, or the exit code and the message written to the report
    * (None when the script exits without one). */
  datatype Parsed = Parsed(opts: Options) | Refused(code: string, msg: Option<string>)

  /** parseCommandLineArgs. `-f` and `-s` are required; the destination type
    * defaults to the source type and the resize value to the global's own;
    * the two may not both be empty. */
  function ParseSpec(g: Globals, a: Args): (p: Parsed)
    ensures p.Parsed? ==> p.opts.destType != "" || p.opts.resize != ""
    ensures p.Parsed? ==> a.count > 0 && a.file == Some(p.opts.csvFile) && a.sourceType == Some(p.opts.sourceType)
    ensures p.Parsed? ==> p.opts.destType == (if a.destType.Some? then a.destType.value else p.opts.sourceType)
    ensures p.Parsed? ==> p.opts.resize == (if a.resize.Some? then a.resize.value else g.resize)
  {
    if a.count == 0 then Refused(ERROR_INVALID_ARGUMENT_STRING, None)
    else if a.file.None? then Refused(ERROR_FILE_ARGUMENT, Some(MSG_FILE_ARGUMENT))
    else if a.sourceType.None? then Refused(g.sourceType.code, Some(g.sourceType.message))
    else
      var destType := if a.destType.Some? then a.destType.value else a.sourceType.value;
      var resize := if a.resize.Some? then a.resize.value else g.resize;
      if destType == "" && resize == "" then Refused(g.destTypeResize.code, Some(g.destTypeResize.message))
      else Parsed(Options(a.file.value, a.sourceType.value, destType, resize))
  }

  /** The refusals, in the order the checks are made: no arguments at all
    * (the only one without a report), no `-f`, no `-s`, and an empty
    * destination type with an empty resize value. */
  lemma ParseRefusals(g: Globals, a: Args)
    ensures var p := ParseSpec(g, a);
      (p == Refused(ERROR_INVALID_ARGUMENT_STRING, None) <==> a.count == 0) &&
      (p == Refused(ERROR_FILE_ARGUMENT, Some(MSG_FILE_ARGUMENT)) <== a.count > 0 && a.file.None?) &&
      (p == Refused(g.sourceType.code, Some(g.sourceType.message)) <== a.count > 0 && a.file.Some? && a.sourceType.None?) &&
      (p.Refused? <==>
         (a.count == 0 || a.file.None? || a.sourceType.None? ||
          ((if a.destType.Some? then a.destType.value else a.sourceType.value) == "" &&
           (if a.resize.Some? then a.resize.value else g.resize) == "")))
  {
  }

  /** parseCommandLineArgs, setting the globals one after the other. */
  method ParseCommandLineArgs(g: Globals, a: Args) returns (p: Parsed)
    ensures p == ParseSpec(g, a)
  {
    if a.count == 0 {
      return Refused(ERROR_INVALID_ARGUMENT_STRING, None);
    }
    if a.file.None? {
      return Refused(ERROR_FILE_ARGUMENT, Some(MSG_FILE_ARGUMENT));
    }
    var csvFile := a.file.value;
    if a.sourceType.None? {
      return Refused(g.sourceType.code, Some(g.sourceType.message));
    }
    var sourceType := a.sourceType.value;
    var destType := sourceType;
    if a.destType.Some? {
      destType := a.destType.value;
    }
    var resize := g.resize;
    if a.resize.Some? {
      resize := a.resize.value;
    }
    if destType == "" && resize == "" {
      return Refused(g.destTypeResize.code, Some(g.destTypeResize.message));
    }
    p := Parsed(Options(csvFile, sourceType, destType, resize));
  }

  // ---------------------------------------------------------------------
  // The derivative's name and geometry

  /** "_".join([stem, resize]) and ".".join([that, destType]), where the
    * stem is the file name before its first '.'. */
  function DerivedName(name: string, resize: string, destType: string): string
  {
    BeforeFirst(name, '.') + "_" + resize + "." + destType
  }

  /** With no '.' in the resize value or the destination type, the
    * derivative's own stem is the source's stem, '_' and the resize value,
    * and its extension is the destination type. Its stem is never the
    * source's, so the derivative is never looked up as its source's record. */
  lemma DerivedNameParts(name: string, resize: string, destType: string)
    requires '.' !in resize && '.' !in destType
    ensures BeforeFirst(DerivedName(name, resize, destType), '.') == BeforeFirst(name, '.') + "_" + resize
    ensures AfterLast(DerivedName(name, resize, destType), '.') == destType
    ensures BeforeFirst(DerivedName(name, resize, destType), '.') != BeforeFirst(name, '.')
  {
    var stem := BeforeFirst(name, '.');
    BeforeFirstShape(name, '.');
    var u := stem + "_" + resize;
    assert '.' !in u by {
      assert forall k :: 0 <= k < |u| ==> u[k] == (if k < |stem| then stem[k] else if k == |stem| then '_' else resize[k - |stem| - 1]);
    }
    assert DerivedName(name, resize, destType) == u + ['.'] + destType;
    BeforeFirstOfJoin(u, destType, '.');
    AfterLastOfSuffix(u, destType, '.');
  }

  /** The `-resize` geometry: the resize value replaces the x resolution
    * when it is not below the y resolution (Python's string `>=`), and the
    * y resolution otherwise. */
  function Geometry(xRes: string, yRes: string, resize: string): string
  {
    if StrGe(xRes, yRes) then resize + "x" + yRes else xRes + "x" + resize
  }

  /** Of two different resolutions, the smaller one is kept on its own axis
    * and the resize value takes the other, whichever order they come in;
    * equal resolutions keep the y one. */
  lemma GeometryKeepsLesser(x: string, y: string, resize: string)
    ensures x != y ==> LexLess(x, y) || LexLess(y, x)
    ensures LexLess(x, y) ==> Geometry(x, y, resize) == x + "x" + resize && Geometry(y, x, resize) == resize + "x" + x
    ensures LexLess(y, x) ==> Geometry(x, y, resize) == resize + "x" + y && Geometry(y, x, resize) == y + "x" + resize
    ensures x == y ==> Geometry(x, y, resize) == resize + "x" + y
  {
    LexLessTotal(x, y);
  }

  // ---------------------------------------------------------------------
  // The run's state

  /** One directory of the walk: its path and the names of its files. */
  datatype Listing = Listing(path: string, files: seq<string>)

  /** The arguments of createMigrationEvent. */
  datatype MigrationInfo = MigrationInfo(destType: string, geometry: string, width: Doc, height: Doc, derived: string)

  /** The command `convert <source> -resize <geometry> <dest>`. */
  datatype Command = Convert(source: string, geometry: string, dest: string)

  /** What the run takes from outside: os.path.isdir, the listings os.walk
    * yields top-down, os.path.abspath, and the migration event built the
    * n-th time (createMigrationEvent is not part of this model). */
  datatype Env = Env(isDir: string -> bool, walk: string -> seq<Listing>, abspath: string -> string,
                     migrate: (nat, MigrationInfo) -> Event)

  /** Everything fixed once the command line is read. */
  datatype Setup = Setup(build: Build, g: Globals, env: Env, opts: Options)

  /** The record store, the number of migration events built, the
    * derivative error list, the technical error list the script also
    * appends to, the reports written and the commands issued. */
  datatype State = State(store: RecordStore.Store, n: nat, errors: seq<seq<string>>,
                         technicalErrors: seq<seq<string>>, reports: seq<seq<seq<string>>>,
                         commands: seq<Command>)

  /** How the run ends, or that it carries on. */
  datatype Ending = Running | Exited(code: string) | Crashed

  /** errorCSV: the derivative error list, when it is not empty, is
    * written as a report. */
  function ErrorCSV(s: State): State
  {
    if |s.errors| > 0 then s.(reports := s.reports + [s.errors]) else s
  }

  /** An error message added to the list, the report written, and exit. */
  function Fail(s: State, msg: string, code: string): (Ending, State)
  {
    (Exited(code), ErrorCSV(s.(errors := s.errors + [[msg]])))
  }

  // ---------------------------------------------------------------------
  // One file

  /** The resolutions and the size a technical entity records. */
  datatype Dimensions = Dimensions(xRes: string, yRes: string, width: Doc, height: Doc)

  /** The `image` fields of a technical entity; None when one is missing
    * (KeyError) or when the resolutions are not both text (the comparison
    * or the join raises TypeError). */
  function DimensionsOf(tech: Doc): Option<Dimensions>
  {
    var x := At(tech, [Label.Image, XResolution]);
    var y := At(tech, [Label.Image, YResolution]);
    var w := At(tech, [Label.Image, Width]);
    var h := At(tech, [Label.Image, Length]);
    if x.None? || y.None? || w.None? || h.None? then None
    else if !x.value.Str? || !y.value.Str? then None
    else Some(Dimensions(x.value.s, y.value.s, w.value, h.value))
  }

  /** os.path.sep.join([dir, name]). */
  function SepJoin(dir: string, name: string): string
  {
    dir + "/" + name
  }

  /** The directory the command names for a file of listing `l`: the
    * absolute path of the walked top directory as written, that of the
    * listing's own directory when repaired. */
  function CommandDir(c: Setup, top: string, l: Listing): string
  {
    if c.build.AsWritten? then c.env.abspath(top) else c.env.abspath(l.path)
  }

  /** The derivation of file `name` from the record `stem`: the command,
    * and the record written back with the migration event appended. */
  function Derive(c: Setup, dir: string, name: string, stem: string, d: Dimensions, s: State): State
    requires stem in s.store
  {
    var derived := DerivedName(name, c.opts.resize, c.opts.destType);
    var geometry := Geometry(d.xRes, d.yRes, c.opts.resize);
    var evt := c.env.migrate(s.n, MigrationInfo(c.opts.destType, geometry, d.width, d.height, derived));
    var doc := s.store[stem];
    s.(store := RecordStore.WriteBack(s.store, stem, doc.(events := doc.events + [evt])),
       n := s.n + 1,
       commands := s.commands + [Convert(SepJoin(dir, name), geometry, SepJoin(dir, derived))])
  }

  /** The visit of file `name` of listing `l`. A derivative already listed
    * beside it ends the run with a report; a file whose stem names no
    * record, or a record without a technical entity, is passed over. */
  function FileStep(c: Setup, top: string, l: Listing, name: string, s: State): (Ending, State)
  {
    var derived := DerivedName(name, c.opts.resize, c.opts.destType);
    var stem := BeforeFirst(name, '.');
    if derived in l.files then Fail(s, Fill(c.g.fileExistsMessage, derived), c.g.fileExistsCode)
    else if stem !in s.store || TechnicalProfile.TECH_ENTITY !in s.store[stem].entities then (Running, s)
    else
      match DimensionsOf(s.store[stem].entities[TechnicalProfile.TECH_ENTITY])
      case None => (Crashed, s)
      case Some(d) => (Running, Derive(c, CommandDir(c, top, l), name, stem, d, s))
  }

  // ---------------------------------------------------------------------
  // The loops

  /** The files of one listing, in order, until one ends the run. */
  function FilesSpec(c: Setup, top: string, l: Listing, names: seq<string>, s: State): (Ending, State)
    decreases |names|
  {
    if names == [] then (Running, s)
    else
      var r := FileStep(c, top, l, names[0], s);
      if r.0.Running? then FilesSpec(c, top, l, names[1..], r.1) else r
  }

  /** derivativeRecord: the listings of the walk, in order. */
  function WalkSpec(c: Setup, top: string, ls: seq<Listing>, s: State): (Ending, State)
    decreases |ls|
  {
    if ls == [] then (Running, s)
    else
      var r := FilesSpec(c, top, ls[0], ls[0].files, s);
      if r.0.Running? then WalkSpec(c, top, ls[1..], r.1) else r
  }

  /** One CSV row: its first column names the directory to walk. A row
    * without columns raises IndexError. A missing directory ends the run;
    * as written its message goes to the technical error list, which no
    * report of this script reads. */
  function RowStep(c: Setup, row: seq<string>, s: State): (Ending, State)
  {
    if row == [] then (Crashed, s)
    else if !c.env.isDir(row[0]) then
      var msg := Fill(MSG_CANNOT_FIND_DIRECTORY, row[0]);
      if c.build.AsWritten? then
        (Exited(ERROR_CANNOT_FIND_DIRECTORY), ErrorCSV(s.(technicalErrors := s.technicalErrors + [[msg]])))
      else Fail(s, msg, ERROR_CANNOT_FIND_DIRECTORY)
    else WalkSpec(c, row[0], c.env.walk(row[0]), s)
  }

  /** The rows, in order, until one ends the run. */
  function RowsSpec(c: Setup, rows: seq<seq<string>>, s: State): (Ending, State)
    decreases |rows|
  {
    if rows == [] then (Running, s)
    else
      var r := RowStep(c, rows[0], s);
      if r.0.Running? then RowsSpec(c, rows[1..], r.1) else r
  }

  /** The CSV file: None when it cannot be opened, otherwise its first row
    * (None for an empty file) and the rows after it. */
  datatype Csv = Csv(firstRow: Option<seq<string>>, rows: seq<seq<string>>)

  /** The opening of the CSV file and the header check; every row after the
    * header is kept. An empty file makes `len(None)` raise. */
  function CsvSpec(c: Setup, csv: Option<Csv>, s: State): (Ending, State)
  {
    if csv.None? then (Exited(ERROR_CANNOT_OPEN_CSV_FILE), s)
    else if csv.value.firstRow.None? then (Crashed, s)
    else if csv.value.firstRow.value == [] then Fail(s, MSG_INVALID_HEADER_ROW, ERROR_INVALID_HEADER_ROW)
    else RowsSpec(c, csv.value.rows, s)
  }

  /** main, given the verdict of the ImageMagick check on the output of
    * `identify -version` (the same check technical.py makes), from empty
    * error lists, no report and no command. */
  function RunSpec(build: Build, g: Globals, env: Env, version: TechnicalParse.VersionCheck, args: Args,
                   csv: Option<Csv>, store: RecordStore.Store): (Ending, State)
  {
    var s := State(store, 0, [], [], [], []);
    match version
    case Raises => (Crashed, s)
    case NotInstalled => Fail(s, MSG_INSTALL_IMAGEMAGICK, ERROR_INSTALL_IMAGEMAGICK)
    case Installed(_) =>
      match ParseSpec(g, args)
      case Refused(code, msg) => if msg.None? then (Exited(code), s) else Fail(s, msg.value, code)
      case Parsed(opts) => CsvSpec(Setup(build, g, env, opts), csv, s)
  }

  // ---------------------------------------------------------------------
  // The script, loop by loop

  /** The inner loop of derivativeRecord over the files of one listing. */
  method DeriveFiles(c: Setup, top: string, l: Listing, s: State) returns (e: Ending, t: State)
    ensures (e, t) == FilesSpec(c, top, l, l.files, s)
  {
    e, t := Running, s;
    var i := 0;
    assert l.files[0..] == l.files;
    while i < |l.files|
      invariant 0 <= i <= |l.files|
      invariant FilesSpec(c, top, l, l.files[i..], t) == FilesSpec(c, top, l, l.files, s)
    {
      var r := FileStep(c, top, l, l.files[i], t);
      assert l.files[i..][1..] == l.files[i + 1..];
      if !r.0.Running? {
        return r.0, r.1;
      }
      t := r.1;
      i := i + 1;
    }
  }

  /** derivativeRecord: the walk of `top`, listing by listing. */
  method DerivativeRecord(c: Setup, top: string, s: State) returns (e: Ending, t: State)
    ensures (e, t) == WalkSpec(c, top, c.env.walk(top), s)
  {
    var ls := c.env.walk(top);
    e, t := Running, s;
    var i := 0;
    assert ls[0..] == ls;
    while i < |ls|
      invariant 0 <= i <= |ls|
      invariant WalkSpec(c, top, ls[i..], t) == WalkSpec(c, top, ls, s)
    {
      var e', t' := DeriveFiles(c, top, ls[i], t);
      assert ls[i..][1..] == ls[i + 1..];
      if !e'.Running? {
        return e', t';
      }
      t := t';
      i := i + 1;
    }
  }

  /** The loop of main over the rows of the CSV file. */
  method ProcessRows(c: Setup, rows: seq<seq<string>>, s: State) returns (e: Ending, t: State)
    ensures (e, t) == RowsSpec(c, rows, s)
  {
    e, t := Running, s;
    var i := 0;
    assert rows[0..] == rows;
    while i < |rows|
      invariant 0 <= i <= |rows|
      invariant RowsSpec(c, rows[i..], t) == RowsSpec(c, rows, s)
    {
      var row := rows[i];
      assert rows[i..][1..] == rows[i + 1..];
      if row == [] {
        return Crashed, t;
      }
      var filePath := row[0];
      if !c.env.isDir(filePath) {
        var msg := Fill(MSG_CANNOT_FIND_DIRECTORY, filePath);
        if c.build.AsWritten? {
          t := t.(technicalErrors := t.technicalErrors + [[msg]]);
        } else {
          t := t.(errors := t.errors + [[msg]]);
        }
        return Exited(ERROR_CANNOT_FIND_DIRECTORY), ErrorCSV(t);
      }
      var e', t' := DerivativeRecord(c, filePath, t);
      if !e'.Running? {
        return e', t';
      }
      t := t';
      i := i + 1;
    }
  }

  /** main. */
  method RunDerivatives(build: Build, g: Globals, env: Env, version: TechnicalParse.VersionCheck, args: Args,
                        csv: Option<Csv>, store: RecordStore.Store) returns (e: Ending, t: State)
    ensures (e, t) == RunSpec(build, g, env, version, args, csv, store)
  {
    t := State(store, 0, [], [], [], []);
    if version.Raises? {
      return Crashed, t;
    }
    if version.NotInstalled? {
      e, t := Exited(ERROR_INSTALL_IMAGEMAGICK), ErrorCSV(t.(errors := t.errors + [[MSG_INSTALL_IMAGEMAGICK]]));
      return;
    }
    var p := ParseCommandLineArgs(g, args);
    if p.Refused? {
      if p.msg.None? {
        return Exited(p.code), t;
      }
      e, t := Exited(p.code), ErrorCSV(t.(errors := t.errors + [[p.msg.value]]));
      return;
    }
    var c := Setup(build, g, env, p.opts);
    if csv.None? {
      return Exited(ERROR_CANNOT_OPEN_CSV_FILE), t;
    }
    var firstRow := csv.value.firstRow;
    if firstRow.None? {
      return Crashed, t;
    }
    if |firstRow.value| == 0 {
      e, t := Exited(ERROR_INVALID_HEADER_ROW), ErrorCSV(t.(errors := t.errors + [[MSG_INVALID_HEADER_ROW]]));
      return;
    }
    e, t := ProcessRows(c, csv.value.rows, t);
  }

  // ---------------------------------------------------------------------
  // What one file does

  /** A derivative already listed beside the file ends the run: the message
    * is reported, and nothing is converted or written. */
  lemma ExistingDerivativeEnds(c: Setup, top: string, l: Listing, name: string, s: State)
    requires DerivedName(name, c.opts.resize, c.opts.destType) in l.files
    ensures var r := FileStep(c, top, l, name, s);
      r.0 == Exited(c.g.fileExistsCode) && r.1.store == s.store && r.1.commands == s.commands &&
      r.1.reports == s.reports + [s.errors + [[Fill(c.g.fileExistsMessage, DerivedName(name, c.opts.resize, c.opts.destType))]]]
  {
  }

  /** The derivation appends the migration event, built from the destination
    * type, the geometry, the recorded size and the derivative's name, to the
    * record named by the stem, changes no other field and no other record,
    * and issues the one command that converts the file into the
    * derivative in the same directory. */
  lemma DeriveAppendsMigration(c: Setup, dir: string, name: string, stem: string, d: Dimensions, s: State)
    requires RecordStore.Keyed(s.store) && stem in s.store
    ensures var t := Derive(c, dir, name, stem, d, s);
      var derived := DerivedName(name, c.opts.resize, c.opts.destType);
      var geometry := Geometry(d.xRes, d.yRes, c.opts.resize);
      t.store.Keys == s.store.Keys &&
      t.store[stem] == s.store[stem].(events := s.store[stem].events +
                         [c.env.migrate(s.n, MigrationInfo(c.opts.destType, geometry, d.width, d.height, derived))]) &&
      (forall id :: id in s.store && id != stem ==> t.store[id] == s.store[id]) &&
      t.commands == s.commands + [Convert(SepJoin(dir, name), geometry, SepJoin(dir, derived))] &&
      t.n == s.n + 1 && t.errors == s.errors && t.reports == s.reports
  {
    var doc := s.store[stem];
    assert doc.entities + doc.entities == doc.entities;
  }

  // ---------------------------------------------------------------------
  // What the whole run does to the store

  /** `r2` is `r1` with events appended, every other field unchanged. */
  predicate Grown(r1: Record, r2: Record)
  {
    r2.(events := r1.events) == r1 && |r1.events| <= |r2.events| && r2.events[..|r1.events|] == r1.events
  }

  /** The same records, each one only grown by appended events. */
  predicate EventsAppended(a: RecordStore.Store, b: RecordStore.Store)
  {
    a.Keys == b.Keys && forall id :: id in a ==> Grown(a[id], b[id])
  }

  /** From `s` to `t`: records only gain events, one migration event is
    * built per command issued, and the earlier commands stay. */
  predicate Advances(s: State, t: State)
  {
    EventsAppended(s.store, t.store) && s.n <= t.n && |s.commands| <= |t.commands| &&
    t.n - s.n == |t.commands| - |s.commands| && t.commands[..|s.commands|] == s.commands &&
    (RecordStore.Keyed(s.store) ==> RecordStore.Keyed(t.store))
  }

  /** No error recorded and no report written. */
  predicate Quiet(s: State, t: State)
  {
    t.errors == s.errors && t.technicalErrors == s.technicalErrors && t.reports == s.reports
  }

  lemma AdvancesTransitive(s: State, t: State, u: State)
    requires Advances(s, t) && Advances(t, u)
    ensures Advances(s, u)
  {
    forall id | id in s.store ensures Grown(s.store[id], u.store[id]) {
      var a, b, e := s.store[id], t.store[id], u.store[id];
      assert e.events[..|b.events|][..|a.events|] == e.events[..|a.events|];
    }
    assert u.commands[..|t.commands|][..|s.commands|] == u.commands[..|s.commands|];
  }

  lemma FileStepAdvances(c: Setup, top: string, l: Listing, name: string, s: State)
    requires RecordStore.Keyed(s.store)
    ensures var r := FileStep(c, top, l, name, s);
      Advances(s, r.1) && (r.0.Running? ==> Quiet(s, r.1))
  {
    var derived := DerivedName(name, c.opts.resize, c.opts.destType);
    var stem := BeforeFirst(name, '.');
    var r := FileStep(c, top, l, name, s);
    if derived !in l.files && stem in s.store && TechnicalProfile.TECH_ENTITY in s.store[stem].entities {
      var d := DimensionsOf(s.store[stem].entities[TechnicalProfile.TECH_ENTITY]);
      if d.Some? {
        var t := Derive(c, CommandDir(c, top, l), name, stem, d.value, s);
        DeriveAppendsMigration(c, CommandDir(c, top, l), name, stem, d.value, s);
        assert s.store[stem].events + [c.env.migrate(s.n, MigrationInfo(c.opts.destType,
          Geometry(d.value.xRes, d.value.yRes, c.opts.resize), d.value.width, d.value.height, derived))]
          == t.store[stem].events;
        assert t.store[stem].events[..|s.store[stem].events|] == s.store[stem].events;
        assert t.commands[..|s.commands|] == s.commands;
        assert r.1 == t;
      }
    }
  }

  lemma {:induction false} FilesAdvance(c: Setup, top: string, l: Listing, names: seq<string>, s: State)
    requires RecordStore.Keyed(s.store)
    ensures var r := FilesSpec(c, top, l, names, s);
      Advances(s, r.1) && (r.0.Running? ==> Quiet(s, r.1))
    decreases |names|
  {
    if names != [] {
      var r := FileStep(c, top, l, names[0], s);
      FileStepAdvances(c, top, l, names[0], s);
      if r.0.Running? {
        FilesAdvance(c, top, l, names[1..], r.1);
        AdvancesTransitive(s, r.1, FilesSpec(c, top, l, names[1..], r.1).1);
      }
    }
  }

  lemma {:induction false} WalkAdvances(c: Setup, top: string, ls: seq<Listing>, s: State)
    requires RecordStore.Keyed(s.store)
    ensures var r := WalkSpec(c, top, ls, s);
      Advances(s, r.1) && (r.0.Running? ==> Quiet(s, r.1))
    decreases |ls|
  {
    if ls != [] {
      var r := FilesSpec(c, top, ls[0], ls[0].files, s);
      FilesAdvance(c, top, ls[0], ls[0].files, s);
      if r.0.Running? {
        WalkAdvances(c, top, ls[1..], r.1);
        AdvancesTransitive(s, r.1, WalkSpec(c, top, ls[1..], r.1).1);
      }
    }
  }

  lemma RowStepAdvances(c: Setup, row: seq<string>, s: State)
    requires RecordStore.Keyed(s.store)
    ensures var r := RowStep(c, row, s);
      Advances(s, r.1) && (r.0.Running? ==> Quiet(s, r.1))
  {
    if row != [] && c.env.isDir(row[0]) {
      WalkAdvances(c, row[0], c.env.walk(row[0]), s);
    } else {
      assert forall id :: id in s.store ==> Grown(s.store[id], s.store[id]);
      assert s.commands[..|s.commands|] == s.commands;
    }
  }

  lemma {:induction false} RowsAdvance(c: Setup, rows: seq<seq<string>>, s: State)
    requires RecordStore.Keyed(s.store)
    ensures var r := RowsSpec(c, rows, s);
      Advances(s, r.1) && (r.0.Running? ==> Quiet(s, r.1))
    decreases |rows|
  {
    if rows == [] {
      assert forall id :: id in s.store ==> Grown(s.store[id], s.store[id]);
      assert s.commands[..|s.commands|] == s.commands;
    } else {
      var r := RowStep(c, rows[0], s);
      RowStepAdvances(c, rows[0], s);
      if r.0.Running? {
        RowsAdvance(c, rows[1..], r.1);
        AdvancesTransitive(s, r.1, RowsSpec(c, rows[1..], r.1).1);
      }
    }
  }

  /** Over the whole run, on a store keyed by `_id`: every record keeps
    * every field but its events, to which it only gains; one migration
    * event is built per `convert` command; and a run that reaches the end
    * of the CSV file has written no report. */
  lemma RunAppendsOnly(build: Build, g: Globals, env: Env, version: TechnicalParse.VersionCheck, args: Args,
                       csv: Option<Csv>, store: RecordStore.Store)
    requires RecordStore.Keyed(store)
    ensures var r := RunSpec(build, g, env, version, args, csv, store);
      EventsAppended(store, r.1.store) && RecordStore.Keyed(r.1.store) && r.1.n == |r.1.commands| &&
      (r.0.Running? ==> r.1.reports == [] && r.1.errors == [])
  {
    var s := State(store, 0, [], [], [], []);
    if version.Installed? && ParseSpec(g, args).Parsed? && csv.Some? && csv.value.firstRow.Some? &&
       csv.value.firstRow.value != [] {
      RowsAdvance(Setup(build, g, env, ParseSpec(g, args).opts), csv.value.rows, s);
    }
    assert forall id :: id in store ==> Grown(store[id], store[id]);
  }

  // ---------------------------------------------------------------------
  // A missing directory

  /** A row naming a missing directory ends the run with the
    * missing-directory code. As written its message goes to the technical
    * error list and only the derivative errors already listed are reported;
    * repaired, the report holds the message. */
  lemma MissingDirectoryRow(c: Setup, row: seq<string>, s: State)
    requires row != [] && !c.env.isDir(row[0])
    ensures var r := RowStep(c, row, s);
      var msg := Fill(MSG_CANNOT_FIND_DIRECTORY, row[0]);
      r.0 == Exited(ERROR_CANNOT_FIND_DIRECTORY) && r.1.store == s.store && r.1.commands == s.commands &&
      (c.build.AsWritten? ==> r.1.technicalErrors == s.technicalErrors + [[msg]] &&
                              r.1.reports == (if s.errors == [] then s.reports else s.reports + [s.errors])) &&
      (c.build.Intended? ==> r.1.reports == s.reports + [s.errors + [[msg]]])
  {
  }

  /** The state in which the rows of the CSV file are visited. */
  lemma RunReachesRows(build: Build, g: Globals, env: Env, version: TechnicalParse.VersionCheck, args: Args,
                       csv: Option<Csv>, store: RecordStore.Store)
    requires version.Installed? && ParseSpec(g, args).Parsed?
    requires csv.Some? && csv.value.firstRow.Some? && csv.value.firstRow.value != []
    ensures RunSpec(build, g, env, version, args, csv, store) ==
      RowsSpec(Setup(build, g, env, ParseSpec(g, args).opts), csv.value.rows, State(store, 0, [], [], [], []))
  {
  }

  /** As written: when the first directory of the CSV file does not exist,
    * the run exits with the missing-directory code, and its message lands
    * on the technical error list, so no report is written at all. */
  lemma MissingDirectoryAsWrittenUnreported(g: Globals, env: Env, version: TechnicalParse.VersionCheck, args: Args,
                                            csv: Option<Csv>, store: RecordStore.Store)
    requires version.Installed? && ParseSpec(g, args).Parsed?
    requires csv.Some? && csv.value.firstRow.Some? && csv.value.firstRow.value != []
    requires csv.value.rows != [] && csv.value.rows[0] != [] && !env.isDir(csv.value.rows[0][0])
    ensures var r := RunSpec(AsWritten, g, env, version, args, csv, store);
      r.0 == Exited(ERROR_CANNOT_FIND_DIRECTORY) && r.1.reports == [] &&
      r.1.technicalErrors == [[Fill(MSG_CANNOT_FIND_DIRECTORY, csv.value.rows[0][0])]]
  {
    var rows := csv.value.rows;
    var c := Setup(AsWritten, g, env, ParseSpec(g, args).opts);
    var s := State(store, 0, [], [], [], []);
    RunReachesRows(AsWritten, g, env, version, args, csv, store);
    MissingDirectoryRow(c, rows[0], s);
    assert RowsSpec(c, rows, s) == RowStep(c, rows[0], s);
  }

  /** Repaired: the message goes to the derivative error list, and the
    * report holding it is written before the exit. */
  lemma MissingDirectoryIntendedReported(g: Globals, env: Env, version: TechnicalParse.VersionCheck, args: Args,
                                         csv: Option<Csv>, store: RecordStore.Store)
    requires version.Installed? && ParseSpec(g, args).Parsed?
    requires csv.Some? && csv.value.firstRow.Some? && csv.value.firstRow.value != []
    requires csv.value.rows != [] && csv.value.rows[0] != [] && !env.isDir(csv.value.rows[0][0])
    ensures var r := RunSpec(Intended, g, env, version, args, csv, store);
      r.0 == Exited(ERROR_CANNOT_FIND_DIRECTORY) &&
      r.1.reports == [[[Fill(MSG_CANNOT_FIND_DIRECTORY, csv.value.rows[0][0])]]]
  {
    var rows := csv.value.rows;
    var c := Setup(Intended, g, env, ParseSpec(g, args).opts);
    var s := State(store, 0, [], [], [], []);
    RunReachesRows(Intended, g, env, version, args, csv, store);
    MissingDirectoryRow(c, rows[0], s);
    assert RowsSpec(c, rows, s) == RowStep(c, rows[0], s);
    var msg := Fill(MSG_CANNOT_FIND_DIRECTORY, rows[0][0]);
    assert s.errors + [[msg]] == [[msg]];
    assert s.reports + [[[msg]]] == [[[msg]]];
  }

  // ---------------------------------------------------------------------
  // Files in subdirectories

  /** As written: for a file of a subdirectory the command names the file
    * and its derivative under the walked top directory. With
    * `<stem>.<ext>` only in a subdirectory, the command's source is a name
    * the top directory does not hold, so convert has nothing to read and
    * produces no derivative; the record of `<stem>` is still given a
    * migration event naming the derivative. */
  lemma SubdirectoryAsWrittenConvertsMissing(c: Setup, top: string, sub: string, stem: string, ext: string, s: State)
    requires c.build.AsWritten? && RecordStore.Keyed(s.store)
    requires '.' !in stem && '.' !in c.opts.resize && '.' !in c.opts.destType
    requires var existing := stem + "_" + c.opts.resize + "." + c.opts.destType;
      c.env.walk(top) == [Listing(top, [existing]), Listing(sub, [stem + "." + ext])]
    requires stem + "_" + c.opts.resize !in s.store
    requires stem in s.store && TechnicalProfile.TECH_ENTITY in s.store[stem].entities
    requires DimensionsOf(s.store[stem].entities[TechnicalProfile.TECH_ENTITY]).Some?
    ensures var derived := stem + "_" + c.opts.resize + "." + c.opts.destType;
      var d := DimensionsOf(s.store[stem].entities[TechnicalProfile.TECH_ENTITY]).value;
      var r := WalkSpec(c, top, c.env.walk(top), s);
      r.0 == Running && |r.1.commands| == |s.commands| + 1 &&
      r.1.commands[|s.commands|].source == SepJoin(c.env.abspath(top), stem + "." + ext) &&
      stem + "." + ext !in c.env.walk(top)[0].files && stem + "." + ext in c.env.walk(top)[1].files &&
      stem in r.1.store &&
      r.1.store[stem].events == s.store[stem].events +
        [c.env.migrate(s.n, MigrationInfo(c.opts.destType, Geometry(d.xRes, d.yRes, c.opts.resize), d.width, d.height, derived))]
  {
    var ls := c.env.walk(top);
    var name := stem + "." + ext;
    var existing := stem + "_" + c.opts.resize + "." + c.opts.destType;
    TopFilePassedOver(c, top, ls[0], stem, s);
    SubFileConverted(c, top, ls[1], stem, ext, s);
    assert name != existing by {
      assert name[|stem|] == '.' && existing[|stem|] == '_';
    }
    assert FilesSpec(c, top, ls[0], ls[0].files, s) == (Running, s);
    var r1 := FileStep(c, top, ls[1], name, s);
    assert FilesSpec(c, top, ls[1], ls[1].files, s) == r1;
    assert WalkSpec(c, top, ls[1..], s) == r1;
  }

  /** The listed derivative, whose own stem names no record, is passed
    * over. */
  lemma TopFilePassedOver(c: Setup, top: string, l: Listing, stem: string, s: State)
    requires '.' !in stem && '.' !in c.opts.resize && '.' !in c.opts.destType
    requires l.files == [stem + "_" + c.opts.resize + "." + c.opts.destType]
    requires stem + "_" + c.opts.resize !in s.store
    ensures FileStep(c, top, l, l.files[0], s) == (Running, s)
  {
    var name := l.files[0];
    DerivedNameParts(stem + "." + c.opts.destType, c.opts.resize, c.opts.destType);
    BeforeFirstOfJoin(stem, c.opts.destType, '.');
    assert stem + "." + c.opts.destType == stem + ['.'] + c.opts.destType;
    assert DerivedName(stem + "." + c.opts.destType, c.opts.resize, c.opts.destType) == name;
    DerivedNameParts(name, c.opts.resize, c.opts.destType);
    var twice := DerivedName(name, c.opts.resize, c.opts.destType);
    assert |twice| > |name| by {
      assert BeforeFirst(name, '.') == stem + "_" + c.opts.resize;
    }
  }

  /** The file of the subdirectory is converted into the derivative under
    * the walked top directory. */
  lemma SubFileConverted(c: Setup, top: string, l: Listing, stem: string, ext: string, s: State)
    requires c.build.AsWritten? && RecordStore.Keyed(s.store) && '.' !in stem && l.files == [stem + "." + ext]
    requires stem in s.store && TechnicalProfile.TECH_ENTITY in s.store[stem].entities
    requires DimensionsOf(s.store[stem].entities[TechnicalProfile.TECH_ENTITY]).Some?
    ensures var derived := stem + "_" + c.opts.resize + "." + c.opts.destType;
      var d := DimensionsOf(s.store[stem].entities[TechnicalProfile.TECH_ENTITY]).value;
      var r := FileStep(c, top, l, stem + "." + ext, s);
      r.0 == Running && |r.1.commands| == |s.commands| + 1 &&
      r.1.commands[|s.commands|].source == SepJoin(c.env.abspath(top), stem + "." + ext) &&
      r.1.commands[|s.commands|].dest == SepJoin(c.env.abspath(top), derived) &&
      stem in r.1.store &&
      r.1.store[stem].events == s.store[stem].events +
        [c.env.migrate(s.n, MigrationInfo(c.opts.destType, Geometry(d.xRes, d.yRes, c.opts.resize), d.width, d.height, derived))]
  {
    var name := stem + "." + ext;
    BeforeFirstOfJoin(stem, ext, '.');
    assert name == stem + ['.'] + ext;
    var derived := DerivedName(name, c.opts.resize, c.opts.destType);
    assert derived == stem + "_" + c.opts.resize + "." + c.opts.destType;
    assert derived != name by {
      assert |derived| > |stem| && derived[|stem|] == '_' && name[|stem|] == '.';
    }
    assert derived !in l.files;
    DeriveAppendsMigration(c, CommandDir(c, top, l), name, stem,
                           DimensionsOf(s.store[stem].entities[TechnicalProfile.TECH_ENTITY]).value, s);
  }

  /** Repaired: the command names the listed file and puts the derivative
    * beside it, under a name the existence check found free in that very
    * listing. */
  lemma DerivativeBesideSource(c: Setup, top: string, l: Listing, name: string, s: State)
    requires c.build.Intended?
    ensures var r := FileStep(c, top, l, name, s);
      |r.1.commands| > |s.commands| ==>
        r.0 == Running && |r.1.commands| == |s.commands| + 1 &&
        r.1.commands[|s.commands|].source == SepJoin(c.env.abspath(l.path), name) &&
        r.1.commands[|s.commands|].dest == SepJoin(c.env.abspath(l.path), DerivedName(name, c.opts.resize, c.opts.destType)) &&
        DerivedName(name, c.opts.resize, c.opts.destType) !in l.files
  {
  }

  /** The source file type plays no part in the walk: it only supplies the
    * destination type when `-c` is absent, and files of every type are
    * converted. */
  lemma {:induction false} SourceTypeUnused(c: Setup, top: string, ls: seq<Listing>, s: State, sourceType: string)
    ensures WalkSpec(c, top, ls, s) == WalkSpec(c.(opts := c.opts.(sourceType := sourceType)), top, ls, s)
    decreases |ls|
  {
    var c' := c.(opts := c.opts.(sourceType := sourceType));
    if ls != [] {
      FilesSourceTypeUnused(c, top, ls[0], ls[0].files, s, sourceType);
      var r := FilesSpec(c, top, ls[0], ls[0].files, s);
      if r.0.Running? {
        SourceTypeUnused(c, top, ls[1..], r.1, sourceType);
      }
    }
  }

  lemma {:induction false} FilesSourceTypeUnused(c: Setup, top: string, l: Listing, names: seq<string>, s: State,
                                                 sourceType: string)
    ensures FilesSpec(c, top, l, names, s) == FilesSpec(c.(opts := c.opts.(sourceType := sourceType)), top, l, names, s)
    decreases |names|
  {
    var c' := c.(opts := c.opts.(sourceType := sourceType));
    if names != [] {
      assert FileStep(c, top, l, names[0], s) == FileStep(c', top, l, names[0], s);
      var r := FileStep(c, top, l, names[0], s);
      if r.0.Running? {
        FilesSourceTypeUnused(c, top, l, names[1..], r.1, sourceType);
      }
    }
  }
}
