// The empty shell of a technical-metadata profile and the header check of
// the technical-metadata CSV (metadatautilspkg/technical.py).
//
// The shell is a nested dictionary whose leaves are all `{}`; which of the
// optional keys it holds is decided by eleven flags that say which
// properties the image actually has.

module TechnicalProfile {
  import opened Records

  /** The name of the record entity the profile is stored under; the
    * technical workflow also tests `"technical" in document` literally. */
  const TECH_ENTITY := "technical"

  /** The flags dictionary passed to createtechnicalProfile: one flag per
    * optional property (rpsFlag, endFlag, oriFlag, extFlag, bacFlag, borFlag,
    * matFlag, traFlag, mkeFlag, modFlag, sofFlag). */
  datatype Flags = Flags(rps: bool, end: bool, ori: bool, ext: bool, bac: bool, bor: bool,
    mat: bool, tra: bool, mke: bool, mod: bool, sof: bool)

  /** The image keys every profile has. */
  predicate IsImageKey(k: Label)
  {
    k in {Width, Length, BitsPerSample, Compression, PhotometricInterpretation, SamplesPerPixel,
      XResolution, YResolution, ResolutionUnit, ColorSpace}
  }

  /** The keys of the image entity under flags `f`. */
  predicate InImage(f: Flags, k: Label)
  {
    IsImageKey(k) || (k == ExtraSamples && f.ext) || (k == BackgroundColor && f.bac)
    || (k == BorderColor && f.bor) || (k == MatteColor && f.mat) || (k == TransparentColor && f.tra)
  }

  /** The image entity of the shell. */
  function ImageShell(f: Flags): Doc
  {
    Obj(map k | InImage(f, k) :: EMPTY)
  }

  /** The image entity holds the ten image keys always and each optional
    * key exactly when it is flagged; every value is `{}`. */
  lemma ImageShellShape(f: Flags)
    ensures AllLeaves(ImageShell(f))
    ensures forall k :: IsImageKey(k) ==> Has(ImageShell(f), k)
    ensures Has(ImageShell(f), ExtraSamples) <==> f.ext
    ensures Has(ImageShell(f), BackgroundColor) <==> f.bac
    ensures Has(ImageShell(f), BorderColor) <==> f.bor
    ensures Has(ImageShell(f), MatteColor) <==> f.mat
    ensures Has(ImageShell(f), TransparentColor) <==> f.tra
    ensures forall k :: Has(ImageShell(f), k) ==> IsImageKey(k) || k in {ExtraSamples, BackgroundColor,
      BorderColor, MatteColor, TransparentColor}
  {
  }

  /** The keys of the scanner entity under flags `f`. */
  predicate InScanner(f: Flags, k: Label)
  {
    (k == Make && f.mke) || (k == Model && f.mod) || (k == Software && f.sof)
  }

  /** The scanner entity of the shell. */
  function ScannerShell(f: Flags): Doc
  {
    Obj(map k | InScanner(f, k) :: EMPTY)
  }

  /** The scanner entity holds make, model and software exactly when each
    * is flagged; every value is `{}`. */
  lemma ScannerShellShape(f: Flags)
    ensures AllLeaves(ScannerShell(f))
    ensures Has(ScannerShell(f), Make) <==> f.mke
    ensures Has(ScannerShell(f), Model) <==> f.mod
    ensures Has(ScannerShell(f), Software) <==> f.sof
    ensures forall k :: Has(ScannerShell(f), k) ==> k in {Make, Model, Software}
  {
  }

  /** The keys of the technical entity under flags `f`. */
  predicate InTech(f: Flags, k: Label)
  {
    k == Image || k == ScanDateTime || (k == Scanner && (f.mke || f.mod || f.sof))
    || (k == RowsPerStrip && f.rps) || (k == Endian && f.end) || (k == Orientation && f.ori)
  }

  /** The technical entity of the shell: the image entity and the scan
    * date-time always, the scanner entity when any of make, model or
    * software is flagged, rows-per-strip, endian and orientation when
    * flagged. */
  function TechShell(f: Flags): Doc
  {
    Obj(map k | InTech(f, k) :: if k == Image then ImageShell(f) else if k == Scanner then ScannerShell(f) else EMPTY)
  }

  /** The technical entity holds the image entity and scan date-time
    * always, the scanner entity iff any scanner flag is set, and each of
    * rows-per-strip, endian and orientation iff flagged. */
  lemma TechShellShape(f: Flags)
    ensures Has(TechShell(f), Image) && Child(TechShell(f), Image) == ImageShell(f)
    ensures Has(TechShell(f), ScanDateTime)
    ensures Has(TechShell(f), Scanner) <==> f.mke || f.mod || f.sof
    ensures Child(TechShell(f), Scanner) == ScannerShell(f)
    ensures Has(TechShell(f), RowsPerStrip) <==> f.rps
    ensures Has(TechShell(f), Endian) <==> f.end
    ensures Has(TechShell(f), Orientation) <==> f.ori
    ensures forall k :: Has(TechShell(f), k) ==> k in {Image, ScanDateTime, Scanner, RowsPerStrip, Endian, Orientation}
    ensures forall k :: Has(TechShell(f), k) && k != Image && k != Scanner ==> TechShell(f).fields[k] == EMPTY
  {
  }

  /** createtechnicalProfile: a single technical entity whose shape is
    * described by TechShell, ImageShell and ScannerShell. */
  function CreateTechnicalProfile(f: Flags): (p: map<string, Doc>)
    ensures p.Keys == {TECH_ENTITY}
    ensures p[TECH_ENTITY] == TechShell(f)
  {
    map[TECH_ENTITY := TechShell(f)]
  }

  /** The flags a technical entity was built from, read back off its keys. */
  function FlagsOf(t: Doc): Flags
  {
    var img := Child(t, Image);
    var scan := Child(t, Scanner);
    Flags(Has(t, RowsPerStrip), Has(t, Endian), Has(t, Orientation),
      Has(img, ExtraSamples), Has(img, BackgroundColor), Has(img, BorderColor),
      Has(img, MatteColor), Has(img, TransparentColor),
      Has(scan, Make), Has(scan, Model), Has(scan, Software))
  }

  /** The shell records its flags: distinct flags give distinct shells. */
  lemma ShellDeterminesFlags(f: Flags)
    ensures FlagsOf(CreateTechnicalProfile(f)[TECH_ENTITY]) == f
  {
    TechShellShape(f);
    ImageShellShape(f);
    ScannerShellShape(f);
  }

  /** isFileHeaderValid: the first column of a non-empty header row is the
    * expected column name `col1Name` (CSV_TECH_COL_1_NAME, which
    * metadatautilspkg/globalvars.py does not define, so it is a parameter). */
  function IsFileHeaderValid(firstRow: seq<string>, col1Name: string): (r: bool)
    ensures r <==> |firstRow| > 0 && firstRow[0] == col1Name
  {
    if |firstRow| != 0 then firstRow[0] == col1Name else false
  }
}
