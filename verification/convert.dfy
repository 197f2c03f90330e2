/** convert_to_pdf: the decision of how an uploaded file becomes something the
    printing backend accepts. The external converters (the office suite run as a
    subprocess, the imaging library) are abstract outcomes; what this module decides
    is which converter runs, and which path, if any, comes back. */
module Convert {
  import opened Wrappers
  import opened Text
  import opened PosixPath
  import Extensions

  /** UPLOAD_FOLDER and CONVERTED_FOLDER: the same directory. */
  const UploadFolder: string := "uploads"
  const ConvertedFolder: string := "uploads"

  datatype Tool = Office | Imaging

  /** How the single run of the office converter ended: `subprocess.run` with
      `check=True` and a 60-second timeout either returns (exit status 0) or raises. */
  datatype OfficeRun = ExitedZero | CommandNotFound | TimedOut | ExitedNonZero | OtherError

  /** How opening the image and saving it as a PDF ended. */
  datatype ImagingRun = SavedPdf | ImagingError

  /** What the collaborators do during one call: how each converter would end, and
      which paths exist on disk once the office converter has returned. */
  datatype Converters = Converters(office: OfficeRun, imaging: ImagingRun, existingAfterOffice: set<string>)

  /** The result of one conversion: the input path handed on untouched, a PDF made by
      a converter, or nothing (Python's `None`), recording which converter was tried. */
  datatype Conversion =
    | PassThrough(path: string)
    | Converted(path: string, tool: Tool)
    | NotConverted(tried: Option<Tool>)

  /** The value `convert_to_pdf` returns: a path or `None`. */
  function PrintablePath(c: Conversion): Option<string>
  {
    match c
    case PassThrough(path) => Some(path)
    case Converted(path, _) => Some(path)
    case NotConverted(_) => None
  }

  /** The external converter the call started, if any. */
  function Invoked(c: Conversion): Option<Tool>
  {
    match c
    case PassThrough(_) => None
    case Converted(_, tool) => Some(tool)
    case NotConverted(tried) => tried
  }

  /** The lower-cased extension, dot included, that selects the conversion rule: as
      long as the extension `splitext` finds, so empty exactly when it finds none, and
      otherwise starting with the dot. */
  function Extension(filename: string): (ext: string)
    ensures |ext| == |SplitExt(filename).1|
    ensures ext != [] ==> ext[0] == '.'
  {
    Lower(SplitExt(filename).1)
  }

  /** `CONVERTED_FOLDER/<base>.pdf`, where a converter leaves its output: a PDF name
      inside the converted-files folder (unless the base name is itself absolute). */
  function PdfPath(filename: string): (p: string)
    ensures |p| >= 4 && p[|p| - 4..] == ".pdf"
    ensures (SplitExt(filename).0 == [] || SplitExt(filename).0[0] != '/') ==>
              p == ConvertedFolder + "/" + SplitExt(filename).0 + ".pdf"
  {
    Join(ConvertedFolder, SplitExt(filename).0 + ".pdf")
  }

  /** convert_to_pdf(filepath, original_filename): the extension and the output path
      are computed from the (sanitised) name, then the extension picks the rule. */
  function ConvertToPdf(filepath: string, filename: string, run: Converters): (c: Conversion)
    ensures PrintablePath(c).Some? ==>
              PrintablePath(c).value == filepath || PrintablePath(c).value == PdfPath(filename)
    ensures c.PassThrough? ==> c.path == filepath
    ensures c.Converted? ==> c.path == PdfPath(filename)
  {
    Dispatch(filepath, Extension(filename), PdfPath(filename), run)
  }

  /** The rule chosen by the lower-cased extension: PDF and text pass through; Word
      documents go to the office converter and count only if the expected PDF exists
      afterwards; images go to the imaging library; anything else, and every failure,
      is `None`. */
  function Dispatch(filepath: string, ext: string, pdfPath: string, run: Converters): (c: Conversion)
    ensures PrintablePath(c).Some? ==> PrintablePath(c).value == filepath || PrintablePath(c).value == pdfPath
    ensures c.PassThrough? ==> c.path == filepath
    ensures c.Converted? ==> c.path == pdfPath
  {
    if ext == ".pdf" then PassThrough(filepath)
    else if ext == ".doc" || ext == ".docx" then
      if run.office == ExitedZero && pdfPath in run.existingAfterOffice then Converted(pdfPath, Office)
      else NotConverted(Some(Office))
    else if ext == ".jpg" || ext == ".jpeg" || ext == ".png" then
      if run.imaging == SavedPdf then Converted(pdfPath, Imaging)
      else NotConverted(Some(Imaging))
    else if ext == ".txt" then PassThrough(filepath)
    else NotConverted(None)
  }

  /** The decision table of `Dispatch`, one line per rule, stated on the extension. */
  lemma DispatchTable(filepath: string, ext: string, pdfPath: string, run: Converters)
    ensures var c := Dispatch(filepath, ext, pdfPath, run);
      && (c == PassThrough(filepath) <==> ext == ".pdf" || ext == ".txt")
      && (ext == ".pdf" || ext == ".txt" ==> Invoked(c).None?)
      && (ext == ".doc" || ext == ".docx" ==>
            Invoked(c) == Some(Office) &&
            PrintablePath(c) == if run.office == ExitedZero && pdfPath in run.existingAfterOffice
                                then Some(pdfPath) else None)
      && (ext in {".jpg", ".jpeg", ".png"} ==>
            Invoked(c) == Some(Imaging) &&
            PrintablePath(c) == if run.imaging == SavedPdf then Some(pdfPath) else None)
      && (ext !in {".pdf", ".txt", ".doc", ".docx", ".jpg", ".jpeg", ".png"} ==> c == NotConverted(None))
  {
  }

  /** PDF and text files, and only they, are handed on unchanged, and for them no
      converter is started whatever the converters would have done. */
  lemma PassThroughExactly(filepath: string, filename: string, run: Converters)
    ensures ConvertToPdf(filepath, filename, run) == PassThrough(filepath) <==>
              Extension(filename) == ".pdf" || Extension(filename) == ".txt"
    ensures Extension(filename) == ".pdf" || Extension(filename) == ".txt" ==>
              Invoked(ConvertToPdf(filepath, filename, run)).None?
  {
    DispatchTable(filepath, Extension(filename), PdfPath(filename), run);
  }

  /** A Word document yields exactly `CONVERTED_FOLDER/<base>.pdf` when the office
      converter exits normally and that file then exists; a missing command, a
      timeout, a failing exit or a missing output file all yield `None`. */
  lemma OfficeDocumentOutcome(filepath: string, filename: string, run: Converters)
    requires Extension(filename) == ".doc" || Extension(filename) == ".docx"
    ensures Invoked(ConvertToPdf(filepath, filename, run)) == Some(Office)
    ensures PrintablePath(ConvertToPdf(filepath, filename, run)) ==
              if run.office == ExitedZero && PdfPath(filename) in run.existingAfterOffice
              then Some(PdfPath(filename)) else None
  {
    DispatchTable(filepath, Extension(filename), PdfPath(filename), run);
  }

  /** An image yields `CONVERTED_FOLDER/<base>.pdf` when the imaging library saved
      it, and `None` when it raised; there is no existence check on this path. */
  lemma ImageOutcome(filepath: string, filename: string, run: Converters)
    requires Extension(filename) in {".jpg", ".jpeg", ".png"}
    ensures Invoked(ConvertToPdf(filepath, filename, run)) == Some(Imaging)
    ensures PrintablePath(ConvertToPdf(filepath, filename, run)) ==
              if run.imaging == SavedPdf then Some(PdfPath(filename)) else None
  {
    DispatchTable(filepath, Extension(filename), PdfPath(filename), run);
  }

  /** An extension that matches no rule yields `None` without starting a converter. */
  lemma UnlistedExtensionFails(filepath: string, filename: string, run: Converters)
    requires Extension(filename) !in {".pdf", ".txt", ".doc", ".docx", ".jpg", ".jpeg", ".png"}
    ensures ConvertToPdf(filepath, filename, run) == NotConverted(None)
  {
    DispatchTable(filepath, Extension(filename), PdfPath(filename), run);
  }

  /** The extension `splitext` finds is the dot followed by the text after the last
      dot, so lowering it gives the suffix the upload gate looks at. */
  lemma ExtensionIsGateSuffix(filename: string)
    requires SplitExt(filename).1 != []
    ensures '.' in filename
    ensures Extension(filename) == "." + Lower(RSplitOnce(filename, '.')[1])
  {
    var parts := SplitExt(filename);
    var tail := parts.1[1..];
    assert parts.1 == "." + tail;
    assert filename == parts.0 + ['.'] + tail;
    RSplitOnceOfJoined(parts.0, '.', tail);
    assert RSplitOnce(filename, '.')[1] == tail;
    LowerConcat(".", tail);
    assert Lower(".") == ".";
    assert Extension(filename) == Lower(parts.1);
  }

  /** Conversion never produces a path for a name the upload gate would refuse: a
      path comes back only for an extension in ALLOWED_EXTENSIONS. */
  lemma PathOnlyForAllowedName(filepath: string, filename: string, run: Converters)
    requires PrintablePath(ConvertToPdf(filepath, filename, run)).Some?
    ensures Extension(filename) in {".pdf", ".txt", ".doc", ".docx", ".jpg", ".jpeg", ".png"}
    ensures Extensions.AllowedFile(filename)
  {
    var ext := Extension(filename);
    DispatchTable(filepath, ext, PdfPath(filename), run);
    assert ext in {".pdf", ".txt", ".doc", ".docx", ".jpg", ".jpeg", ".png"};
    assert |SplitExt(filename).1| == |ext| > 0;
    ExtensionIsGateSuffix(filename);
    assert ext[1..] == Lower(RSplitOnce(filename, '.')[1]);
  }

  /** For a name `stem.ext` without path separators whose stem is not all dots, the
      rule is chosen by `.ext` lower-cased and the output is `<stem>.pdf`. */
  lemma ExtensionOfName(stem: string, ext: string)
    requires '.' !in ext && '/' !in ext && '/' !in stem
    requires HasNonDotIn(stem, 0, |stem|)
    ensures Extension(stem + "." + ext) == "." + Lower(ext)
    ensures PdfPath(stem + "." + ext) == Join(ConvertedFolder, stem + ".pdf")
  {
    SplitExtOfName(stem, ext);
    LowerConcat(".", ext);
    assert Lower(".") == ".";
  }

  /** Each allowed extension, with its dot, is one of the extensions the dispatch names. */
  lemma DottedAllowed(x: string)
    requires x in Extensions.AllowedExtensions
    ensures "." + x in {".pdf", ".txt", ".doc", ".docx", ".jpg", ".jpeg", ".png"}
  {
    if x == "pdf" { assert "." + x == ".pdf"; }
    else if x == "txt" { assert "." + x == ".txt"; }
    else if x == "doc" { assert "." + x == ".doc"; }
    else if x == "docx" { assert "." + x == ".docx"; }
    else if x == "jpg" { assert "." + x == ".jpg"; }
    else if x == "jpeg" { assert "." + x == ".jpeg"; }
    else { assert "." + x == ".png"; }
  }

  /** Conversely, every name the gate accepts has a conversion rule, provided it has no
      path separator and does not start with a dot: dispatch never falls through. */
  lemma AllowedNameHasRule(filepath: string, filename: string, run: Converters)
    requires Extensions.AllowedFile(filename)
    requires '/' !in filename && filename[0] != '.'
    ensures ConvertToPdf(filepath, filename, run) != NotConverted(None)
  {
    var i := LastIndexOf(filename, '.').value;
    var stem, ext := filename[..i], filename[i + 1..];
    assert filename == stem + "." + ext;
    assert RSplitOnce(filename, '.')[1] == ext;
    assert i > 0 && stem[0] != '.';
    assert '/' !in stem && '/' !in ext by {
      assert forall k :: 0 <= k < |stem| ==> stem[k] == filename[k];
      assert forall k :: 0 <= k < |ext| ==> ext[k] == filename[i + 1 + k];
    }
    assert HasNonDotIn(stem, 0, |stem|);
    ExtensionOfName(stem, ext);
    var e := Extension(filename);
    assert Lower(ext) in Extensions.AllowedExtensions;
    DottedAllowed(Lower(ext));
    DispatchTable(filepath, e, PdfPath(filename), run);
  }

  /** A "hidden" name such as `.pdf` passes the upload gate, yet `splitext` gives it no
      extension, so conversion yields `None` without starting a converter. */
  lemma HiddenNameHasNoRule(filepath: string, run: Converters)
    ensures Extensions.AllowedFile(".pdf")
    ensures ConvertToPdf(filepath, ".pdf", run) == NotConverted(None)
  {
    HiddenNameAccepted();
    SplitExtOfHiddenName("pdf");
    assert "." + "pdf" == ".pdf";
    assert Extension(".pdf") == [];
    DispatchTable(filepath, [], PdfPath(".pdf"), run);
  }

  lemma HiddenNameAccepted()
    ensures Extensions.AllowedFile(".pdf")
  {
    Extensions.LastSuffixDecides("", "pdf");
    assert Lower("pdf") == "pdf";
    assert "" + "." + "pdf" == ".pdf";
  }

  /** The case of the extension does not change the dispatch: `Memo.DOCX` is treated
      like `Memo.docx`. */
  lemma DispatchIgnoresCase(filepath: string, stem: string, ext: string, run: Converters)
    requires '.' !in ext && '/' !in ext && '/' !in stem
    requires HasNonDotIn(stem, 0, |stem|)
    ensures ConvertToPdf(filepath, stem + "." + ext, run) == ConvertToPdf(filepath, stem + "." + Lower(ext), run)
  {
    var low := Lower(ext);
    LowerKeepsNonLetters(ext, '.');
    LowerKeepsNonLetters(ext, '/');
    ExtensionOfName(stem, ext);
    ExtensionOfName(stem, low);
    LowerIdempotent(ext);
  }
}
