/** Whole requests to the upload endpoint, from form fields to reply and effects, for
    the names a browser typically sends. Each sanitised name is the one the sanitiser
    returns for these plain ASCII names: the name itself. */
module PrintScenarios {
  import opened Wrappers
  import opened Text
  import Extensions
  import Convert
  import Decimal
  import PosixPath
  import opened PrintEndpoint

  /** The form of a request uploading `name` to `printer`, with `copies` omitted. */
  function Upload(name: string, printer: string): PrintRequest
  {
    PrintRequest(Some(FilePart(Some(name))), Some(printer), 1)
  }

  /** A plain file name stem, as a browser sends for `report` or `memo`: not empty,
      without dots and without path separators. */
  predicate PlainStem(stem: string)
  {
    stem != [] && '.' !in stem && '/' !in stem
  }

  /** For `stem.ext` with a plain stem and a lower-case extension, the gate accepts the
      name exactly when `ext` is allowed. */
  lemma PlainNameGate(stem: string, ext: string)
    requires PlainStem(stem) && '.' !in ext && Lower(ext) == ext
    ensures Extensions.AllowedFile(stem + "." + ext) <==> ext in Extensions.AllowedExtensions
  {
    Extensions.LastSuffixDecides(stem, ext);
  }

  /** A name that does not start with a slash is placed inside the upload folder. */
  lemma InUploadFolder(name: string)
    requires name != [] && name[0] != '/'
    ensures PosixPath.Join(Convert.UploadFolder, name) == "uploads/" + name
  {
    assert "uploads" + "/" + name == "uploads/" + name;
  }

  /** A name `stem.ext` with a plain stem is saved as `uploads/stem.ext`. */
  lemma PlainNameSaved(stem: string, ext: string)
    requires PlainStem(stem)
    ensures PosixPath.Join(Convert.UploadFolder, stem + "." + ext) == "uploads/" + stem + "." + ext
  {
    assert (stem + "." + ext)[0] == stem[0];
    InUploadFolder(stem + "." + ext);
    assert "uploads/" + (stem + "." + ext) == "uploads/" + stem + "." + ext;
  }

  /** For `stem.ext` with a plain stem and a lower-case extension, the conversion rule is
      chosen by `.ext`. */
  lemma PlainNameRule(stem: string, ext: string)
    requires PlainStem(stem) && '.' !in ext && '/' !in ext && Lower(ext) == ext
    ensures Convert.Extension(stem + "." + ext) == "." + ext
  {
    assert PosixPath.HasNonDotIn(stem, 0, |stem|) by { assert stem[0] != '.'; }
    Convert.ExtensionOfName(stem, ext);
  }

  /** For `stem.ext` with a plain stem, a converter's output is `uploads/stem.pdf`. */
  lemma PlainNamePdfPath(stem: string, ext: string)
    requires PlainStem(stem) && '.' !in ext && '/' !in ext
    ensures Convert.PdfPath(stem + "." + ext) == "uploads/" + stem + ".pdf"
  {
    assert PosixPath.HasNonDotIn(stem, 0, |stem|) by { assert stem[0] != '.'; }
    PosixPath.SplitExtOfName(stem, ext);
    assert (stem + ".pdf")[0] == stem[0];
    InUploadFolder(stem + ".pdf");
    assert "uploads/" + (stem + ".pdf") == "uploads/" + stem + ".pdf";
  }

  /** The dotted extensions the scenarios use, spelled out. */
  lemma DottedNames()
    ensures "." + "pdf" == ".pdf" && "." + "docx" == ".docx"
    ensures Lower("pdf") == "pdf" && Lower("docx") == "docx"
    ensures '.' !in "pdf" && '/' !in "pdf" && '.' !in "docx" && '/' !in "docx"
    ensures "pdf" in Extensions.AllowedExtensions && "docx" in Extensions.AllowedExtensions
  {
    LowerOfLowerCase("pdf");
    LowerOfLowerCase("docx");
  }

  /** The options of a request with `copies` omitted. */
  lemma OneCopy()
    ensures PrintOptions(1) == map["copies" := "1"]
  {
    assert Decimal.IntToDecimal(1) == "1";
  }

  /** An upload of `stem.ext` with an allowed lower-case extension to a named printer
      passes every request check. */
  lemma PlainUploadPassesChecks(stem: string, ext: string, printer: string)
    requires PlainStem(stem) && '.' !in ext && Lower(ext) == ext
    requires ext in Extensions.AllowedExtensions && printer != ""
    ensures FirstFailedCheck(Upload(stem + "." + ext, printer)).None?
  {
    PlainNameGate(stem, ext);
    assert |stem + "." + ext| > 0;
  }

  /** The conversion of a file whose rule is pass-through: the saved path itself, and
      no converter. */
  lemma PassThroughConversion(env: Collaborators)
    requires Convert.Extension(env.sanitized) == ".pdf" || Convert.Extension(env.sanitized) == ".txt"
    ensures ConversionOf(env) == Convert.PassThrough(UploadPath(env))
    ensures Convert.Invoked(ConversionOf(env)).None?
    ensures Convert.PrintablePath(ConversionOf(env)) == Some(UploadPath(env)) && UploadPath(env) != ""
  {
    Convert.PassThroughExactly(UploadPath(env), env.sanitized, env.converters);
    assert |UploadPath(env)| > 0;
  }

  /** The conversion of a Word document: the office converter, and its PDF exactly when
      it exits normally and the PDF exists afterwards. */
  lemma OfficeConversion(env: Collaborators)
    requires Convert.Extension(env.sanitized) == ".doc" || Convert.Extension(env.sanitized) == ".docx"
    ensures Convert.Invoked(ConversionOf(env)) == Some(Convert.Office)
    ensures Convert.PrintablePath(ConversionOf(env)) ==
              if env.converters.office == Convert.ExitedZero
                 && Convert.PdfPath(env.sanitized) in env.converters.existingAfterOffice
              then Some(Convert.PdfPath(env.sanitized)) else None
  {
    Convert.OfficeDocumentOutcome(UploadPath(env), env.sanitized, env.converters);
  }

  /** The effect traces `Process` builds when the conversion started no converter. */
  lemma TracesWithoutConverter(u: string, c: Convert.Conversion, job: PrintJob)
    requires Convert.Invoked(c).None?
    ensures ConvertedEffects(u, c) == [SavedUpload(u)]
    ensures ConvertedEffects(u, c) + [QueriedPrinters] == [SavedUpload(u), QueriedPrinters]
    ensures ConvertedEffects(u, c) + [QueriedPrinters] + [PrintFileCall(job)] ==
              [SavedUpload(u), QueriedPrinters, PrintFileCall(job)]
  {
  }

  /** The effect traces `Process` builds when the conversion started `tool`. */
  lemma TracesWithConverter(u: string, c: Convert.Conversion, tool: Convert.Tool, job: PrintJob)
    requires Convert.Invoked(c) == Some(tool)
    ensures ConvertedEffects(u, c) == [SavedUpload(u), RanConverter(tool)]
    ensures ConvertedEffects(u, c) + [QueriedPrinters] == [SavedUpload(u), RanConverter(tool), QueriedPrinters]
    ensures ConvertedEffects(u, c) + [QueriedPrinters] + [PrintFileCall(job)] ==
              [SavedUpload(u), RanConverter(tool), QueriedPrinters, PrintFileCall(job)]
  {
  }

  /** A request that passed the checks, for a file whose rule is pass-through (`.pdf`,
      `.txt`), sent to a printer the backend lists: no converter runs and the saved file
      itself is submitted with the requested copies under the fixed title; the reply
      carries the backend's job id. */
  lemma PassThroughSubmitted(req: PrintRequest, env: Collaborators, id: int)
    requires FirstFailedCheck(req).None?
    requires Convert.Extension(env.sanitized) == ".pdf" || Convert.Extension(env.sanitized) == ".txt"
    requires env.backend.printers.Some? && req.printer.value in env.backend.printers.value
    requires env.backend.jobId == Some(id)
    ensures PrintDocument(req, env) ==
              Reply(200, Submitted(id),
                    [SavedUpload(UploadPath(env)), QueriedPrinters,
                     PrintFileCall(PrintJob(req.printer.value, UploadPath(env), JobTitle, PrintOptions(req.copies)))])
  {
    PassThroughConversion(env);
    TracesWithoutConverter(UploadPath(env), ConversionOf(env),
           PrintJob(req.printer.value, UploadPath(env), JobTitle, PrintOptions(req.copies)));
  }

  /** A request that passed the checks, for a Word document whose conversion succeeds
      (the office converter exits normally and the expected PDF exists), sent to a
      printer the backend lists: the PDF, not the uploaded document, is submitted. */
  lemma WordDocumentSubmitted(req: PrintRequest, env: Collaborators, id: int)
    requires FirstFailedCheck(req).None?
    requires Convert.Extension(env.sanitized) == ".doc" || Convert.Extension(env.sanitized) == ".docx"
    requires env.converters.office == Convert.ExitedZero
    requires Convert.PdfPath(env.sanitized) in env.converters.existingAfterOffice
    requires env.backend.printers.Some? && req.printer.value in env.backend.printers.value
    requires env.backend.jobId == Some(id)
    ensures PrintDocument(req, env) ==
              Reply(200, Submitted(id),
                    [SavedUpload(UploadPath(env)), RanConverter(Convert.Office), QueriedPrinters,
                     PrintFileCall(PrintJob(req.printer.value, Convert.PdfPath(env.sanitized), JobTitle,
                                            PrintOptions(req.copies)))])
  {
    OfficeConversion(env);
    ConvertedAndSubmitted(req, env, id, Convert.Office);
  }

  /** A request that passed the checks, whose conversion ran `tool` and produced the PDF,
      sent to a printer the backend lists: that PDF is submitted. */
  lemma ConvertedAndSubmitted(req: PrintRequest, env: Collaborators, id: int, tool: Convert.Tool)
    requires FirstFailedCheck(req).None?
    requires Convert.Invoked(ConversionOf(env)) == Some(tool)
    requires Convert.PrintablePath(ConversionOf(env)) == Some(Convert.PdfPath(env.sanitized))
    requires env.backend.printers.Some? && req.printer.value in env.backend.printers.value
    requires env.backend.jobId == Some(id)
    ensures PrintDocument(req, env) ==
              Reply(200, Submitted(id),
                    [SavedUpload(UploadPath(env)), RanConverter(tool), QueriedPrinters,
                     PrintFileCall(PrintJob(req.printer.value, Convert.PdfPath(env.sanitized), JobTitle,
                                            PrintOptions(req.copies)))])
  {
    TracesWithConverter(UploadPath(env), ConversionOf(env), tool,
           PrintJob(req.printer.value, Convert.PdfPath(env.sanitized), JobTitle, PrintOptions(req.copies)));
  }

  /** A Word document whose conversion fails in any way (a missing command, a timeout,
      a failing exit, a missing output file): 500 after saving and running the
      converter, and the backend is never contacted. */
  lemma WordConversionFails(req: PrintRequest, env: Collaborators)
    requires FirstFailedCheck(req).None?
    requires Convert.Extension(env.sanitized) == ".doc" || Convert.Extension(env.sanitized) == ".docx"
    requires env.converters.office != Convert.ExitedZero
             || Convert.PdfPath(env.sanitized) !in env.converters.existingAfterOffice
    ensures PrintDocument(req, env) ==
              Reply(500, Error(ConversionFailed), [SavedUpload(UploadPath(env)), RanConverter(Convert.Office)])
  {
    OfficeConversion(env);
    TracesWithConverter(UploadPath(env), ConversionOf(env), Convert.Office, PrintJob("", "", JobTitle, map[]));
  }

  /** A printer the backend does not list is refused with 400, but only after the upload
      was saved and converted: for a Word document the conversion work is wasted. */
  lemma UnknownPrinterAfterConversion(req: PrintRequest, env: Collaborators)
    requires FirstFailedCheck(req).None?
    requires Convert.Extension(env.sanitized) == ".doc" || Convert.Extension(env.sanitized) == ".docx"
    requires env.converters.office == Convert.ExitedZero
    requires Convert.PdfPath(env.sanitized) in env.converters.existingAfterOffice
    requires env.backend.printers.Some? && req.printer.value !in env.backend.printers.value
    ensures PrintDocument(req, env) ==
              Reply(400, Error(PrinterNotFound),
                    [SavedUpload(UploadPath(env)), RanConverter(Convert.Office), QueriedPrinters])
  {
    OfficeConversion(env);
    ConvertedToUnknownPrinter(req, env, Convert.Office);
  }

  /** A request that passed the checks, whose conversion ran `tool` and produced a path,
      sent to a printer the backend does not list: 400 after listing the printers. */
  lemma ConvertedToUnknownPrinter(req: PrintRequest, env: Collaborators, tool: Convert.Tool)
    requires FirstFailedCheck(req).None?
    requires Convert.Invoked(ConversionOf(env)) == Some(tool)
    requires Convert.PrintablePath(ConversionOf(env)) == Some(Convert.PdfPath(env.sanitized))
    requires env.backend.printers.Some? && req.printer.value !in env.backend.printers.value
    ensures PrintDocument(req, env) ==
              Reply(400, Error(PrinterNotFound),
                    [SavedUpload(UploadPath(env)), RanConverter(tool), QueriedPrinters])
  {
    TracesWithConverter(UploadPath(env), ConversionOf(env), tool, PrintJob("", "", JobTitle, map[]));
  }

  /** `report.pdf` (any plain stem) uploaded to a listed printer with `copies`
      omitted: no converter runs, `uploads/report.pdf` itself is submitted with one copy
      under the fixed title, and the reply carries the backend's job id. */
  lemma PdfUploadedToListedPrinter(stem: string, printer: string, env: Collaborators, id: int)
    requires PlainStem(stem) && printer != "" && env.sanitized == stem + "." + "pdf"
    requires env.backend.printers.Some? && printer in env.backend.printers.value
    requires env.backend.jobId == Some(id)
    ensures PrintDocument(Upload(stem + "." + "pdf", printer), env) ==
              Reply(200, Submitted(id),
                    [SavedUpload("uploads/" + stem + "." + "pdf"), QueriedPrinters,
                     PrintFileCall(PrintJob(printer, "uploads/" + stem + "." + "pdf", "Web Print Job",
                                            map["copies" := "1"]))])
  {
    DottedNames();
    PlainUploadPassesChecks(stem, "pdf", printer);
    PlainNameSaved(stem, "pdf");
    PlainNameRule(stem, "pdf");
    PassThroughSubmitted(Upload(stem + "." + "pdf", printer), env, id);
    OneCopy();
  }

  /** `memo.docx` (any plain stem) uploaded to a listed printer, with the office
      converter succeeding: `uploads/memo.pdf`, not the document, is submitted. */
  lemma WordUploadedToListedPrinter(stem: string, printer: string, env: Collaborators, id: int)
    requires PlainStem(stem) && printer != "" && env.sanitized == stem + "." + "docx"
    requires env.converters.office == Convert.ExitedZero
    requires "uploads/" + stem + ".pdf" in env.converters.existingAfterOffice
    requires env.backend.printers.Some? && printer in env.backend.printers.value
    requires env.backend.jobId == Some(id)
    ensures PrintDocument(Upload(stem + "." + "docx", printer), env) ==
              Reply(200, Submitted(id),
                    [SavedUpload("uploads/" + stem + "." + "docx"), RanConverter(Convert.Office), QueriedPrinters,
                     PrintFileCall(PrintJob(printer, "uploads/" + stem + ".pdf", "Web Print Job",
                                            map["copies" := "1"]))])
  {
    DottedNames();
    PlainUploadPassesChecks(stem, "docx", printer);
    PlainNameSaved(stem, "docx");
    PlainNameRule(stem, "docx");
    PlainNamePdfPath(stem, "docx");
    WordDocumentSubmitted(Upload(stem + "." + "docx", printer), env, id);
    OneCopy();
  }

  /** `memo.docx` whose conversion times out: 500, the converter ran, the backend was
      never contacted. */
  lemma WordUploadTimesOut(stem: string, printer: string, env: Collaborators)
    requires PlainStem(stem) && printer != "" && env.sanitized == stem + "." + "docx"
    requires env.converters.office == Convert.TimedOut
    ensures PrintDocument(Upload(stem + "." + "docx", printer), env) ==
              Reply(500, Error(ConversionFailed),
                    [SavedUpload("uploads/" + stem + "." + "docx"), RanConverter(Convert.Office)])
  {
    DottedNames();
    PlainUploadPassesChecks(stem, "docx", printer);
    PlainNameSaved(stem, "docx");
    PlainNameRule(stem, "docx");
    PlainNamePdfPath(stem, "docx");
    WordConversionFails(Upload(stem + "." + "docx", printer), env);
  }

  /** `memo.docx` sent to a printer the backend does not list, such as `Nonexistent`:
      400, after the upload was saved and converted. */
  lemma WordUploadToUnlistedPrinter(stem: string, printer: string, env: Collaborators)
    requires PlainStem(stem) && printer != "" && env.sanitized == stem + "." + "docx"
    requires env.converters.office == Convert.ExitedZero
    requires "uploads/" + stem + ".pdf" in env.converters.existingAfterOffice
    requires env.backend.printers.Some? && printer !in env.backend.printers.value
    ensures PrintDocument(Upload(stem + "." + "docx", printer), env) ==
              Reply(400, Error(PrinterNotFound),
                    [SavedUpload("uploads/" + stem + "." + "docx"), RanConverter(Convert.Office), QueriedPrinters])
  {
    DottedNames();
    PlainUploadPassesChecks(stem, "docx", printer);
    PlainNameSaved(stem, "docx");
    PlainNameRule(stem, "docx");
    PlainNamePdfPath(stem, "docx");
    UnknownPrinterAfterConversion(Upload(stem + "." + "docx", printer), env);
  }

  /** The gate judges the raw name and conversion the sanitised one. When the sanitiser
      leaves no dot (it drops non-ASCII characters, so that `报告.pdf` becomes `pdf`), a
      name the gate accepted is saved and then fails conversion with 500, without any
      converter being run. */
  lemma SanitisedNameWithoutDot(req: PrintRequest, env: Collaborators)
    requires FirstFailedCheck(req).None?
    requires '.' !in env.sanitized
    ensures PrintDocument(req, env) == Reply(500, Error(ConversionFailed), [SavedUpload(UploadPath(env))])
  {
    assert Convert.Extension(env.sanitized) == [];
    Convert.UnlistedExtensionFails(UploadPath(env), env.sanitized, env.converters);
  }
}
