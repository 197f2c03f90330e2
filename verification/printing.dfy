/** print_document, the upload endpoint: an ordered chain of checks on the request,
    then save, convert and submit, each step able to end the request early.

    The side effects are abstract. The request fields arrive already read, the
    file-name sanitiser's output is given, and so are the converters' outcomes (see
    Convert) and what the printing backend answers. What the handler decides is the
    reply (status and body) and the order of the effects it starts, which the reply
    records as a trace. */
module PrintEndpoint {
  import opened Wrappers
  import Extensions
  import Convert
  import Decimal
  import PosixPath

  /** The `file` part of the multipart form; its `filename` may be absent. */
  datatype FilePart = FilePart(filename: Option<string>)

  /** The fields the handler reads: the file part (absent when the form has none),
      the `printer` field and the `copies` field, already read as an integer
      (1 when the form omits it). */
  datatype PrintRequest = PrintRequest(file: Option<FilePart>, printer: Option<string>, copies: int)

  /** What the printing backend does during this request: the printer names the
      printer listing returns (`None` when connecting or listing raised), and the job id
      the submission returns (`None` when it raised). */
  datatype Backend = Backend(printers: Option<set<string>>, jobId: Option<int>)

  /** The collaborators' behaviour for one request: the sanitised form of the
      uploaded file's name, the converters, and the backend. */
  datatype Collaborators = Collaborators(sanitized: string, converters: Convert.Converters, backend: Backend)

  /** One call of the backend's submission: printer, file, job title and options. */
  datatype PrintJob = PrintJob(printer: string, path: string, title: string, options: map<string, string>)

  /** The effects the handler starts, in the order it starts them. */
  datatype Effect =
    | SavedUpload(path: string)
    | RanConverter(tool: Convert.Tool)
    | QueriedPrinters
    | PrintFileCall(job: PrintJob)

  /** Why a request failed; each has its own error message. */
  datatype Failure =
    | NoFilePart
    | NoFileSelected
    | NoPrinterSelected
    | UnsupportedType
    | ConversionFailed
    | PrinterNotFound
    | PrintFailed

  datatype Body = Error(failure: Failure) | Submitted(jobId: int)

  /** The HTTP status, the JSON body, and the effects started while handling the request. */
  datatype Reply = Reply(status: int, body: Body, effects: seq<Effect>)

  /** The title every job is submitted under. */
  const JobTitle: string := "Web Print Job"

  /** The `error` text of each failure; for `PrintFailed` the backend's exception text
      follows it. */
  function Message(f: Failure): (m: string)
    ensures m != []
  {
    match f
    case NoFilePart => "没有文件部分"
    case NoFileSelected => "未选择文件"
    case NoPrinterSelected => "未选择打印机"
    case UnsupportedType => "文件类型不支持"
    case ConversionFailed => "文件转换失败"
    case PrinterNotFound => "选择的打印机不存在"
    case PrintFailed => "打印失败: "
  }

  /** With only two error statuses, the message text is what tells the failures apart:
      no two failures share one. */
  lemma MessagesTellFailuresApart(f: Failure, g: Failure)
    requires f != g
    ensures Message(f) != Message(g)
  {
  }

  /** The options every job is submitted with: only `copies`, as `str(copies)`. */
  function PrintOptions(copies: int): (options: map<string, string>)
    ensures options.Keys == {"copies"}
    ensures Decimal.DecimalValue(options["copies"]) == Some(copies)
  {
    Decimal.IntToDecimalRoundTrip(copies);
    map["copies" := Decimal.IntToDecimal(copies)]
  }

  /** The effect of the conversion step: the converter it started, if any. */
  function ConverterEffect(c: Convert.Conversion): seq<Effect>
  {
    match Convert.Invoked(c)
    case None => []
    case Some(tool) => [RanConverter(tool)]
  }

  /** The path the upload is saved under: `UPLOAD_FOLDER/<sanitised name>`. */
  function UploadPath(env: Collaborators): (path: string)
    ensures env.sanitized == [] || env.sanitized[0] != '/' ==> path == "uploads/" + env.sanitized
    ensures env.sanitized != [] && env.sanitized[0] == '/' ==> path == env.sanitized
  {
    PosixPath.Join(Convert.UploadFolder, env.sanitized)
  }

  /** The conversion the handler performs on the saved upload. */
  function ConversionOf(env: Collaborators): (c: Convert.Conversion)
    ensures Convert.Invoked(c).None? && Convert.PrintablePath(c).Some? ==>
              Convert.PrintablePath(c).value == UploadPath(env)
    ensures Convert.Invoked(c).Some? && Convert.PrintablePath(c).Some? ==>
              Convert.PrintablePath(c).value == Convert.PdfPath(env.sanitized)
  {
    Convert.ConvertToPdf(UploadPath(env), env.sanitized, env.converters)
  }

  /** The first request check that fails, in the handler's order: the file part, its
      name, the printer field, then the extension gate. The gate also refuses a part
      without a name, since such a part is false in a boolean test. */
  function FirstFailedCheck(req: PrintRequest): (f: Option<Failure>)
    ensures f.Some? ==> IsRequestCheck(f.value)
    ensures f.None? <==>
              req.file.Some? && req.file.value.filename.Some? && req.file.value.filename.value != ""
              && Extensions.AllowedFile(req.file.value.filename.value)
              && req.printer.Some? && req.printer.value != ""
  {
    if req.file.None? then Some(NoFilePart)
    else if req.file.value.filename == Some("") then Some(NoFileSelected)
    else if req.printer.None? || req.printer.value == "" then Some(NoPrinterSelected)
    else if req.file.value.filename.None? || !Extensions.AllowedFile(req.file.value.filename.value) then
      Some(UnsupportedType)
    else None
  }

  /** print_document(): a request failing a check gets 400 and nothing else happens;
      otherwise the upload is saved, converted and submitted. */
  function PrintDocument(req: PrintRequest, env: Collaborators): (reply: Reply)
    ensures reply.status == 200 || reply.status == 400 || reply.status == 500
    ensures reply.status == 200 <==> reply.body.Submitted?
    ensures reply.status == 500 <==> reply.body in {Error(ConversionFailed), Error(PrintFailed)}
  {
    match FirstFailedCheck(req)
    case Some(f) => Reply(400, Error(f), [])
    case None => Process(req.printer.value, req.copies, UploadPath(env), ConversionOf(env), env.backend)
  }

  /** The part of print_document after the checks, given the saved path and the
      conversion: 500 when conversion gave no path, then list the printers (500 when
      the backend raises, 400 for an unknown printer) and submit (500 when the backend
      raises, 200 with the job id otherwise). */
  function Process(printer: string, copies: int, uploadPath: string, conversion: Convert.Conversion,
                   backend: Backend): (reply: Reply)
    ensures reply.status == 200 || reply.status == 400 || reply.status == 500
    ensures reply.status == 200 <==> reply.body.Submitted?
    ensures reply.status == 500 <==> reply.body in {Error(ConversionFailed), Error(PrintFailed)}
    ensures reply.body.Error? ==> !IsRequestCheck(reply.body.failure)
    ensures reply.effects != [] && reply.effects[0] == SavedUpload(uploadPath)
  {
    var converted := ConvertedEffects(uploadPath, conversion);
    var printable := Convert.PrintablePath(conversion);
    if printable.None? || printable.value == "" then Reply(500, Error(ConversionFailed), converted)
    else
      var queried := converted + [QueriedPrinters];
      match backend.printers
      case None => Reply(500, Error(PrintFailed), queried)
      case Some(names) =>
        if printer !in names then Reply(400, Error(PrinterNotFound), queried)
        else
          var job := PrintJob(printer, printable.value, JobTitle, PrintOptions(copies));
          match backend.jobId
          case None => Reply(500, Error(PrintFailed), queried + [PrintFileCall(job)])
          case Some(id) => Reply(200, Submitted(id), queried + [PrintFileCall(job)])
  }

  /** The position of each request check in the handler's order; 4 for failures that
      are not request checks. */
  function CheckRank(f: Failure): nat
  {
    match f
    case NoFilePart => 0
    case NoFileSelected => 1
    case NoPrinterSelected => 2
    case UnsupportedType => 3
    case _ => 4
  }

  predicate IsRequestCheck(f: Failure)
  {
    CheckRank(f) < 4
  }

  /** Whether the request, taken by itself, fails the check `f`. */
  predicate FailsCheck(f: Failure, req: PrintRequest)
  {
    match f
    case NoFilePart => req.file.None?
    case NoFileSelected => req.file.Some? && req.file.value.filename == Some("")
    case NoPrinterSelected => req.printer.None? || req.printer.value == ""
    case UnsupportedType =>
      !(req.file.Some? && req.file.value.filename.Some? && req.file.value.filename.value != ""
        && Extensions.AllowedFile(req.file.value.filename.value))
    case _ => false
  }

  /** The request checks run in a fixed order and the first one that fails decides the
      reply: a request that fails an earlier check never reaches a later one. */
  lemma FirstFailingCheckDecides(req: PrintRequest, env: Collaborators, f: Failure)
    requires IsRequestCheck(f)
    ensures PrintDocument(req, env).body == Error(f) <==>
              FailsCheck(f, req) &&
              forall g :: IsRequestCheck(g) && CheckRank(g) < CheckRank(f) ==> !FailsCheck(g, req)
  {
    var earlierPass := forall g :: IsRequestCheck(g) && CheckRank(g) < CheckRank(f) ==> !FailsCheck(g, req);
    if FailsCheck(f, req) && earlierPass {
      assert CheckRank(f) > 0 ==> !FailsCheck(NoFilePart, req);
      assert CheckRank(f) > 1 ==> !FailsCheck(NoFileSelected, req);
      assert CheckRank(f) > 2 ==> !FailsCheck(NoPrinterSelected, req);
    }
  }

  /** A request rejected by a check gets 400 and starts nothing: nothing is saved,
      converted or sent to the backend; every other outcome saves the upload first. */
  lemma RejectedRequestsHaveNoEffects(req: PrintRequest, env: Collaborators)
    ensures var reply := PrintDocument(req, env);
      reply.effects == [] <==> reply.body.Error? && IsRequestCheck(reply.body.failure)
    ensures var reply := PrintDocument(req, env);
      reply.body.Error? && IsRequestCheck(reply.body.failure) ==> reply.status == 400
    ensures var reply := PrintDocument(req, env);
      reply.effects != [] ==> reply.effects[0] == SavedUpload(UploadPath(env))
  {
  }

  /** The upload is saved only for a request that passed every check: a file with a
      non-empty name that the extension gate accepts, and a printer name. */
  lemma SavedOnlyAfterChecks(req: PrintRequest, env: Collaborators)
    requires PrintDocument(req, env).effects != []
    ensures req.file.Some? && req.file.value.filename.Some?
    ensures Extensions.AllowedFile(req.file.value.filename.value)
    ensures req.printer.Some? && req.printer.value != ""
  {
  }

  /** The stage an effect belongs to. */
  function Stage(e: Effect): nat
  {
    match e
    case SavedUpload(_) => 0
    case RanConverter(_) => 1
    case QueriedPrinters => 2
    case PrintFileCall(_) => 3
  }

  /** Each effect belongs to a later stage than the one before it. */
  predicate InPipelineOrder(effects: seq<Effect>)
  {
    forall i, j :: 0 <= i < j < |effects| ==> Stage(effects[i]) < Stage(effects[j])
  }

  /** Effects happen in pipeline order, each at most once: save, convert, list the
      printers, submit. */
  lemma EffectsInPipelineOrder(req: PrintRequest, env: Collaborators)
    ensures InPipelineOrder(PrintDocument(req, env).effects)
  {
    if FirstFailedCheck(req).None? {
      ProcessEffectsInOrder(req.printer.value, req.copies, UploadPath(env), ConversionOf(env), env.backend);
    }
  }

  lemma ProcessEffectsInOrder(printer: string, copies: int, uploadPath: string,
                              conversion: Convert.Conversion, backend: Backend)
    ensures InPipelineOrder(Process(printer, copies, uploadPath, conversion, backend).effects)
  {
    var converted := ConvertedEffects(uploadPath, conversion);
    ConvertedEffectsInOrder(uploadPath, conversion);
    var printable := Convert.PrintablePath(conversion);
    if printable.Some? && printable.value != "" {
      AppendLaterStage(converted, QueriedPrinters);
      if backend.printers.Some? && printer in backend.printers.value {
        var job := PrintJob(printer, printable.value, JobTitle, PrintOptions(copies));
        AppendLaterStage(converted + [QueriedPrinters], PrintFileCall(job));
      }
    }
  }

  /** Saving comes before converting, and both come before the backend stages. */
  lemma ConvertedEffectsInOrder(uploadPath: string, conversion: Convert.Conversion)
    ensures InPipelineOrder(ConvertedEffects(uploadPath, conversion))
    ensures var effects := ConvertedEffects(uploadPath, conversion);
      effects != [] && Stage(effects[|effects| - 1]) < 2
  {
  }

  /** Appending an effect of a later stage than the last one so far keeps the order. */
  lemma AppendLaterStage(effects: seq<Effect>, e: Effect)
    requires InPipelineOrder(effects)
    requires effects != [] ==> Stage(effects[|effects| - 1]) < Stage(e)
    ensures InPipelineOrder(effects + [e])
  {
    var s := effects + [e];
    forall i, j | 0 <= i < j < |s|
      ensures Stage(s[i]) < Stage(s[j])
    {
      if j == |effects| && i < |effects| - 1 {
        assert Stage(effects[i]) < Stage(effects[|effects| - 1]);
      }
    }
  }

  /** The effects `Process` starts before it reaches the backend. */
  function ConvertedEffects(uploadPath: string, conversion: Convert.Conversion): (effects: seq<Effect>)
    ensures forall e :: e in effects ==> Stage(e) < 2
  {
    [SavedUpload(uploadPath)] + ConverterEffect(conversion)
  }

  /** `Process` stops at the conversion step exactly when conversion gave no path (or an
      empty one), and then has only saved and converted. */
  lemma ProcessConversionFailure(printer: string, copies: int, uploadPath: string,
                                 conversion: Convert.Conversion, backend: Backend)
    ensures var printable := Convert.PrintablePath(conversion);
      Process(printer, copies, uploadPath, conversion, backend).body == Error(ConversionFailed) <==> printable.None? || printable.value == ""
    ensures Process(printer, copies, uploadPath, conversion, backend).body == Error(ConversionFailed) ==>
              Process(printer, copies, uploadPath, conversion, backend).effects == ConvertedEffects(uploadPath, conversion)
    ensures QueriedPrinters in Process(printer, copies, uploadPath, conversion, backend).effects ==>
              Convert.PrintablePath(conversion).Some? && Convert.PrintablePath(conversion).value != ""
  {
    var printable := Convert.PrintablePath(conversion);
    if printable.None? || printable.value == "" {
      assert Process(printer, copies, uploadPath, conversion, backend).effects == ConvertedEffects(uploadPath, conversion);
    }
  }

  /** `Process` submits at most one job, and only the converted file, to a printer the
      backend lists, with the fixed title and the copy count; it reports success exactly
      when it submitted and the backend returned an id. */
  lemma ProcessSubmission(printer: string, copies: int, uploadPath: string,
                          conversion: Convert.Conversion, backend: Backend)
    ensures forall job :: PrintFileCall(job) in Process(printer, copies, uploadPath, conversion, backend).effects ==>
              && Convert.PrintablePath(conversion) == Some(job.path)
              && job == PrintJob(printer, job.path, JobTitle, PrintOptions(copies))
              && backend.printers.Some? && printer in backend.printers.value
    ensures var effects := Process(printer, copies, uploadPath, conversion, backend).effects;
      Process(printer, copies, uploadPath, conversion, backend).body.Submitted? <==> effects[|effects| - 1].PrintFileCall? && backend.jobId.Some?
    ensures Process(printer, copies, uploadPath, conversion, backend).body.Submitted? ==> Process(printer, copies, uploadPath, conversion, backend).body.jobId == backend.jobId.value
  {
    var converted := ConvertedEffects(uploadPath, conversion);
    var queried := converted + [QueriedPrinters];
    assert forall e :: e in queried ==> !e.PrintFileCall?;
    var effects := Process(printer, copies, uploadPath, conversion, backend).effects;
    if effects != converted && effects != queried {
      assert effects == queried + [effects[|effects| - 1]];
    }
  }

  /** A failed conversion answers 500 and never reaches the backend: the printers are
      not listed and no job is submitted. */
  lemma ConversionFailureStopsBeforeBackend(req: PrintRequest, env: Collaborators)
    requires PrintDocument(req, env).body == Error(ConversionFailed)
    ensures PrintDocument(req, env).status == 500
    ensures Convert.PrintablePath(ConversionOf(env)).None?
    ensures forall e :: e in PrintDocument(req, env).effects ==> Stage(e) < 2
  {
    ProcessConversionFailure(req.printer.value, req.copies, UploadPath(env), ConversionOf(env), env.backend);
    assert |UploadPath(env)| > 0;
  }

  /** The printers are listed only after a conversion that produced a file. */
  lemma PrinterCheckFollowsConversion(req: PrintRequest, env: Collaborators)
    requires QueriedPrinters in PrintDocument(req, env).effects
    ensures Convert.PrintablePath(ConversionOf(env)).Some?
  {
    ProcessConversionFailure(req.printer.value, req.copies, UploadPath(env), ConversionOf(env), env.backend);
  }

  /** A job is submitted only to a printer the backend lists, with the converted (or
      passed-through) file, the fixed title, and options holding exactly the copy
      count, which reads back as the requested number. */
  lemma SubmittedJobIsExact(req: PrintRequest, env: Collaborators, job: PrintJob)
    requires PrintFileCall(job) in PrintDocument(req, env).effects
    ensures req.printer.Some? && job.printer == req.printer.value
    ensures env.backend.printers.Some? && job.printer in env.backend.printers.value
    ensures Convert.PrintablePath(ConversionOf(env)) == Some(job.path)
    ensures job.title == "Web Print Job"
    ensures job.options == PrintOptions(req.copies)
    ensures job.options.Keys == {"copies"} && Decimal.DecimalValue(job.options["copies"]) == Some(req.copies)
    ensures req.file.Some? && req.file.value.filename.Some? && Extensions.AllowedFile(req.file.value.filename.value)
  {
    ProcessSubmission(req.printer.value, req.copies, UploadPath(env), ConversionOf(env), env.backend);
  }

  /** The reply reports success exactly when a job was submitted and the backend
      returned an id, and it carries that id. */
  lemma SuccessExactlyWhenSubmitted(req: PrintRequest, env: Collaborators)
    ensures var reply := PrintDocument(req, env);
      reply.body.Submitted? <==>
        reply.effects != [] && reply.effects[|reply.effects| - 1].PrintFileCall? && env.backend.jobId.Some?
    ensures var reply := PrintDocument(req, env);
      reply.body.Submitted? ==> reply.body.jobId == env.backend.jobId.value
  {
    if FirstFailedCheck(req).None? {
      ProcessSubmission(req.printer.value, req.copies, UploadPath(env), ConversionOf(env), env.backend);
    }
  }

  /** A printer missing from the backend's list is found out only after the upload was
      saved and converted: the reply is 400 and nothing is submitted. */
  lemma UnknownPrinterFoundAfterConversion(req: PrintRequest, env: Collaborators)
    requires PrintDocument(req, env).body == Error(PrinterNotFound)
    ensures PrintDocument(req, env).status == 400
    ensures Convert.PrintablePath(ConversionOf(env)).Some?
    ensures env.backend.printers.Some? && req.printer.Some? && req.printer.value !in env.backend.printers.value
    ensures PrintDocument(req, env).effects == ConvertedEffects(UploadPath(env), ConversionOf(env)) + [QueriedPrinters]
  {
    assert FirstFailedCheck(req).None?;
    ProcessUnknownPrinter(req.printer.value, req.copies, UploadPath(env), ConversionOf(env), env.backend);
  }

  /** `Process` reports an unknown printer only after a conversion that produced a path
      and a listing that lacks the printer, and then has saved, converted and listed. */
  lemma ProcessUnknownPrinter(printer: string, copies: int, uploadPath: string,
                              conversion: Convert.Conversion, backend: Backend)
    requires Process(printer, copies, uploadPath, conversion, backend).body == Error(PrinterNotFound)
    ensures Process(printer, copies, uploadPath, conversion, backend).status == 400
    ensures Convert.PrintablePath(conversion).Some?
    ensures backend.printers.Some? && printer !in backend.printers.value
    ensures Process(printer, copies, uploadPath, conversion, backend).effects ==
              ConvertedEffects(uploadPath, conversion) + [QueriedPrinters]
  {
  }
}
