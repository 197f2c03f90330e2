# cups-print-system: the upload-to-printer pipeline in Dafny

`cups-print-system` is a small Flask front end for a CUPS print server. A browser
uploads a document, picks a printer and a copy count, and polls the job's state. This
project models the only part of it that makes decisions:

- **The upload gate** (`ALLOWED_EXTENSIONS`, `allowed_file`): a name is accepted
  when it has a dot and the text after its last dot, lower-cased, is one of `pdf doc
  docx jpg jpeg png txt`. Module `Extensions` models it, on top of `Text` (Python's
  `rfind`, `rsplit(sep, 1)` and ASCII `lower()`).
- **The conversion step** (`convert_to_pdf`): the lower-cased extension from
  `os.path.splitext` of the sanitised name selects the rule:
  - PDF and text are handed on untouched;
  - Word documents go to LibreOffice (one run, 60 s timeout) and count only if
    `uploads/<base>.pdf` exists afterwards;
  - images go to Pillow;
  - every failure, and every other extension, gives `None`.

  Module `Convert` models it, on top of `PosixPath` (`splitext` and `join`). The
  converters are abstract outcomes (`Converters`).
- **The print endpoint** (`print_document`), module `PrintEndpoint`. It first runs
  four request checks in a fixed order, each answering 400:
  - the file part is missing;
  - the file name is empty;
  - the printer is missing;
  - the extension is not allowed.

  A request that passes them all goes through these steps, and each can end it:
  1. The upload is saved as `uploads/<sanitised name>`.
  2. It is converted; if that gives no path, the reply is 500.
  3. The printers are listed; if that raises, the reply is 500. A printer not in the
     list gets 400.
  4. `printFile` is called with the fixed title `Web Print Job` and only the option
     `copies = str(copies)`; if it raises, the reply is 500. Otherwise the reply is
     200 with the job id.

  The reply records the trace of effects the handler started, so that their order,
  and the facts about what was never started, can be stated.
- **The job-status endpoint** (`get_job_status`), module `JobStatus`: it relabels
  the IPP `job-state` enum (section 5.3.7 of RFC 8011, values 3 to 9) with a fixed
  vocabulary, `unknown` for anything else, and echoes the reasons.
- **Whole requests**, module `PrintScenarios`: a PDF, a Word document, a conversion
  timeout, a printer the backend does not list, and a name the sanitiser strips of
  its dot. These are stated for every plain stem, with `report` and `memo` as
  instances.

`Decimal` models `str(n)` for the copy count, with its read-back. `Wrappers` holds
`Option`.

Facts about the code that shape the model:
- The upload is stored under the sanitised client name (`secure_filename`), in
  the upload folder.
- Only `.pdf` and `.txt` are handed to the backend as uploaded; Word documents and
  images are converted to PDF first.
- Only `copies` is forwarded as a print option.
- The job title is the constant `Web Print Job`.
- A missing converter, a timeout, a failing exit and a missing output all give the
  same 500 "conversion failed" reply.
- The printer's existence is checked after conversion. An unknown printer gets
  400 with the upload already saved and converted.

Some consequences of the code, proved here:
- The gate judges the raw client name, but conversion works on the sanitised one.
  When sanitising removes the dot (`报告.pdf` becomes `pdf`), an accepted upload is
  saved and then answered with 500 (`PrintScenarios.SanitisedNameWithoutDot`).
- A hidden name such as `.pdf` passes the gate, yet `splitext` gives it no
  extension (`Convert.HiddenNameHasNoRule`).

## Model

All source paths below are relative to the repository root.

| member | source | states |
|---|---|---|
| Text.LastIndexOf | cups-print-system/app.py:23 | the index found holds the character and no later position does; `None` exactly when the character is absent |
| Text.RSplitOnce | cups-print-system/app.py:23 | `rsplit(sep, 1)` gives one part exactly when `sep` is absent (the whole string); otherwise head, separator and tail rebuild the string, and the tail holds no separator |
| Text.RSplitOnceOfJoined | cups-print-system/app.py:23 | splitting `head + sep + tail`, with no separator in the tail, recovers exactly `[head, tail]` |
| Text.Lower | cups-print-system/app.py:23 | `lower()` keeps the length and lowers each character in place (ASCII letters) |
| Text.LowerKeepsNonLetters | cups-print-system/app.py:23 | lowering neither creates nor removes a dot or a slash, position by position |
| Extensions.AllowedFile | cups-print-system/app.py:20-23 | `allowed_file`: an accepted name holds a dot and at least four characters (the shortest allowed extension has three) |
| Extensions.AllowedFileIff | cups-print-system/app.py:20-23 | a name is accepted iff it has a dot with no dot after it, and the text after that dot, lower-cased, is in ALLOWED_EXTENSIONS; both directions |
| Extensions.LastSuffixDecides | cups-print-system/app.py:22-23 | for `stem.ext` with no dot in `ext`, acceptance depends only on `ext` lower-cased, whatever the stem holds |
| Extensions.NoDotRejected | cups-print-system/app.py:22 | a name without a dot is rejected |
| Extensions.AllowedFileIgnoresCase | cups-print-system/app.py:23 | a name and its lower-cased form are judged alike |
| Extensions.AcceptsUpperCaseLastSuffix | cups-print-system/app.py:22-23 | `a.exe.PDF` is accepted |
| Extensions.RejectsInnerAllowedSuffix | cups-print-system/app.py:22-23 | `a.pdf.exe` is rejected |
| Extensions.RejectsTrailingDot | cups-print-system/app.py:22-23 | `trailingdot.` is rejected |
| PosixPath.SplitExt | cups-print-system/app.py:31 | `splitext` rebuilds the name from its two parts; a non-empty extension starts with its only dot and has no slash |
| PosixPath.SplitExtOfName | cups-print-system/app.py:31 | `stem.ext` (no slash anywhere, stem not all dots) splits into exactly `stem` and `.ext` |
| PosixPath.SplitExtOfHiddenName | cups-print-system/app.py:31 | `.ext` has no extension |
| PosixPath.Join | cups-print-system/app.py:33 | `join(a, b)` ends with `b`; an absolute `b` is the result; otherwise the result starts with `a`, with a separator before `b` when `a` is not empty, and its length leaves room for nothing else: one separator is added exactly when `a` is not empty and does not end with one |
| Convert.Extension | cups-print-system/app.py:31-32 | the lower-cased extension is as long as the one `splitext` finds, so it is empty exactly when there is none, and otherwise starts with the dot |
| Convert.PdfPath | cups-print-system/app.py:31-33 | the output path ends in `.pdf`, and is `uploads/<base>.pdf` unless the base is absolute |
| Convert.ConvertToPdf | cups-print-system/app.py:25-77 | a path comes back only as the input path (pass-through) or as the PDF path (converter output) |
| Convert.Dispatch | cups-print-system/app.py:35-77 | the same, for the rule chosen by a given extension |
| Convert.DispatchTable | cups-print-system/app.py:35-77 | the full rule table: pass-through exactly for `.pdf` and `.txt`; office converter for `.doc`/`.docx`, whose output counts only on a normal exit when the PDF then exists; imaging for `.jpg`/`.jpeg`/`.png`, whose output counts when it saved; `None` with no converter for anything else |
| Convert.PassThroughExactly | cups-print-system/app.py:35-65 | the upload is handed on untouched iff its extension is `.pdf` or `.txt`, and then no converter runs |
| Convert.OfficeDocumentOutcome | cups-print-system/app.py:38-75 | a Word document runs the office converter, and yields the PDF iff the run exits normally and the PDF exists afterwards |
| Convert.ImageOutcome | cups-print-system/app.py:51-58 | an image runs the imaging library and yields the PDF iff it saved, with no existence check |
| Convert.UnlistedExtensionFails | cups-print-system/app.py:77 | any other extension yields `None` and starts no converter |
| Convert.ExtensionIsGateSuffix | cups-print-system/app.py:31-32 | a non-empty `splitext` extension is a dot followed by the lower-cased text the gate looks at |
| Convert.PathOnlyForAllowedName | cups-print-system/app.py:25-77 | a path comes back only for a name the upload gate accepts |
| Convert.ExtensionOfName | cups-print-system/app.py:31-33 | for `stem.ext`, the rule is chosen by `.ext` lower-cased, and the output is `join(uploads, stem.pdf)` |
| Convert.DottedAllowed | cups-print-system/app.py:10 | every allowed extension, with its dot, is named by some conversion rule |
| Convert.AllowedNameHasRule | cups-print-system/app.py:35-77 | every accepted name without a slash or a leading dot reaches a rule; the fall-through `None` is never reached |
| Convert.HiddenNameAccepted | cups-print-system/app.py:20-23 | the hidden name `.pdf` passes the gate |
| Convert.HiddenNameHasNoRule | cups-print-system/app.py:31-36 | `.pdf` passes the gate, yet conversion yields `None` without starting a converter |
| Convert.DispatchIgnoresCase | cups-print-system/app.py:32 | `stem.EXT` and `stem.ext` are converted alike |
| Decimal.NatToDecimal | cups-print-system/app.py:132 | `str(n)` for `n >= 0` is non-empty, all digits, without a leading zero |
| Decimal.IntToDecimal | cups-print-system/app.py:132 | `str(n)` starts with a minus sign iff `n` is negative |
| Decimal.NatToDecimalValue | cups-print-system/app.py:132 | the digits of `str(n)` read back as `n` |
| Decimal.IntToDecimalRoundTrip | cups-print-system/app.py:131-134 | the copy count sent to the backend reads back as the requested number, negative ones included |
| JobStatus.StateLabel | cups-print-system/app.py:157-170 | a state gets `unknown` iff it is absent or outside 3..9; otherwise it gets one of the map's labels |
| JobStatus.StateLabelInjective | cups-print-system/app.py:157-165 | distinct known codes get distinct labels |
| JobStatus.EveryLabelHasCode | cups-print-system/app.py:157-165 | every label of the map is the label of a code in 3..9; with injectivity, of exactly one |
| JobStatus.LabelsFollowKeywords | cups-print-system/app.py:157-165 | each label is the RFC 8011 keyword with underscores for hyphens, except `processing-stopped`, which becomes `stopped` |
| JobStatus.FinalLabelsAreTerminalStates | cups-print-system/app.py:157-165 | the labels `completed`, `canceled` and `aborted` are exactly those of the terminal states of RFC 8011 |
| JobStatus.GetJobStatus | cups-print-system/app.py:150-174 | the reply is an error iff the backend lookup raised; otherwise it echoes the id and the reasons, and its state is the label of `job-state` |
| JobStatus.HttpStatus | cups-print-system/app.py:168-174 | 200 for a status object, 500 for the error |
| PrintEndpoint.Message | cups-print-system/app.py:100-148 | each failure has a non-empty error text (the seven texts of the handler) |
| PrintEndpoint.MessagesTellFailuresApart | cups-print-system/app.py:100-148 | no two failures share a message, so the text tells apart what the two status codes cannot |
| PrintEndpoint.PrintOptions | cups-print-system/app.py:131-134 | the options hold exactly the key `copies`, whose text reads back as the requested count |
| PrintEndpoint.UploadPath | cups-print-system/app.py:114-115 | a relative sanitised name is saved as `uploads/<name>`, an absolute one as itself |
| PrintEndpoint.ConversionOf | cups-print-system/app.py:119 | the conversion works on the saved upload: with no converter run, the printable path is the saved path; after a converter, it is `uploads/<base>.pdf` |
| PrintEndpoint.FirstFailedCheck | cups-print-system/app.py:100-113 | a failure found is a request check; none is found iff a file part with a non-empty, accepted name and a non-empty printer are present |
| PrintEndpoint.PrintDocument | cups-print-system/app.py:97-148 | the status is 200, 400 or 500; 200 iff a job id is returned; 500 iff conversion or the backend failed |
| PrintEndpoint.Process | cups-print-system/app.py:116-146 | after the checks: the same status facts, a failure is never a request check, and the first effect is always saving the upload |
| PrintEndpoint.FirstFailingCheckDecides | cups-print-system/app.py:100-113 | the reply names check `f` iff the request fails `f` and passes every earlier check |
| PrintEndpoint.RejectedRequestsHaveNoEffects | cups-print-system/app.py:100-116 | nothing is started iff a request check failed, which gives 400; otherwise saving comes first |
| PrintEndpoint.SavedOnlyAfterChecks | cups-print-system/app.py:113-116 | an upload is saved only with a non-empty printer and a name the gate accepts |
| PrintEndpoint.EffectsInPipelineOrder | cups-print-system/app.py:113-140 | effects come in the order save, convert, list printers, submit, each at most once |
| PrintEndpoint.ProcessEffectsInOrder | cups-print-system/app.py:116-140 | the same, for every conversion and backend outcome after the checks |
| PrintEndpoint.ConvertedEffectsInOrder | cups-print-system/app.py:116-119 | saving precedes the converter run, and the last of them belongs to a stage before the backend |
| PrintEndpoint.ConvertedEffects | cups-print-system/app.py:116-119 | the effects before the backend belong to the save and convert stages only |
| PrintEndpoint.ProcessConversionFailure | cups-print-system/app.py:119-122 | the reply is "conversion failed" iff conversion gave no path or an empty one; then only saving and converting happened; the printers are listed only after a path came back |
| PrintEndpoint.ProcessSubmission | cups-print-system/app.py:125-146 | any submission uses the converted path, the fixed title and the copy options, to a listed printer; success iff the last effect is a submission and the backend returned an id, whose value the reply carries |
| PrintEndpoint.ConversionFailureStopsBeforeBackend | cups-print-system/app.py:119-127 | a failed conversion gives 500 and the backend is never contacted |
| PrintEndpoint.PrinterCheckFollowsConversion | cups-print-system/app.py:121-129 | the printers are listed only after conversion produced a path |
| PrintEndpoint.SubmittedJobIsExact | cups-print-system/app.py:113-136 | a submitted job goes to the requested and listed printer, with the converted file, the title `Web Print Job`, and options exactly `{copies: str(copies)}`; the upload had passed the gate |
| PrintEndpoint.SuccessExactlyWhenSubmitted | cups-print-system/app.py:136-146 | success iff the last effect is a submission and the backend returned an id; the reply carries that id |
| PrintEndpoint.UnknownPrinterFoundAfterConversion | cups-print-system/app.py:116-129 | a missing printer gives 400 after saving, converting and listing the printers, and nothing is submitted |
| PrintEndpoint.ProcessUnknownPrinter | cups-print-system/app.py:121-129 | the same, for every conversion and backend outcome after the checks |
| PrintScenarios.PlainNameGate | cups-print-system/app.py:20-23 | `stem.ext` with a plain stem and a lower-case extension is accepted iff `ext` is allowed |
| PrintScenarios.InUploadFolder | cups-print-system/app.py:115 | a relative name is stored as `uploads/<name>` |
| PrintScenarios.PlainNameSaved | cups-print-system/app.py:114-116 | `stem.ext` is saved as `uploads/stem.ext` |
| PrintScenarios.PlainNameRule | cups-print-system/app.py:31-32 | `stem.ext` selects the rule for `.ext` |
| PrintScenarios.PlainNamePdfPath | cups-print-system/app.py:31-33 | a converter's output for `stem.ext` is `uploads/stem.pdf` |
| PrintScenarios.OneCopy | cups-print-system/app.py:105 | with `copies` omitted, the options are exactly `{copies: "1"}` |
| PrintScenarios.PlainUploadPassesChecks | cups-print-system/app.py:100-113 | `stem.ext` with an allowed extension and a named printer passes every request check |
| PrintScenarios.PassThroughConversion | cups-print-system/app.py:35-36 | a PDF or text upload is its own printable path, non-empty, with no converter run |
| PrintScenarios.OfficeConversion | cups-print-system/app.py:39-49 | a Word upload runs the office converter and yields its PDF exactly on success |
| PrintScenarios.PassThroughSubmitted | cups-print-system/app.py:113-143 | a PDF or text upload to a listed printer: saved, printers listed, the saved file submitted; 200 with the id |
| PrintScenarios.WordDocumentSubmitted | cups-print-system/app.py:113-143 | a converted Word upload to a listed printer submits the PDF, not the document |
| PrintScenarios.ConvertedAndSubmitted | cups-print-system/app.py:119-143 | any upload converted by a tool to a listed printer: the full four-effect trace and 200 |
| PrintScenarios.WordConversionFails | cups-print-system/app.py:119-122 | a failed Word conversion gives 500 after saving and converting, with no backend contact |
| PrintScenarios.UnknownPrinterAfterConversion | cups-print-system/app.py:119-129 | a Word upload to an unlisted printer gives 400 after saving, converting and listing |
| PrintScenarios.ConvertedToUnknownPrinter | cups-print-system/app.py:125-129 | any converted upload to an unlisted printer gives 400 with the three-effect trace |
| PrintScenarios.PdfUploadedToListedPrinter | cups-print-system/app.py:97-143 | `report.pdf` to a listed printer: `uploads/report.pdf` itself is submitted with one copy under `Web Print Job` |
| PrintScenarios.WordUploadedToListedPrinter | cups-print-system/app.py:97-143 | `memo.docx` to a listed printer with a successful conversion: `uploads/memo.pdf` is submitted |
| PrintScenarios.WordUploadTimesOut | cups-print-system/app.py:38-72 | `memo.docx` whose conversion times out: 500 after saving and converting |
| PrintScenarios.WordUploadToUnlistedPrinter | cups-print-system/app.py:125-129 | `memo.docx` to a printer such as `Nonexistent`: 400, after saving and converting |
| PrintScenarios.SanitisedNameWithoutDot | cups-print-system/app.py:113-122 | an accepted upload whose sanitised name has no dot is saved, starts no converter, and gets 500 |

## Left out

- The web layer is outside the model: Flask routing, `jsonify`, the HTML page,
  static files and the 16 MB upload limit (`MAX_CONTENT_LENGTH`). The replies are
  modelled as status, body kind and effect trace, not as JSON text.
- `GET /api/printers` (app.py:87-95) is a direct relay of the backend's printer list
  and decides nothing. The model covers it only as the printer listing inside
  `print_document`.
- `secure_filename` is not part of this model. Its output is the per-request input
  `sanitized`; the scenarios assume that plain ASCII names come back unchanged.
- `int(request.form.get('copies', 1))` is taken as already parsed: `copies` is an
  integer field. A non-numeric value raises after the file-part check and before
  the others, and Flask answers 500; that path is not modelled.
- The file system, LibreOffice, Pillow and CUPS are abstract outcomes: `Converters`
  and `Backend`. The command line, the 60-second limit itself, the RGBA-to-RGB step
  and the 100 dpi resolution are not modelled. An exception from `file.save` is
  not modelled either.
- `cups.Connection()` raising and `getPrinters()` raising are merged into one
  outcome, `printers: None`. Both give the same 500 reply.
- The 500 body for a failed submission carries the exception's text after
  `打印失败: `. Only the prefix is modelled.
- `lower()` is modelled for ASCII letters only. No non-ASCII character lowers to an
  ASCII character except KELVIN SIGN (to `k`) and U+0130 (to `i` plus a combining
  dot). Neither `k` nor `i` occurs in an allowed extension, so neither changes the
  gate's verdict.
- Each request is modelled alone, with the file system as it is given for that
  request. Two requests with the same sanitised name write the same
  `uploads/<name>` and share `uploads/<base>.pdf` (app.py:114-116, 33); which file
  a concurrent or later request then prints is not modelled.
- Log output (`print`), the directory creation at start-up and the browser's
  status polling are not modelled.
