/**
 * The per-file pipeline and the two ways main.py runs it: `run_resume_pipeline_batch`
 * (header, listing, sort, then one row per file until the first failure) and
 * `run_resume_pipeline_single`. Drive, the PDF library, the language model and the
 * JSON codec are oracles bundled in `Services`; the output sheet is an object whose
 * state is the log of writes made to it.
 */
module Pipeline {
  import opened Wrappers
  import opened Json
  import opened RowBuilder
  import opened ResumeParser
  import opened Drive
  import opened PdfText
  import opened BatchOrder

  type Bytes = seq<bv8>

  /** The external services a run depends on. `download` is `download_resume_file`,
      `pages` opens the PDF and gives the text of each page, `complete(id, q)` is the
      chat completion for request `q` made while the file with id `id` is processed,
      `loads` and `dumps` are the JSON codec. `Err` carries `str(e)` of the exception
      raised. Because the answer depends on the file, two files with the same name and
      the same text can get different answers. */
  datatype Services = Services(
    download: string -> Result<Bytes, string>,
    pages: Bytes -> Result<seq<string>, string>,
    complete: (string, Request) -> Result<string, string>,
    loads: string -> Result<Value, string>,
    dumps: Value -> string)

  /** Why a file was not written, and the exception message that ends the run. */
  datatype Failure =
    | DownloadFailed(message: string)
    | PdfUnreadable(message: string)
    | ModelCallFailed(message: string)
    | OutputUnparsable(output: string, message: string)
    | NotAnObject(message: string)
    | MetadataFailed(message: string)

  /** A write request sent to the Sheets API. */
  datatype SheetWrite =
    | Update(range: string, values: Row)
    | Append(range: string, values: Row)

  const HeaderRange: string := "raw_output!A1"
  const AppendRange: string := "raw_output!A2"

  /** `write_sheet_header`'s row: the column names, `ORDERED_FIELDS`. */
  const HeaderRow: Row := [
    Str("index"), Str("name"), Str("resume_link"),
    Str("industry"), Str("experience"), Str("current_location"), Str("email"), Str("phone"),
    Str("linkedin"), Str("current_job_title"), Str("current_company"), Str("education"),
    Str("major"), Str("university"), Str("location_preference")
  ]

  /** The header names the columns of every row, in order. */
  lemma HeaderRowNamesColumns()
    ensures |HeaderRow| == |OrderedFields|
    ensures forall i :: 0 <= i < |OrderedFields| ==> HeaderRow[i] == Str(OrderedFields[i])
  {
  }

  /** The output spreadsheet, seen through the writes it receives. */
  class Spreadsheet {
    var writes: seq<SheetWrite>

    constructor ()
      ensures writes == []
    {
      writes := [];
    }

    /** `write_sheet_header`: overwrite the first row with the header. */
    method WriteHeader()
      modifies this
      ensures writes == old(writes) + [Update(HeaderRange, HeaderRow)]
    {
      writes := writes + [Update(HeaderRange, HeaderRow)];
    }

    /** The `values().append` call of `append_to_sheet`. */
    method AppendRow(row: Row)
      modifies this
      ensures writes == old(writes) + [Append(AppendRange, row)]
    {
      writes := writes + [Append(AppendRange, row)];
    }
  }

  /** `download_resume_file` and `extract_text_from_pdf`: the text of the file's pages. */
  function ResumeText(svc: Services, f: DriveFile): Result<string, Failure>
  {
    match svc.download(f.id)
    case Err(m) => Err(DownloadFailed(m))
    case Ok(bytes) =>
      match svc.pages(bytes)
      case Err(m) => Err(PdfUnreadable(m))
      case Ok(pageTexts) => Ok(Concat(pageTexts))
  }

  /** The model as `parse_resume_text` sees it while the file `f` is processed. */
  function ModelFor(svc: Services, f: DriveFile): Request -> Result<string, string>
  {
    q => svc.complete(f.id, q)
  }

  /** `parse_resume_text` on that text. */
  function ParsedOutput(svc: Services, f: DriveFile): Result<Value, Failure>
  {
    match ResumeText(svc, f)
    case Err(e) => Err(e)
    case Ok(text) =>
      match ParseResumeText(text, f.name, ModelFor(svc, f), svc.loads).outcome
      case CallFailed(m) => Err(ModelCallFailed(m))
      case Unparsable(out, m) => Err(OutputUnparsable(out, m))
      case Parsed(v) => Ok(v)
  }

  /** One file through download, text extraction, parsing and row building. */
  function ProcessFile(svc: Services, f: DriveFile): Result<Row, Failure>
  {
    match ParsedOutput(svc, f)
    case Err(e) => Err(e)
    case Ok(v) =>
      match BuildRow(f.id, f.name, v, svc.dumps)
      case Err(m) => Err(NotAnObject(m))
      case Ok(row) => Ok(row)
  }

  /** The parsed value is what the decoder made of the model's last answer for the
      file's text; the text is the concatenation of the downloaded PDF's pages. */
  lemma ParsedOutputOrigin(svc: Services, f: DriveFile)
    requires ParsedOutput(svc, f).Ok?
    ensures ResumeText(svc, f).Ok?
    ensures svc.download(f.id).Ok? && svc.pages(svc.download(f.id).value).Ok?
    ensures ResumeText(svc, f).value == Concat(svc.pages(svc.download(f.id).value).value)
    ensures ParseResumeText(ResumeText(svc, f).value, f.name, ModelFor(svc, f), svc.loads).outcome
      == Parsed(ParsedOutput(svc, f).value)
  {
  }

  /** A row is produced exactly when the parsed value is a dict, and it is the row
      `append_to_sheet` builds from that dict; a parsed value that is not a dict fails
      with the `.get` error. */
  lemma ProcessFileRow(svc: Services, f: DriveFile)
    ensures ProcessFile(svc, f).Ok? <==> ParsedOutput(svc, f).Ok? && ParsedOutput(svc, f).value.Dict?
    ensures ProcessFile(svc, f).Ok? ==>
      BuildRow(f.id, f.name, ParsedOutput(svc, f).value, svc.dumps) == Ok(ProcessFile(svc, f).value)
    ensures ParsedOutput(svc, f).Ok? && !ParsedOutput(svc, f).value.Dict? ==>
      ProcessFile(svc, f) == Err(NotAnObject(NoGetMessage(ParsedOutput(svc, f).value)))
  {
    if ParsedOutput(svc, f).Ok? {
      BuildRowCases(f.id, f.name, ParsedOutput(svc, f).value, svc.dumps);
    }
  }

  /** Every written row has the fifteen columns, starting with the index and name taken
      from the file name and the file's link. */
  lemma ProcessedRowShape(svc: Services, f: DriveFile)
    requires ProcessFile(svc, f).Ok?
    ensures var row := ProcessFile(svc, f).value;
      && |row| == 15
      && row[0] == Str(NameFields(f.name).0) && row[1] == Str(NameFields(f.name).1)
      && row[2] == Str(ResumeLink(f.id))
  {
    ProcessFileRow(svc, f);
    var v := ParsedOutput(svc, f).value;
    BuildRowCases(f.id, f.name, v, svc.dumps);
    OrderedRowShape(NameFields(f.name).0, NameFields(f.name).1, f.id, v.entries, svc.dumps);
  }

  /** The per-file work as a value, the form in which the batch loop uses it. */
  type Step = DriveFile -> Result<Row, Failure>

  function ProcessStep(svc: Services): Step
  {
    f => ProcessFile(svc, f)
  }

  /** The position of the first file that fails, or the number of files. */
  function FirstFailure(step: Step, files: seq<DriveFile>): (n: nat)
    ensures n <= |files|
    ensures forall j :: 0 <= j < n ==> step(files[j]).Ok?
    ensures n < |files| ==> step(files[n]).Err?
  {
    if files == [] || step(files[0]).Err? then 0
    else 1 + FirstFailure(step, files[1..])
  }

  /** The rows of the files that succeed, in order. */
  function RowsOf(step: Step, files: seq<DriveFile>): seq<Row>
  {
    if files == [] then []
    else
      var r := step(files[|files| - 1]);
      RowsOf(step, files[..|files| - 1]) + (if r.Ok? then [r.value] else [])
  }

  /** The append requests for the given rows. */
  function AppendsOf(rows: seq<Row>): (w: seq<SheetWrite>)
    ensures |w| == |rows| && forall i :: 0 <= i < |rows| ==> w[i] == Append(AppendRange, rows[i])
  {
    if rows == [] then [] else AppendsOf(rows[..|rows| - 1]) + [Append(AppendRange, rows[|rows| - 1])]
  }

  /** How a batch run ends: every file written, or the exception of the first file that failed. */
  datatype BatchOutcome = Completed | Aborted(file: DriveFile, failure: Failure)

  /** The files in the order the batch processes them. */
  function BatchOrderOf(responses: seq<ListResponse>): seq<DriveFile>
    requires HasLastPage(responses)
  {
    SortBy(ListedFiles(responses), FileKey)
  }

  /** What the batch writes to the sheet: the header, then the rows of the files before
      the first failure. */
  function BatchWrites(step: Step, files: seq<DriveFile>): seq<SheetWrite>
  {
    [Update(HeaderRange, HeaderRow)] + AppendsOf(RowsOf(step, files[..FirstFailure(step, files)]))
  }

  function BatchResult(step: Step, files: seq<DriveFile>): BatchOutcome
  {
    var n := FirstFailure(step, files);
    if n == |files| then Completed else Aborted(files[n], step(files[n]).error)
  }

  /** The listing followed by `files.sort(key=extract_index)`. */
  method ListAndSort(responses: seq<ListResponse>) returns (files: seq<DriveFile>)
    requires HasLastPage(responses)
    ensures files == BatchOrderOf(responses)
  {
    var listed, _ := ListFilesInFolder(responses);
    var a := new DriveFile[|listed|](i requires 0 <= i < |listed| => listed[i]);
    assert a[..] == listed;
    SortInPlace(a, FileKey);
    files := a[..];
  }

  /** `run_resume_pipeline_batch`, with Drive's listing given by its responses. */
  method RunBatch(sheet: Spreadsheet, svc: Services, responses: seq<ListResponse>) returns (outcome: BatchOutcome)
    requires HasLastPage(responses)
    modifies sheet
    ensures sheet.writes == old(sheet.writes) + BatchWrites(ProcessStep(svc), BatchOrderOf(responses))
    ensures outcome == BatchResult(ProcessStep(svc), BatchOrderOf(responses))
  {
    sheet.WriteHeader();
    ghost var afterHeader := sheet.writes;
    var files := ListAndSort(responses);
    var step := ProcessStep(svc);
    outcome := WriteRows(sheet, step, files);
    ghost var rows := AppendsOf(RowsOf(step, files[..FirstFailure(step, files)]));
    assert sheet.writes == afterHeader + rows;
    ConcatAssoc(old(sheet.writes), [Update(HeaderRange, HeaderRow)], rows);
  }

  lemma ConcatAssoc<T>(a: seq<T>, b: seq<T>, c: seq<T>)
    ensures (a + b) + c == a + (b + c)
  {
  }

  /** The `for file in files` loop: one append per file, in order, until a file fails. */
  method WriteRows(sheet: Spreadsheet, step: Step, files: seq<DriveFile>) returns (outcome: BatchOutcome)
    modifies sheet
    ensures sheet.writes == old(sheet.writes) + AppendsOf(RowsOf(step, files[..FirstFailure(step, files)]))
    ensures outcome == BatchResult(step, files)
  {
    var i := 0;
    while i < |files|
      invariant i <= FirstFailure(step, files)
      invariant sheet.writes == old(sheet.writes) + AppendsOf(RowsOf(step, files[..i]))
    {
      var r := step(files[i]);
      if r.Err? {
        assert i == FirstFailure(step, files);
        return Aborted(files[i], r.error);
      }
      sheet.AppendRow(r.value);
      AppendRowStep(step, files, i);
      i := i + 1;
    }
    assert files[..i] == files;
    return Completed;
  }

  /** One more successful file adds its append after the earlier ones. */
  lemma AppendRowStep(step: Step, files: seq<DriveFile>, i: nat)
    requires i < |files| && step(files[i]).Ok?
    ensures AppendsOf(RowsOf(step, files[..i + 1]))
      == AppendsOf(RowsOf(step, files[..i])) + [Append(AppendRange, step(files[i]).value)]
  {
    var rows := RowsOf(step, files[..i + 1]);
    assert files[..i + 1][..i] == files[..i];
    assert rows == RowsOf(step, files[..i]) + [step(files[i]).value];
    assert rows[..|rows| - 1] == RowsOf(step, files[..i]);
  }

  /** The batch writes the header first and nothing but appends after it: one per file
      before the first failure, each the row of that file, in the sorted order. */
  lemma BatchWritesInOrder(step: Step, files: seq<DriveFile>)
    ensures var w := BatchWrites(step, files);
      var n := FirstFailure(step, files);
      && |w| == n + 1
      && w[0] == Update(HeaderRange, HeaderRow)
      && forall i :: 0 <= i < n ==> w[i + 1] == Append(AppendRange, step(files[i]).value)
  {
    var n := FirstFailure(step, files);
    var done := files[..n];
    assert forall j :: 0 <= j < n ==> done[j] == files[j];
    RowsOfSucceeding(step, done);
    var rows := RowsOf(step, done);
    var w := BatchWrites(step, files);
    assert w == [Update(HeaderRange, HeaderRow)] + AppendsOf(rows);
    forall i | 0 <= i < n
      ensures w[i + 1] == Append(AppendRange, step(files[i]).value)
    {
      assert w[i + 1] == AppendsOf(rows)[i];
    }
  }

  /** When every file succeeds, `RowsOf` has one row per file: the file's own row. */
  lemma {:induction false} RowsOfSucceeding(step: Step, files: seq<DriveFile>)
    requires forall j :: 0 <= j < |files| ==> step(files[j]).Ok?
    ensures |RowsOf(step, files)| == |files|
    ensures forall j :: 0 <= j < |files| ==> RowsOf(step, files)[j] == step(files[j]).value
    decreases |files|
  {
    if files != [] {
      var init := files[..|files| - 1];
      assert forall j :: 0 <= j < |init| ==> init[j] == files[j];
      RowsOfSucceeding(step, init);
    }
  }

  /** The run completes exactly when every file succeeds; otherwise it reports the first
      file that failed, after whose failure nothing is written. */
  lemma BatchResultCases(step: Step, files: seq<DriveFile>)
    ensures BatchResult(step, files) == Completed <==> forall j :: 0 <= j < |files| ==> step(files[j]).Ok?
    ensures BatchResult(step, files).Aborted? ==> exists n ::
      && 0 <= n < |files| && step(files[n]).Err?
      && BatchResult(step, files) == Aborted(files[n], step(files[n]).error)
      && (forall j :: 0 <= j < n ==> step(files[j]).Ok?)
      && |BatchWrites(step, files)| == n + 1
  {
    var n := FirstFailure(step, files);
    BatchWritesInOrder(step, files);
    if n < |files| {
      assert !(forall j :: 0 <= j < |files| ==> step(files[j]).Ok?) by {
        assert step(files[n]).Err?;
      }
    }
  }

  /** `run_resume_pipeline_single`: the file's name comes from its metadata, the file id
      is the requested one. */
  function SingleResult(svc: Services, metadata: string -> Result<string, string>, fileId: string): Result<Row, Failure>
  {
    match metadata(fileId)
    case Err(m) => Err(MetadataFailed(m))
    case Ok(name) => ProcessFile(svc, DriveFile(fileId, name))
  }

  /** A single run appends the file's row when it succeeds and writes nothing otherwise;
      it writes no header. */
  method RunSingle(sheet: Spreadsheet, svc: Services, metadata: string -> Result<string, string>, fileId: string)
    returns (r: Result<Row, Failure>)
    modifies sheet
    ensures r == SingleResult(svc, metadata, fileId)
    ensures r.Ok? ==> sheet.writes == old(sheet.writes) + [Append(AppendRange, r.value)]
    ensures r.Err? ==> sheet.writes == old(sheet.writes)
  {
    var name := metadata(fileId);
    if name.Err? {
      return Err(MetadataFailed(name.error));
    }
    r := ProcessFile(svc, DriveFile(fileId, name.value));
    if r.Ok? {
      sheet.AppendRow(r.value);
    }
  }

  /** A single run's row is the batch row of the same file under the name its metadata
      gives: the two entry points build identical rows. */
  lemma SingleMatchesBatchRow(svc: Services, metadata: string -> Result<string, string>, fileId: string, name: string)
    requires metadata(fileId) == Ok(name)
    ensures SingleResult(svc, metadata, fileId) == ProcessStep(svc)(DriveFile(fileId, name))
  {
  }
}
