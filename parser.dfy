/**
 * `parse_resume_text` of main.py: the extraction prompt, one call to the language
 * model, and exactly one retry with a corrective suffix when the first output is not
 * valid JSON. The model call and `json.loads` are oracles passed in as functions.
 */
module ResumeParser {
  import opened Wrappers
  import opened Text
  import opened Json

  /** How much of the resume text the prompt embeds. */
  const TextLimit: nat := 10000

  /** The instructions, up to where the file name is substituted. */
  const PromptHead: string :=
    "\n"
    + "You are a recruiter assistant. Extract the following fields from the resume text and return the result as a **flat valid JSON object only** (no explanation, no markdown, no comments, no formatting). If any field is missing, return an empty string. Use only the following lowercase keys in the order shown:\n"
    + "\n"
    + "[\n"
    + "  \"industry\",                // example: IT, construction, finance\n"
    + "  \"experience\",              // total years of work experience as a number\n"
    + "  \"current_location\",        // only return city and state (e.g., \"Austin, TX\")\n"
    + "  \"email\",                   // primary email address\n"
    + "  \"phone\",                   // phone number\n"
    + "  \"linkedin\",                // linkedin profile URL\n"
    + "  \"current_job_title\",       // current or most recent job title\n"
    + "  \"current_company\",         // current or most recent company\n"
    + "  \"education\",               // highest level of education: \"AA\", \"Bachelor\", \"Master\", or \"PhD\"\n"
    + "  \"major\",                   // the college major or field of study\n"
    + "  \"university\",              // name of the college or university\n"
    + "  \"location_preference\"      // preferred location to work (if stated)\n"
    + "]\n"
    + "\n"
    + "\U{26A0}\U{FE0F} Return only a valid JSON object in this exact order of keys. No explanation. No markdown. No text before or after.\n"
    + "\n"
    + "Resume file: "

  /** Between the file name and the resume text. */
  const PromptMiddle: string := "\n\nResume text:\n"

  /** After the resume text: the closing line of the template. */
  const PromptTail: string := "\n    "

  /** Appended to the prompt for the second and last attempt. */
  const RetrySuffix: string :=
    "\n\n\U{26A0}\U{FE0F} One more time, only return a valid flat JSON object with the keys in exact order and lowercase. Do not include any extra text."

  /** `resume_text[:10000]`. */
  function Truncate(text: string): (t: string)
    ensures |t| <= TextLimit && |t| <= |text|
    ensures t == text[..|t|]
    ensures |text| <= TextLimit ==> t == text
    ensures |text| >= TextLimit ==> |t| == TextLimit
  {
    if |text| <= TextLimit then text else text[..TextLimit]
  }

  /** One call of the model: the file name and the text excerpt substituted into the
      template, and whether it is the retry. `PromptText` gives the prompt string the
      request stands for. Within one call of `parse_resume_text` the two requests differ,
      so the model may answer them independently. */
  datatype Request = Request(fileName: string, excerpt: string, retry: bool)

  /** The text of the first prompt, with the file name and the excerpt substituted. */
  function FirstPrompt(fileName: string, excerpt: string): string
  {
    PromptHead + fileName + PromptMiddle + excerpt + PromptTail
  }

  /** The prompt text the model receives for a request: the retry is the first prompt
      with the fixed suffix appended. */
  function PromptText(q: Request): string
  {
    var first := FirstPrompt(q.fileName, q.excerpt);
    if q.retry then first + RetrySuffix else first
  }

  /** The first request `parse_resume_text` makes for a text and a file name. */
  function FirstRequest(text: string, fileName: string): Request
  {
    Request(fileName, Truncate(text), false)
  }

  /** The request of the second attempt. */
  function RetryOf(q: Request): Request
  {
    q.(retry := true)
  }

  /** The retry's prompt is the first prompt followed by the fixed suffix. */
  lemma RetryPromptExtendsFirst(q: Request)
    requires !q.retry
    ensures PromptText(RetryOf(q)) == PromptText(q) + RetrySuffix
  {
  }

  /** Where the text sits in the first prompt: right after the fixed head, the file name
      and the middle, and followed only by the fixed tail. */
  lemma PromptEmbedsExcerpt(head: string, fileName: string, excerpt: string)
    ensures var p := head + fileName + PromptMiddle + excerpt + PromptTail;
      var at := |head| + |fileName| + |PromptMiddle|;
      && at + |excerpt| + |PromptTail| == |p|
      && p[at..at + |excerpt|] == excerpt
      && p[..at] == head + fileName + PromptMiddle
      && p[at + |excerpt|..] == PromptTail
  {
    var p := head + fileName + PromptMiddle + excerpt + PromptTail;
    var at := |head| + |fileName| + |PromptMiddle|;
    assert p == (head + fileName + PromptMiddle) + excerpt + PromptTail;
  }

  /** The first prompt holds the first 10000 characters of the text after the head, the
      file name and the middle, followed only by the tail; nothing after them reaches the
      model. */
  lemma PromptEmbedsTruncatedText(text: string, fileName: string)
    ensures var p := PromptText(FirstRequest(text, fileName));
      var at := |PromptHead| + |fileName| + |PromptMiddle|;
      && at + |Truncate(text)| + |PromptTail| == |p|
      && p[at..at + |Truncate(text)|] == Truncate(text)
      && p[..at] == PromptHead + fileName + PromptMiddle
      && p[at + |Truncate(text)|..] == PromptTail
  {
    PromptEmbedsExcerpt(PromptHead, fileName, Truncate(text));
  }

  /** How a call of `parse_resume_text` ends: with the parsed value, with an exception
      from the model call (never retried), or with the `JSONDecodeError` of the second
      output, which is re-raised after the output is printed. */
  datatype ParseOutcome =
    | Parsed(value: Value)
    | CallFailed(message: string)
    | Unparsable(output: string, message: string)

  /** The requests sent to the model, in order, and the outcome. */
  datatype ParseRun = ParseRun(requests: seq<Request>, outcome: ParseOutcome)

  /** `parse_resume_text(resume_text, file_name)`, with `complete` the model call
      (`Err` when it raises) and `loads` the JSON decoder (`Err` on a decode error). */
  function ParseResumeText(resumeText: string, fileName: string,
                           complete: Request -> Result<string, string>,
                           loads: string -> Result<Value, string>): ParseRun
  {
    ParseWithRetry(FirstRequest(resumeText, fileName), complete, loads)
  }

  /** The two attempts for a given first request. */
  function ParseWithRetry(first: Request, complete: Request -> Result<string, string>,
                          loads: string -> Result<Value, string>): ParseRun
  {
    match complete(first)
    case Err(m) => ParseRun([first], CallFailed(m))
    case Ok(raw) =>
      match loads(Strip(raw))
      case Ok(v) => ParseRun([first], Parsed(v))
      case Err(_) =>
        var retry := RetryOf(first);
        match complete(retry)
        case Err(m) => ParseRun([first, retry], CallFailed(m))
        case Ok(raw2) =>
          match loads(Strip(raw2))
          case Ok(v) => ParseRun([first, retry], Parsed(v))
          case Err(m) => ParseRun([first, retry], Unparsable(Strip(raw2), m))
  }

  /** The first request is always sent; a second one is sent exactly when the first
      output failed to decode, and it is the retry of the first. There is never a third. */
  lemma AtMostOneRetry(first: Request, complete: Request -> Result<string, string>,
                       loads: string -> Result<Value, string>)
    ensures var run := ParseWithRetry(first, complete, loads);
      && 1 <= |run.requests| <= 2
      && run.requests[0] == first
      && (|run.requests| == 2 <==> complete(first).Ok? && loads(Strip(complete(first).value)).Err?)
      && (|run.requests| == 2 ==> run.requests[1] == RetryOf(first))
  {
    match complete(first)
    case Err(_) =>
    case Ok(raw) =>
      var decoded := loads(Strip(raw));
      if decoded.Err? {
        var _ := complete(RetryOf(first));
      }
  }

  /** Output that decodes on the first attempt is returned after one call. */
  lemma FirstAttemptParses(first: Request, complete: Request -> Result<string, string>,
                           loads: string -> Result<Value, string>, raw: string, v: Value)
    requires complete(first) == Ok(raw)
    requires loads(Strip(raw)) == Ok(v)
    ensures ParseWithRetry(first, complete, loads) == ParseRun([first], Parsed(v))
  {
  }

  /** When both outputs fail to decode, the call fails with the second decode error and
      the second (stripped) output; nothing parsed is returned. */
  lemma SecondFailureIsFatal(first: Request, complete: Request -> Result<string, string>,
                             loads: string -> Result<Value, string>, raw1: string, raw2: string, m: string)
    requires complete(first) == Ok(raw1)
    requires loads(Strip(raw1)).Err?
    requires complete(RetryOf(first)) == Ok(raw2)
    requires loads(Strip(raw2)) == Err(m)
    ensures ParseWithRetry(first, complete, loads)
      == ParseRun([first, RetryOf(first)], Unparsable(Strip(raw2), m))
  {
  }

  /** A parsed result is always what the decoder made of the model's answer to the last
      request sent. */
  lemma ParsedComesFromLastOutput(first: Request, complete: Request -> Result<string, string>,
                                  loads: string -> Result<Value, string>)
    ensures var run := ParseWithRetry(first, complete, loads);
      var last := run.requests[|run.requests| - 1];
      run.outcome.Parsed? ==> complete(last).Ok? && loads(Strip(complete(last).value)) == Ok(run.outcome.value)
  {
    match complete(first)
    case Err(_) =>
    case Ok(raw) =>
      var decoded := loads(Strip(raw));
      if decoded.Err? {
        var _ := complete(RetryOf(first));
      }
  }

  /** A failing model call ends the attempt at once: the first call's failure is not retried. */
  lemma CallFailureNotRetried(first: Request, complete: Request -> Result<string, string>,
                              loads: string -> Result<Value, string>, m: string)
    requires complete(first) == Err(m)
    ensures ParseWithRetry(first, complete, loads) == ParseRun([first], CallFailed(m))
  {
  }

  /** Two resumes that agree on their first 10000 characters are parsed identically:
      same requests, same outcome. */
  lemma ParseSeesOnlyPrefix(t1: string, t2: string, fileName: string,
                            complete: Request -> Result<string, string>, loads: string -> Result<Value, string>)
    requires |t1| >= TextLimit && |t2| >= TextLimit && t1[..TextLimit] == t2[..TextLimit]
    ensures ParseResumeText(t1, fileName, complete, loads) == ParseResumeText(t2, fileName, complete, loads)
  {
    assert FirstRequest(t1, fileName) == FirstRequest(t2, fileName);
  }
}
