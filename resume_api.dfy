/**
 * The two HTTP endpoints: `POST /analyze` (upload a PDF, get the structured résumé) and
 * `POST /match` (score a stored résumé against a job description), both behind the cache.
 *
 * Each endpoint is given twice: as a function of the cache state that also lists the calls it
 * makes to its collaborators, and as a method on the `RedisService` object that is proved to
 * give the same reply and leave the cache in the same state.
 */
module ResumeApi {
  import opened Wrappers
  import opened Text
  import opened JsonValues
  import opened Models
  import opened PdfService
  import opened AiService
  import opened RedisCache

  /** An uploaded file: its name and its bytes. */
  datatype Upload = Upload(filename: string, content: seq<bv8>)

  /**
   * What the endpoints depend on besides the cache: the configured API key, MD5 as a hex
   * digest (of bytes, and of the UTF-8 encoding of a string), the PDF libraries' view of a
   * file, the language model, and `json.loads`.
   */
  datatype Environment = Environment(
    apiKey: string,
    digestBytes: seq<bv8> -> string,
    digestText: string -> string,
    openPdf: seq<bv8> -> PdfDocument,
    llm: LlmRequest -> ModelReply,
    loads: string -> Option<Json>)

  /** Why an endpoint answers with an HTTP error. */
  datatype ErrorReason =
    | NotPdf                        // "Only PDF files are supported."
    | NoExtractableText             // "Could not extract text from PDF."
    | PageConversionFailed          // "Failed to convert PDF pages to images."
    | ExtractionFailed(error: AiError)
    | EmptyJobDescription           // "Job description cannot be empty"
    | ResumeNotFound                // "Resume data not found in cache. Please re-upload."
    | CacheUnavailable              // "Unable to retrieve resume info (cache unavailable)."
    | MatchingFailed(error: AiError)

  /** The HTTP status of each error. */
  function StatusCode(reason: ErrorReason): int {
    match reason
    case NotPdf => 400
    case NoExtractableText => 400
    case PageConversionFailed => 400
    case EmptyJobDescription => 400
    case ResumeNotFound => 404
    case CacheUnavailable => 404
    case ExtractionFailed(_) => 500
    case MatchingFailed(_) => 500
  }

  datatype Reply<T> = Succeeded(body: T) | Failed(reason: ErrorReason)

  /** A call an endpoint makes to one of its collaborators. */
  datatype Call =
    | CacheGet(key: string)
    | CacheSet(key: string)
    | PdfText
    | PdfImageCheck
    | PdfRender
    | Model(request: LlmRequest)

  datatype AnalyzeFaults = AnalyzeFaults(lookup: StoreFault, store: StoreFault)

  datatype MatchFaults = MatchFaults(matchLookup: StoreFault, resumeLookup: StoreFault, store: StoreFault)

  datatype AnalyzeRun = AnalyzeRun(reply: Reply<ResumeAnalyzeResponse>, calls: seq<Call>, next: CacheState)

  datatype MatchRun = MatchRun(reply: Reply<ResumeMatchResponse>, calls: seq<Call>, next: CacheState)

  /** A résumé and the message that says where it came from. */
  datatype Extracted = Extracted(data: ResumeData, message: string)

  const CacheHitMessage := "Success (Cache Hit)"
  const MockApiMessage := "Success (Mock API)"
  const MockMatchMessage := "Success (Mock Match)"
  const VisionMessage := "Success (Vision AI)"
  const SuccessMessage := "Success"

  /** The résumé returned when no API key is configured. */
  const MockResume := ResumeData(
    BasicInfo(Some("Test User"), Some("123456789"), Some("test@test.com"), Some("Beijing")),
    Some("Software Engineer"), Some("3 years"), Some("Bachelor of Computer Science"),
    Some("Skilled in Python and React."))

  /** The match result returned when no API key is configured. */
  const MockMatch := MatchResult(85, "85%", "Highly relevant", "This candidate fits well.")

  /** A cached value that is truthy: what the `if cached:` checks let through. */
  function Hit(outcome: CacheRead): Option<Json> {
    if outcome.Found? && Truthy(outcome.value) then Some(outcome.value) else None
  }

  /** A cached résumé the analyze endpoint can serve; a value that does not validate counts as a miss. */
  function CachedResume(outcome: CacheRead): Option<ResumeData> {
    match Hit(outcome)
    case None => None
    case Some(v) => ResumeDataFromJson(v)
  }

  // ---------------------------------------------------------------------------------------
  // POST /analyze

  /** The outcome of the extraction and the calls it made, in order. */
  datatype Extraction = Extraction(result: Result<Extracted, ErrorReason>, calls: seq<Call>)

  /**
   * Text extraction, the image-based check and the model call that follow a cache miss, given
   * the extracted text, the outcome of the image-based check and the rendered pages (the check
   * is made and the pages are rendered only when the text is blank).
   */
  function Extract(text: string, imageBased: bool, pages: seq<string>, env: Environment): (x: Extraction)
    // outcomes
    ensures IsBlank(text) && !imageBased ==> x.result == Failure(NoExtractableText)
    ensures env.apiKey == "" && (!IsBlank(text) || imageBased) ==>
              x.result == Success(Extracted(MockResume, MockApiMessage))
    ensures env.apiKey != "" && IsBlank(text) && imageBased && pages == [] ==>
              x.result == Failure(PageConversionFailed)
    ensures env.apiKey != "" && !IsBlank(text) ==>
              var e := ExtractResumeInfo(env.llm, env.loads, text, env.apiKey);
              && (e.Success? ==> x.result == Success(Extracted(e.value, SuccessMessage)))
              && (e.Failure? ==> x.result == Failure(ExtractionFailed(e.error)))
    ensures env.apiKey != "" && IsBlank(text) && imageBased && pages != [] ==>
              var e := ImageExtraction(env.llm, env.loads, pages, env.apiKey);
              && (e.Success? ==> x.result == Success(Extracted(e.value, VisionMessage)))
              && (e.Failure? ==> x.result == Failure(ExtractionFailed(e.error)))
    ensures x.result.Failure? ==>
              StatusCode(x.result.error) == (if x.result.error.ExtractionFailed? then 500 else 400)
    // calls
    ensures env.apiKey == "" ==> forall c | c in x.calls :: !c.Model?
    ensures env.apiKey != "" ==>
              var textCall := Model(TextExtraction(TextModel, Take(text, MaxResumeChars)));
              var visionCall := Model(VisionExtraction(VisionModel, VisionContent(pages)));
              && (textCall in x.calls <==> !IsBlank(text))
              && (PdfRender in x.calls <==> IsBlank(text) && imageBased)
              && (visionCall in x.calls <==> IsBlank(text) && imageBased && pages != [])
    ensures forall c | c in x.calls :: !c.CacheGet? && !c.CacheSet?
  {
    if !IsBlank(text) then
      if env.apiKey == "" then Extraction(Success(Extracted(MockResume, MockApiMessage)), [PdfText])
      else
        var calls := [PdfText, Model(TextExtraction(TextModel, Take(text, MaxResumeChars)))];
        match ExtractResumeInfo(env.llm, env.loads, text, env.apiKey)
        case Failure(err) => Extraction(Failure(ExtractionFailed(err)), calls)
        case Success(d) => Extraction(Success(Extracted(d, SuccessMessage)), calls)
    else if !imageBased then Extraction(Failure(NoExtractableText), [PdfText, PdfImageCheck])
    else if env.apiKey == "" then Extraction(Success(Extracted(MockResume, MockApiMessage)), [PdfText, PdfImageCheck])
    else if pages == [] then Extraction(Failure(PageConversionFailed), [PdfText, PdfImageCheck, PdfRender])
    else
      var calls := [PdfText, PdfImageCheck, PdfRender, Model(VisionExtraction(VisionModel, VisionContent(pages)))];
      match ImageExtraction(env.llm, env.loads, pages, env.apiKey)
      case Failure(err) => Extraction(Failure(ExtractionFailed(err)), calls)
      case Success(d) => Extraction(Success(Extracted(d, VisionMessage)), calls)
  }

  /** The extraction after a cache miss, on the uploaded document. */
  function ExtractionStep(doc: PdfDocument, env: Environment): Extraction {
    Extract(DocumentText(doc), ImageBased(doc), PageImages(doc), env)
  }

  /** `analyze_resume` on a cache state. */
  function Analyze(upload: Upload, env: Environment, st: CacheState, faults: AnalyzeFaults): (run: AnalyzeRun)
    ensures run.reply.Succeeded? ==> run.reply.body.resumeId == env.digestBytes(upload.content)
    ensures run.reply.Failed? ==> StatusCode(run.reply.reason) in {400, 500}
    ensures ValidState(st) ==> ValidState(run.next)
  {
    if !HasSuffix(upload.filename, ".pdf") then AnalyzeRun(Failed(NotPdf), [], st)
    else
      var resumeId := env.digestBytes(upload.content);
      var key := ResumeKey(resumeId);
      var lookup := Read(st, key, faults.lookup);
      StepsKeepValid(st, key, JNull, faults.lookup);
      match CachedResume(lookup.outcome)
      case Some(d) => AnalyzeRun(Succeeded(ResumeAnalyzeResponse(resumeId, d, CacheHitMessage)), [CacheGet(key)], lookup.next)
      case None =>
        var x := ExtractionStep(env.openPdf(upload.content), env);
        var calls := [CacheGet(key)] + x.calls;
        match x.result
        case Failure(reason) => AnalyzeRun(Failed(reason), calls, lookup.next)
        case Success(x) =>
          var save := Write(lookup.next, key, ResumeDataToJson(x.data), faults.store);
          StepsKeepValid(lookup.next, key, ResumeDataToJson(x.data), faults.store);
          AnalyzeRun(Succeeded(ResumeAnalyzeResponse(resumeId, x.data, x.message)),
                     calls + [CacheSet(key)], save.next)
  }

  /** The body of `analyze_resume` between the cache lookup and the save, as the code runs it. */
  method ExtractResume(doc: PdfDocument, env: Environment) returns (r: Result<Extracted, ErrorReason>)
    ensures r == ExtractionStep(doc, env).result
  {
    var rawText := PdfService.ExtractText(doc);
    var isImagePdf := false;
    if rawText == "" || Strip(rawText) == "" {
      isImagePdf := IsImageBasedPdf(doc);
      if !isImagePdf {
        return Failure(NoExtractableText);
      }
    }
    if env.apiKey == "" {
      return Success(Extracted(MockResume, MockApiMessage));
    }
    if isImagePdf || Strip(rawText) == "" {
      var pageImages := PdfPagesToBase64Images(doc);
      if pageImages == [] {
        return Failure(PageConversionFailed);
      }
      var e := ExtractResumeInfoFromImages(env.llm, env.loads, pageImages, env.apiKey);
      if e.Failure? {
        return Failure(ExtractionFailed(e.error));
      }
      r := Success(Extracted(e.value, VisionMessage));
    } else {
      var e := ExtractResumeInfo(env.llm, env.loads, rawText, env.apiKey);
      if e.Failure? {
        return Failure(ExtractionFailed(e.error));
      }
      r := Success(Extracted(e.value, SuccessMessage));
    }
  }

  /** `analyze_resume`, on the service object. */
  method AnalyzeResume(cache: RedisService, upload: Upload, env: Environment, faults: AnalyzeFaults)
    returns (reply: Reply<ResumeAnalyzeResponse>)
    requires cache.Valid()
    modifies cache, cache.client
    ensures cache.Valid()
    ensures reply == Analyze(upload, env, old(cache.State()), faults).reply
    ensures cache.State() == Analyze(upload, env, old(cache.State()), faults).next
  {
    if !HasSuffix(upload.filename, ".pdf") {
      return Failed(NotPdf);
    }
    var resumeId := env.digestBytes(upload.content);
    var cached := cache.GetResumeData(resumeId, faults.lookup);
    var hit := CachedResume(cached);
    if hit.Some? {
      return Succeeded(ResumeAnalyzeResponse(resumeId, hit.value, CacheHitMessage));
    }
    var doc := env.openPdf(upload.content);
    var r := ExtractResume(doc, env);
    if r.Failure? {
      return Failed(r.error);
    }
    var extracted, message := r.value.data, r.value.message;
    var _ := cache.CacheResumeData(resumeId, ResumeDataToJson(extracted), faults.store);
    reply := Succeeded(ResumeAnalyzeResponse(resumeId, extracted, message));
  }

  /** A file whose name does not end in ".pdf" is refused with 400 before anything is read or cached. */
  lemma NonPdfRefused(upload: Upload, env: Environment, st: CacheState, faults: AnalyzeFaults)
    requires !HasSuffix(upload.filename, ".pdf")
    ensures Analyze(upload, env, st, faults) == AnalyzeRun(Failed(NotPdf), [], st)
    ensures StatusCode(NotPdf) == 400
  {
  }

  /** A cached résumé is served as is: neither the PDF nor the model is consulted, nothing is written. */
  lemma CacheHitServed(upload: Upload, env: Environment, st: CacheState, faults: AnalyzeFaults, d: ResumeData)
    requires HasSuffix(upload.filename, ".pdf")
    requires CachedResume(Read(st, ResumeKey(env.digestBytes(upload.content)), faults.lookup).outcome) == Some(d)
    ensures var id := env.digestBytes(upload.content);
            var run := Analyze(upload, env, st, faults);
            && run.reply == Succeeded(ResumeAnalyzeResponse(id, d, CacheHitMessage))
            && run.calls == [CacheGet(ResumeKey(id))]
            && run.next == Read(st, ResumeKey(id), faults.lookup).next
  {
  }

  /** Without an API key the analyze endpoint never calls the model. */
  lemma NoKeyNoModel(upload: Upload, env: Environment, st: CacheState, faults: AnalyzeFaults, request: LlmRequest)
    requires env.apiKey == ""
    ensures Model(request) !in Analyze(upload, env, st, faults).calls
  {
    var key := ResumeKey(env.digestBytes(upload.content));
    if HasSuffix(upload.filename, ".pdf") && CachedResume(Read(st, key, faults.lookup).outcome).None? {
      var trace := ExtractionStep(env.openPdf(upload.content), env).calls;
      assert Model(request) !in trace;
      var calls := AnalyzeMissCalls(upload, env, st, faults);
      MissCallsContain(Model(request), key, trace, calls);
    }
  }

  /** A Redis error while looking up the résumé is ignored: the reply is the one an empty cache gives. */
  lemma LookupErrorIgnored(upload: Upload, env: Environment, st: CacheState, store: StoreFault)
    requires st.backing.Some?
    ensures Analyze(upload, env, st, AnalyzeFaults(Rejected, store)).reply
         == Analyze(upload, env, CacheState(None, map[]), AnalyzeFaults(Rejected, store)).reply
  {
  }

  /** Without an API key, a PDF with usable content yields the fixed mock résumé. */
  lemma NoKeyMockResume(upload: Upload, env: Environment, st: CacheState, faults: AnalyzeFaults)
    requires env.apiKey == "" && HasSuffix(upload.filename, ".pdf")
    requires CachedResume(Read(st, ResumeKey(env.digestBytes(upload.content)), faults.lookup).outcome).None?
    requires var doc := env.openPdf(upload.content); !IsBlank(DocumentText(doc)) || ImageBased(doc)
    ensures Analyze(upload, env, st, faults).reply
         == Succeeded(ResumeAnalyzeResponse(env.digestBytes(upload.content), MockResume, MockApiMessage))
  {
  }

  /**
   * After a cache miss, the text model is asked exactly when text could be extracted, and the
   * vision model exactly when the PDF is image-based and its pages rendered; each sees the
   * truncated text or the first four pages.
   */
  lemma ModelChoice(upload: Upload, env: Environment, st: CacheState, faults: AnalyzeFaults)
    requires HasSuffix(upload.filename, ".pdf") && env.apiKey != ""
    requires CachedResume(Read(st, ResumeKey(env.digestBytes(upload.content)), faults.lookup).outcome).None?
    ensures var doc := env.openPdf(upload.content);
            var text := DocumentText(doc);
            var textCall := Model(TextExtraction(TextModel, Take(text, MaxResumeChars)));
            var visionCall := Model(VisionExtraction(VisionModel, VisionContent(PageImages(doc))));
            var calls := Analyze(upload, env, st, faults).calls;
            && (textCall in calls <==> !IsBlank(text))
            && (PdfRender in calls <==> IsBlank(text) && ImageBased(doc))
            && (visionCall in calls <==> IsBlank(text) && ImageBased(doc) && PageImages(doc) != [])
  {
    var doc := env.openPdf(upload.content);
    var key := ResumeKey(env.digestBytes(upload.content));
    var trace := ExtractionStep(doc, env).calls;
    var calls := AnalyzeMissCalls(upload, env, st, faults);
    var text := DocumentText(doc);
    var textCall := Model(TextExtraction(TextModel, Take(text, MaxResumeChars)));
    var visionCall := Model(VisionExtraction(VisionModel, VisionContent(PageImages(doc))));
    MissCallsContain(textCall, key, trace, calls);
    MissCallsContain(visionCall, key, trace, calls);
    MissCallsContain(PdfRender, key, trace, calls);
  }

  /** Framing the extraction's calls with the cache calls adds no other call. */
  lemma MissCallsContain(x: Call, key: string, trace: seq<Call>, calls: seq<Call>)
    requires calls == [CacheGet(key)] + trace || calls == [CacheGet(key)] + trace + [CacheSet(key)]
    requires !x.CacheGet? && !x.CacheSet?
    ensures x in calls <==> x in trace
  {
  }

  /** After a cache miss, the calls are the lookup, the extraction's calls and possibly the save. */
  lemma AnalyzeMissCalls(upload: Upload, env: Environment, st: CacheState, faults: AnalyzeFaults) returns (calls: seq<Call>)
    requires HasSuffix(upload.filename, ".pdf")
    requires CachedResume(Read(st, ResumeKey(env.digestBytes(upload.content)), faults.lookup).outcome).None?
    ensures calls == Analyze(upload, env, st, faults).calls
    ensures var key := ResumeKey(env.digestBytes(upload.content));
            var trace := ExtractionStep(env.openPdf(upload.content), env).calls;
            calls == [CacheGet(key)] + trace || calls == [CacheGet(key)] + trace + [CacheSet(key)]
  {
    calls := Analyze(upload, env, st, faults).calls;
  }

  /**
   * After a cache miss, the reply is the extraction's: its error with that error's status, or
   * the extracted résumé under the file's identifier with the extraction's message.
   */
  lemma AnalyzeMissReply(upload: Upload, env: Environment, st: CacheState, faults: AnalyzeFaults)
    requires HasSuffix(upload.filename, ".pdf")
    requires CachedResume(Read(st, ResumeKey(env.digestBytes(upload.content)), faults.lookup).outcome).None?
    ensures var x := ExtractionStep(env.openPdf(upload.content), env).result;
            var reply := Analyze(upload, env, st, faults).reply;
            && (x.Failure? ==> reply == Failed(x.error))
            && (x.Success? ==> reply == Succeeded(ResumeAnalyzeResponse(env.digestBytes(upload.content), x.value.data, x.value.message)))
  {
  }

  /** Whether saving the result fails never changes the reply. */
  lemma StoreFaultInvisible(upload: Upload, env: Environment, st: CacheState, lookup: StoreFault, s1: StoreFault, s2: StoreFault)
    ensures Analyze(upload, env, st, AnalyzeFaults(lookup, s1)).reply == Analyze(upload, env, st, AnalyzeFaults(lookup, s2)).reply
  {
  }

  /**
   * After a successful analysis whose save did not raise, the résumé key holds a value that
   * validates to the returned résumé (the cached one, or the freshly extracted one).
   */
  lemma AnalyzeLeavesResume(upload: Upload, env: Environment, st: CacheState, f: AnalyzeFaults)
    requires ValidState(st)
    requires Analyze(upload, env, st, f).reply.Succeeded?
    requires f.store != Rejected
    ensures var run := Analyze(upload, env, st, f);
            var key := ResumeKey(env.digestBytes(upload.content));
            CachedResume(Read(run.next, key, NoFault).outcome) == Some(run.reply.body.data)
  {
    var key := ResumeKey(env.digestBytes(upload.content));
    var lookup := Read(st, key, f.lookup);
    StepsKeepValid(st, key, JNull, f.lookup);
    var run := Analyze(upload, env, st, f);
    var d := run.reply.body.data;
    if CachedResume(lookup.outcome).None? {
      var x := ExtractionStep(env.openPdf(upload.content), env).result;
      assert x.Success? && d == x.value.data;
      assert run.next == Write(lookup.next, key, ResumeDataToJson(d), f.store).next;
      ReadAfterWrite(lookup.next, key, ResumeDataToJson(d), f.store, NoFault);
      ResumeDataRoundTrip(d);
    } else if lookup.next.backing.Some? {
      assert f.lookup == NoFault;
    }
  }

  /**
   * Analyzing the same file again is a cache hit with the same identifier and résumé, whatever
   * the model or the API key then are, provided the save did not raise and the second lookup
   * succeeds.
   */
  lemma AnalyzeTwiceHits(upload: Upload, env: Environment, env2: Environment, st: CacheState,
                         f1: AnalyzeFaults, f2: AnalyzeFaults)
    requires ValidState(st)
    requires env2.digestBytes == env.digestBytes
    requires Analyze(upload, env, st, f1).reply.Succeeded?
    requires f1.store != Rejected && f2.lookup == NoFault
    ensures var first := Analyze(upload, env, st, f1).reply.body;
            Analyze(upload, env2, Analyze(upload, env, st, f1).next, f2).reply
              == Succeeded(ResumeAnalyzeResponse(first.resumeId, first.data, CacheHitMessage))
  {
    var run := Analyze(upload, env, st, f1);
    AnalyzeLeavesResume(upload, env, st, f1);
    CacheHitServed(upload, env2, run.next, f2, run.reply.body.data);
  }

  // ---------------------------------------------------------------------------------------
  // POST /match

  /** The match result and its message once the résumé has been found. */
  datatype Scored = Scored(result: Result<(MatchResult, string), ErrorReason>, calls: seq<Call>)

  /**
   * Scoring a found résumé: without a key the mock result and no call; with a key one call to
   * the text model with the truncated job description, whose result is returned with "Success"
   * or whose error is answered with 500.
   */
  function ScoringStep(resumeData: Json, job: string, env: Environment): (s: Scored)
    ensures env.apiKey == "" ==> s == Scored(Success((MockMatch, MockMatchMessage)), [])
    ensures env.apiKey != "" ==>
              var m := ScoreResume(env.llm, env.loads, resumeData, job, env.apiKey);
              && s.calls == [Model(LlmRequest.Scoring(TextModel, Take(job, MaxJobChars), resumeData))]
              && (m.Success? ==> s.result == Success((m.value, SuccessMessage)))
              && (m.Failure? ==> s.result == Failure(MatchingFailed(m.error)))
    ensures s.result.Failure? ==> s.result.error.MatchingFailed? && StatusCode(s.result.error) == 500
  {
    if env.apiKey == "" then Scored(Success((MockMatch, MockMatchMessage)), [])
    else
      var calls := [Model(LlmRequest.Scoring(TextModel, Take(job, MaxJobChars), resumeData))];
      match ScoreResume(env.llm, env.loads, resumeData, job, env.apiKey)
      case Failure(err) => Scored(Failure(MatchingFailed(err)), calls)
      case Success(m) => Scored(Success((m, SuccessMessage)), calls)
  }

  /** `match_job` on a cache state. */
  function Match(request: JobDescriptionRequest, env: Environment, st: CacheState, faults: MatchFaults): (run: MatchRun)
    ensures run.reply.Succeeded? ==> run.reply.body.resumeId == request.resumeId
    ensures run.reply.Failed? ==> (StatusCode(run.reply.reason) == 400 <==> run.reply.reason == EmptyJobDescription)
    ensures ValidState(st) ==> ValidState(run.next)
  {
    var job := Strip(request.jobDescription);
    if job == "" then MatchRun(Failed(EmptyJobDescription), [], st)
    else
      var resumeId := request.resumeId;
      var matchKey := MatchKey(resumeId, env.digestText(job));
      var resumeKey := ResumeKey(resumeId);
      var first := Read(st, matchKey, faults.matchLookup);
      StepsKeepValid(st, matchKey, JNull, faults.matchLookup);
      if first.outcome.Raised? then MatchRun(Failed(CacheUnavailable), [CacheGet(matchKey)], first.next)
      else if Hit(first.outcome).Some? then
        match MatchResultFromJson(Hit(first.outcome).value)
        case Some(m) => MatchRun(Succeeded(ResumeMatchResponse(resumeId, m, CacheHitMessage)), [CacheGet(matchKey)], first.next)
        case None => MatchRun(Failed(CacheUnavailable), [CacheGet(matchKey)], first.next)
      else
        var second := Read(first.next, resumeKey, faults.resumeLookup);
        StepsKeepValid(first.next, resumeKey, JNull, faults.resumeLookup);
        var looked := [CacheGet(matchKey), CacheGet(resumeKey)];
        if second.outcome.Raised? then MatchRun(Failed(CacheUnavailable), looked, second.next)
        else if Hit(second.outcome).None? then MatchRun(Failed(ResumeNotFound), looked, second.next)
        else
          var s := ScoringStep(Hit(second.outcome).value, job, env);
          match s.result
          case Failure(reason) => MatchRun(Failed(reason), looked + s.calls, second.next)
          case Success(scored) =>
            var save := Write(second.next, matchKey, MatchResultToJson(scored.0), faults.store);
            StepsKeepValid(second.next, matchKey, MatchResultToJson(scored.0), faults.store);
            MatchRun(Succeeded(ResumeMatchResponse(resumeId, scored.0, scored.1)), looked + s.calls + [CacheSet(matchKey)], save.next)
  }

  /** `match_job`, on the service object. */
  method MatchJob(cache: RedisService, request: JobDescriptionRequest, env: Environment, faults: MatchFaults)
    returns (reply: Reply<ResumeMatchResponse>)
    requires cache.Valid()
    modifies cache, cache.client
    ensures cache.Valid()
    ensures reply == Match(request, env, old(cache.State()), faults).reply
    ensures cache.State() == Match(request, env, old(cache.State()), faults).next
  {
    var jobDesc := Strip(request.jobDescription);
    var resumeId := request.resumeId;
    if jobDesc == "" {
      return Failed(EmptyJobDescription);
    }
    var jobHash := env.digestText(jobDesc);
    var cachedResult := cache.GetMatchResult(resumeId, jobHash, faults.matchLookup);
    if cachedResult.Raised? {
      return Failed(CacheUnavailable);
    }
    if Hit(cachedResult).Some? {
      var m := MatchResultFromJson(Hit(cachedResult).value);
      if m.None? {
        return Failed(CacheUnavailable);
      }
      return Succeeded(ResumeMatchResponse(resumeId, m.value, CacheHitMessage));
    }
    var resumeData := cache.GetResumeData(resumeId, faults.resumeLookup);
    if resumeData.Raised? {
      return Failed(CacheUnavailable);
    }
    if Hit(resumeData).None? {
      return Failed(ResumeNotFound);
    }
    var matchRes: MatchResult;
    var message: string;
    if env.apiKey == "" {
      matchRes, message := MockMatch, MockMatchMessage;
    } else {
      var r := ScoreResume(env.llm, env.loads, Hit(resumeData).value, jobDesc, env.apiKey);
      if r.Failure? {
        return Failed(MatchingFailed(r.error));
      }
      matchRes, message := r.value, SuccessMessage;
    }
    var _ := cache.CacheMatchResult(resumeId, jobHash, MatchResultToJson(matchRes), faults.store);
    reply := Succeeded(ResumeMatchResponse(resumeId, matchRes, message));
  }

  /** Without an API key the match endpoint never calls the model; it answers with the fixed mock result. */
  lemma NoKeyMockMatch(request: JobDescriptionRequest, env: Environment, st: CacheState, faults: MatchFaults, llmRequest: LlmRequest)
    requires env.apiKey == ""
    ensures Model(llmRequest) !in Match(request, env, st, faults).calls
    ensures var reply := Match(request, env, st, faults).reply;
            reply.Succeeded? && reply.body.message != CacheHitMessage ==> reply.body.matchResult == MockMatch
  {
  }

  /** A blank job description is refused with 400 before the cache is consulted. */
  lemma BlankJobRefused(request: JobDescriptionRequest, env: Environment, st: CacheState, faults: MatchFaults)
    requires IsBlank(request.jobDescription)
    ensures Match(request, env, st, faults) == MatchRun(Failed(EmptyJobDescription), [], st)
  {
  }

  /** Whitespace around the job description changes nothing: it is stripped before hashing and scoring. */
  lemma JobPaddingIgnored(request: JobDescriptionRequest, w1: string, w2: string, env: Environment,
                          st: CacheState, faults: MatchFaults)
    requires IsBlank(w1) && IsBlank(w2)
    ensures Match(request.(jobDescription := w1 + request.jobDescription + w2), env, st, faults)
         == Match(request, env, st, faults)
  {
    var padded := request.(jobDescription := w1 + request.jobDescription + w2);
    StripPadded(w1, request.jobDescription, w2);
    assert padded.resumeId == request.resumeId;
    assert Strip(padded.jobDescription) == Strip(request.jobDescription);
  }

  /** A stored match result is served before the résumé is even looked up. */
  lemma MatchCacheHitServed(request: JobDescriptionRequest, env: Environment, st: CacheState, faults: MatchFaults, m: MatchResult)
    requires !IsBlank(request.jobDescription)
    requires var key := MatchKey(request.resumeId, env.digestText(Strip(request.jobDescription)));
             var v := Hit(Read(st, key, faults.matchLookup).outcome);
             v.Some? && MatchResultFromJson(v.value) == Some(m)
    ensures var key := MatchKey(request.resumeId, env.digestText(Strip(request.jobDescription)));
            var run := Match(request, env, st, faults);
            && run.reply == Succeeded(ResumeMatchResponse(request.resumeId, m, CacheHitMessage))
            && run.calls == [CacheGet(key)]
  {
  }

  /** A résumé that is not cached gives 404 and the model is not called. */
  lemma UnknownResumeNotFound(request: JobDescriptionRequest, env: Environment, st: CacheState, faults: MatchFaults)
    requires !IsBlank(request.jobDescription)
    requires var key := MatchKey(request.resumeId, env.digestText(Strip(request.jobDescription)));
             var first := Read(st, key, faults.matchLookup);
             && first.outcome == Missing
             && Read(first.next, ResumeKey(request.resumeId), faults.resumeLookup).outcome == Missing
    ensures var run := Match(request, env, st, faults);
            && run.reply == Failed(ResumeNotFound) && StatusCode(run.reply.reason) == 404
            && forall i | 0 <= i < |run.calls| :: !run.calls[i].Model?
  {
  }

  /**
   * The cache errors of the match endpoint all answer 404 "cache unavailable": a raising match
   * lookup, a cached match that does not validate, and a raising résumé lookup.
   */
  lemma CacheFailuresUnavailable(request: JobDescriptionRequest, env: Environment, st: CacheState, faults: MatchFaults)
    requires !IsBlank(request.jobDescription)
    ensures var key := MatchKey(request.resumeId, env.digestText(Strip(request.jobDescription)));
            var first := Read(st, key, faults.matchLookup);
            var second := Read(first.next, ResumeKey(request.resumeId), faults.resumeLookup);
            var reply := Match(request, env, st, faults).reply;
            && (first.outcome.Raised? ==> reply == Failed(CacheUnavailable))
            && (Hit(first.outcome).Some? && MatchResultFromJson(Hit(first.outcome).value).None? ==>
                  reply == Failed(CacheUnavailable))
            && (!first.outcome.Raised? && Hit(first.outcome).None? && second.outcome.Raised? ==>
                  reply == Failed(CacheUnavailable))
    ensures StatusCode(CacheUnavailable) == 404
  {
  }

  /**
   * Once the résumé is found, the reply is the scoring's: its error, or the result under the
   * request's identifier with the scoring's message.
   */
  lemma MatchFoundReply(request: JobDescriptionRequest, env: Environment, st: CacheState, faults: MatchFaults)
    requires !IsBlank(request.jobDescription)
    requires var key := MatchKey(request.resumeId, env.digestText(Strip(request.jobDescription)));
             var first := Read(st, key, faults.matchLookup);
             var second := Read(first.next, ResumeKey(request.resumeId), faults.resumeLookup);
             && !first.outcome.Raised? && Hit(first.outcome).None?
             && !second.outcome.Raised? && Hit(second.outcome).Some?
    ensures var key := MatchKey(request.resumeId, env.digestText(Strip(request.jobDescription)));
            var first := Read(st, key, faults.matchLookup);
            var second := Read(first.next, ResumeKey(request.resumeId), faults.resumeLookup);
            var s := ScoringStep(Hit(second.outcome).value, Strip(request.jobDescription), env).result;
            var reply := Match(request, env, st, faults).reply;
            && (s.Failure? ==> reply == Failed(s.error))
            && (s.Success? ==> reply == Succeeded(ResumeMatchResponse(request.resumeId, s.value.0, s.value.1)))
  {
  }

  /** Whether saving the result fails never changes the reply. */
  lemma MatchStoreFaultInvisible(request: JobDescriptionRequest, env: Environment, st: CacheState,
                                 f: MatchFaults, s: StoreFault)
    ensures Match(request, env, st, f).reply == Match(request, env, st, f.(store := s)).reply
  {
  }

  /**
   * After a successful match whose save did not raise, the match key holds a value that
   * validates to the returned result (the cached one, or the freshly scored one).
   */
  lemma MatchLeavesResult(request: JobDescriptionRequest, env: Environment, st: CacheState, f: MatchFaults)
    requires ValidState(st)
    requires Match(request, env, st, f).reply.Succeeded?
    requires f.store != Rejected
    ensures var run := Match(request, env, st, f);
            var key := MatchKey(request.resumeId, env.digestText(Strip(request.jobDescription)));
            var v := Hit(Read(run.next, key, NoFault).outcome);
            v.Some? && MatchResultFromJson(v.value) == Some(run.reply.body.matchResult)
  {
    var job := Strip(request.jobDescription);
    var key := MatchKey(request.resumeId, env.digestText(job));
    var first := Read(st, key, f.matchLookup);
    StepsKeepValid(st, key, JNull, f.matchLookup);
    var run := Match(request, env, st, f);
    var m := run.reply.body.matchResult;
    if Hit(first.outcome).None? {
      var second := Read(first.next, ResumeKey(request.resumeId), f.resumeLookup);
      StepsKeepValid(first.next, ResumeKey(request.resumeId), JNull, f.resumeLookup);
      var scored := ScoringStep(Hit(second.outcome).value, job, env);
      assert scored.result.Success? && m == scored.result.value.0;
      assert run.next == Write(second.next, key, MatchResultToJson(m), f.store).next;
      ReadAfterWrite(second.next, key, MatchResultToJson(m), f.store, NoFault);
      MatchResultRoundTrip(m);
    } else if first.next.backing.Some? {
      assert f.matchLookup == NoFault;
    }
  }

  /**
   * Matching the same pair again is a cache hit with the same result, provided the save did not
   * raise and the second lookup succeeds.
   */
  lemma MatchTwiceHits(request: JobDescriptionRequest, env: Environment, st: CacheState, f1: MatchFaults, f2: MatchFaults)
    requires ValidState(st)
    requires Match(request, env, st, f1).reply.Succeeded?
    requires f1.store != Rejected && f2.matchLookup == NoFault
    ensures var first := Match(request, env, st, f1).reply.body;
            Match(request, env, Match(request, env, st, f1).next, f2).reply
              == Succeeded(ResumeMatchResponse(first.resumeId, first.matchResult, CacheHitMessage))
  {
    var run := Match(request, env, st, f1);
    MatchLeavesResult(request, env, st, f1);
    MatchCacheHitServed(request, env, run.next, f2, run.reply.body.matchResult);
  }
}
