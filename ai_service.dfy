/**
 * The calls to the language model: résumé extraction from text or from page images, and
 * scoring against a job description, with the lenient decoding of the model's reply.
 *
 * The model itself is the parameter `llm`, which maps the request the service sends to the
 * reply it gets back (an HTTP-like status and the reply text); `loads` is `json.loads`, with
 * `None` standing for `JSONDecodeError`.
 */
module AiService {
  import opened Wrappers
  import opened Text
  import opened JsonValues
  import opened Models

  /** The ways a call to the service raises. */
  datatype AiError =
    | NotConfigured         // the API key is empty
    | ApiStatus(code: int)  // the model answered with a status other than 200
    | MalformedReply        // the decoded reply does not have the shape the records need

  /** One part of a multimodal user message. */
  datatype ContentPart = TextPart(text: string) | ImagePart(image: string)

  /** What the service sends to the model; prompts that never vary are left implicit. */
  datatype LlmRequest =
    | TextExtraction(model: string, resumeText: string)
    | VisionExtraction(model: string, content: seq<ContentPart>)
    | Scoring(model: string, jobText: string, resume: Json)

  /** The model's answer: its status code and, on 200, the text of the first choice. */
  datatype ModelReply = ModelReply(statusCode: int, content: string)

  const TextModel := "qwen-turbo"
  const VisionModel := "qwen-vl-max"
  const MaxResumeChars := 3000
  const MaxJobChars := 1000
  const MaxPageImages := 4
  const OkStatus := 200
  const VisionInstruction := "请仔细分析以下简历图片中的所有文字信息并提取关键信息："
  const FallbackComment := "解析失败或模型未给出标准格式"

  // ---------------------------------------------------------------------------------------
  // Decoding the reply

  /** Removes a leading "```json" or "```" and then a trailing "```". */
  function StripFences(text: string): string {
    var t := if HasPrefix(text, "```json") then text[7..]
             else if HasPrefix(text, "```") then text[3..]
             else text;
    if HasSuffix(t, "```") then t[..|t| - 3] else t
  }

  /** The text `_parse_json_result` tries to decode first. */
  function CleanReply(text: string): string {
    Strip(StripFences(text))
  }

  /**
   * Decoding of the cleaned reply `c`: `c` itself when it decodes; otherwise the slice from its
   * first '{' to its last '}' when there is such a slice and it decodes; otherwise `{}`.
   */
  function DecodeCleaned(loads: string -> Option<Json>, c: string): (r: Json)
    ensures loads(c).Some? ==> r == loads(c).value
    ensures var first, last := Find(c, '{'), RFind(c, '}');
            loads(c).None? ==>
              if 0 <= first < last then
                // c[first] is the first '{' and c[last] the last '}' of c
                && c[first] == '{' && '{' !in c[..first] && c[last] == '}' && '}' !in c[last + 1..]
                && (loads(c[first..last + 1]).Some? ==> r == loads(c[first..last + 1]).value)
                && (loads(c[first..last + 1]).None? ==> r == EmptyObject)
              else r == EmptyObject
  {
    match loads(c)
    case Some(v) => v
    case None =>
      var start := Find(c, '{');
      var end := RFind(c, '}');
      if start != -1 && end != -1 && start < end then
        loads(c[start..end + 1]).GetOr(EmptyObject)
      else EmptyObject
  }

  /** `_parse_json_result`: `DecodeCleaned` of the reply with its fences and outer whitespace removed. */
  function ParseJsonResult(loads: string -> Option<Json>, text: string): Json {
    DecodeCleaned(loads, CleanReply(text))
  }

  /** A reply fenced as "```json … ```" is cleaned to its stripped body. */
  lemma JsonFenceRemoved(body: string)
    ensures CleanReply("```json" + body + "```") == Strip(body)
  {
    var text := "```json" + body + "```";
    assert text[..7] == "```json";
    var t := text[7..];
    assert t == body + "```";
    assert t[|t| - 3..] == "```";
    assert t[..|t| - 3] == body;
  }

  /** A reply fenced as "``` … ```" is cleaned to its stripped body, unless the body starts with "json". */
  lemma BareFenceRemoved(body: string)
    requires !HasPrefix(body + "```", "json")
    ensures CleanReply("```" + body + "```") == Strip(body)
  {
    var t := body + "```";
    var text := "```" + t;
    assert text == "```" + body + "```";
    assert text[..3] == "```";
    assert text[3..] == t;
    if |text| >= 7 {
      assert text[..7][3..] == t[..4];
      assert "```json"[3..] == "json";
    }
    assert t[|t| - 3..] == "```";
    assert t[..|t| - 3] == body;
  }

  /** A closing fence followed by a newline is not removed: it stays at the end of the cleaned text. */
  lemma FenceBeforeNewlineKept(body: string)
    ensures CleanReply("```json" + body + "```\n") == Strip(body + "```")
  {
    var text := "```json" + body + "```\n";
    assert text[..7] == "```json";
    var t := text[7..];
    assert t == body + "```" + "\n";
    assert t[|t| - 1] == '\n';
    assert !HasSuffix(t, "```");
    assert IsBlank("\n") && IsBlank("");
    StripPadded("", body + "```", "\n");
    assert "" + (body + "```") + "\n" == t;
  }

  /**
   * An object surrounded by prose without braces is recovered: when the whole text does not
   * decode, the slice from the first '{' to the last '}' is exactly the object.
   */
  lemma ProseRecovered(loads: string -> Option<Json>, prose: string, obj: string, tail: string, v: Json)
    requires '{' !in prose && '}' !in tail
    requires |obj| >= 2 && obj[0] == '{' && obj[|obj| - 1] == '}'
    requires loads(prose + obj + tail) == None
    requires loads(obj) == Some(v)
    ensures DecodeCleaned(loads, prose + obj + tail) == v
  {
    var c := prose + obj + tail;
    var start, end := |prose|, |prose| + |obj| - 1;
    assert c[..start] == prose;
    FindAt(c, '{', start);
    assert c[end + 1..] == tail;
    RFindAt(c, '}', end);
    assert c[start..end + 1] == obj;
  }

  /** A cleaned reply without '{' that does not decode gives `{}`. */
  lemma NoBraceGivesEmpty(loads: string -> Option<Json>, c: string)
    requires loads(c) == None && '{' !in c
    ensures DecodeCleaned(loads, c) == EmptyObject
  {
  }

  // ---------------------------------------------------------------------------------------
  // From the decoded reply to the records

  /** `basic_info` of a decoded résumé, `{}` when missing. */
  function BasicInfoField(fields: map<string, Json>): Json {
    Get(fields, "basic_info").GetOr(EmptyObject)
  }

  /**
   * `_build_resume_data` followed by validation: the reply must be a dict, its `basic_info`
   * (default `{}`) a dict, and each field a string or null.
   */
  function BuildResumeData(parsed: Json): (r: Result<ResumeData, AiError>)
    ensures r.Failure? ==> r.error == MalformedReply
    ensures !parsed.JObj? ==> r == Failure(MalformedReply)
    ensures parsed.JObj? && "basic_info" in parsed.fields ==>
              (r.Success? <==> ResumeDataFromJson(parsed).Some?) &&
              (r.Success? ==> ResumeDataFromJson(parsed) == Some(r.value))
    ensures parsed.JObj? && "basic_info" !in parsed.fields ==>
              var filled := JObj(parsed.fields["basic_info" := EmptyObject]);
              (r.Success? <==> ResumeDataFromJson(filled).Some?) &&
              (r.Success? ==> ResumeDataFromJson(filled) == Some(r.value))
  {
    if !parsed.JObj? then Failure(MalformedReply)
    else
      var f := parsed.fields;
      var info := BasicInfoFromJson(BasicInfoField(f));
      var intention := OptionalText(Get(f, "job_intention"));
      var years := OptionalText(Get(f, "work_years"));
      var education := OptionalText(Get(f, "education_background"));
      var summary := OptionalText(Get(f, "raw_text_summary"));
      var g := f["basic_info" := BasicInfoField(f)];
      assert Get(g, "job_intention") == Get(f, "job_intention");
      assert Get(g, "work_years") == Get(f, "work_years");
      assert Get(g, "education_background") == Get(f, "education_background");
      assert Get(g, "raw_text_summary") == Get(f, "raw_text_summary");
      if info.Some? && intention.Some? && years.Some? && education.Some? && summary.Some? then
        Success(ResumeData(info.value, intention.value, years.value, education.value, summary.value))
      else Failure(MalformedReply)
  }

  /** A reply that could not be decoded yields a résumé with every field absent, not an error. */
  lemma UndecodableReplyGivesEmptyResume()
    ensures BuildResumeData(EmptyObject) == Success(ResumeDataOf(NoBasicInfo))
  {
    DefaultsAreAbsent();
  }

  /** A dumped résumé read back as a reply gives the same résumé. */
  lemma BuildResumeDataRoundTrip(d: ResumeData)
    ensures BuildResumeData(ResumeDataToJson(d)) == Success(d)
  {
    ResumeDataRoundTrip(d);
  }

  /** `parsed_dict.get(key, default)` for a string field: the default when missing, an error unless a string. */
  function TextOr(fields: map<string, Json>, key: string, default: string): (r: Option<string>)
    ensures key !in fields ==> r == Some(default)
    ensures key in fields ==> (r.Some? <==> fields[key].JStr?)
    ensures key in fields && r.Some? ==> fields[key] == JStr(r.value)
  {
    match Get(fields, key)
    case None => Some(default)
    case Some(JStr(s)) => Some(s)
    case Some(_) => None
  }

  /** `parsed_dict.get('score', 0)`: 0 when missing, an error unless an integer. */
  function ScoreOr(fields: map<string, Json>): (r: Option<int>)
    ensures "score" !in fields ==> r == Some(0)
    ensures "score" in fields ==> (r.Some? <==> fields["score"].JNum?)
    ensures "score" in fields && r.Some? ==> fields["score"] == JNum(r.value)
  {
    match Get(fields, "score")
    case None => Some(0)
    case Some(JNum(n)) => Some(n)
    case Some(_) => None
  }

  /** `fields` with `key` set to `default` when it is missing. */
  function WithDefault(fields: map<string, Json>, key: string, default: Json): map<string, Json> {
    if key in fields then fields else fields[key := default]
  }

  /** The decoded scoring reply with every missing field given its `.get` default. */
  function MatchDefaults(fields: map<string, Json>): map<string, Json> {
    var f1 := WithDefault(fields, "score", JNum(0));
    var f2 := WithDefault(f1, "skills_match_rate", JStr("N/A"));
    var f3 := WithDefault(f2, "experience_relevance", JStr("N/A"));
    WithDefault(f3, "comment", JStr(FallbackComment))
  }

  /**
   * The `MatchResult(...)` built from the decoded scoring reply: a reply that is not a dict is
   * malformed; otherwise the result is the validation of the reply with its missing fields
   * given their defaults (score 0, "N/A", "N/A" and the fallback comment).
   */
  function MapMatchResult(parsed: Json): (r: Result<MatchResult, AiError>)
    ensures r.Failure? ==> r.error == MalformedReply
    ensures !parsed.JObj? ==> r == Failure(MalformedReply)
    ensures parsed.JObj? ==>
              var filled := JObj(MatchDefaults(parsed.fields));
              (r.Success? <==> MatchResultFromJson(filled).Some?) &&
              (r.Success? ==> MatchResultFromJson(filled) == Some(r.value))
  {
    if !parsed.JObj? then Failure(MalformedReply)
    else
      var f := parsed.fields;
      var score := ScoreOr(f);
      var skills := TextOr(f, "skills_match_rate", "N/A");
      var experience := TextOr(f, "experience_relevance", "N/A");
      var comment := TextOr(f, "comment", FallbackComment);
      MatchDefaultsFields(f);
      if score.Some? && skills.Some? && experience.Some? && comment.Some? then
        Success(MatchResult(score.value, skills.value, experience.value, comment.value))
      else Failure(MalformedReply)
  }

  /** Each field of `MatchDefaults` is the reply's own value when present, else its default. */
  lemma MatchDefaultsFields(f: map<string, Json>)
    ensures var g := MatchDefaults(f);
            && g["score"] == (if "score" in f then f["score"] else JNum(0))
            && g["skills_match_rate"] == (if "skills_match_rate" in f then f["skills_match_rate"] else JStr("N/A"))
            && g["experience_relevance"] == (if "experience_relevance" in f then f["experience_relevance"] else JStr("N/A"))
            && g["comment"] == (if "comment" in f then f["comment"] else JStr(FallbackComment))
  {
  }

  /** A scoring reply that could not be decoded yields the default result, not an error. */
  lemma UndecodableReplyGivesDefaultMatch()
    ensures MapMatchResult(EmptyObject) == Success(MatchResult(0, "N/A", "N/A", FallbackComment))
  {
  }

  /** With all four fields present, mapping the reply agrees with validating it as a `MatchResult`. */
  lemma MapMatchResultAgrees(parsed: Json)
    requires parsed.JObj?
    requires forall k | k in ["score", "skills_match_rate", "experience_relevance", "comment"] :: k in parsed.fields
    ensures MapMatchResult(parsed).Success? <==> MatchResultFromJson(parsed).Some?
    ensures MapMatchResult(parsed).Success? ==> MatchResultFromJson(parsed) == Some(MapMatchResult(parsed).value)
  {
    var f := parsed.fields;
    assert "score" in f && "skills_match_rate" in f && "experience_relevance" in f && "comment" in f by {
      assert "score" == ["score", "skills_match_rate", "experience_relevance", "comment"][0];
      assert "skills_match_rate" == ["score", "skills_match_rate", "experience_relevance", "comment"][1];
      assert "experience_relevance" == ["score", "skills_match_rate", "experience_relevance", "comment"][2];
      assert "comment" == ["score", "skills_match_rate", "experience_relevance", "comment"][3];
    }
  }

  /** A dumped match result read back as a reply gives the same result. */
  lemma MapMatchResultRoundTrip(m: MatchResult)
    ensures MapMatchResult(MatchResultToJson(m)) == Success(m)
  {
    var f := MatchResultToJson(m).fields;
    assert f["score"] == JNum(m.score);
    assert f["skills_match_rate"] == JStr(m.skillsMatchRate);
    assert f["experience_relevance"] == JStr(m.experienceRelevance);
    assert f["comment"] == JStr(m.comment);
  }

  // ---------------------------------------------------------------------------------------
  // The three calls

  /**
   * `extract_resume_info`: without a key it raises before any request; otherwise the model is
   * sent at most the first 3000 characters of the text, a status other than 200 is raised as
   * is, and a 200 reply is decoded leniently and validated as a résumé.
   */
  function ExtractResumeInfo(llm: LlmRequest -> ModelReply, loads: string -> Option<Json>,
                             pdfText: string, apiKey: string): (r: Result<ResumeData, AiError>)
    ensures apiKey == "" ==> r == Failure(NotConfigured)
    ensures var reply := llm(TextExtraction(TextModel, Take(pdfText, MaxResumeChars)));
            apiKey != "" ==>
              && (reply.statusCode != OkStatus ==> r == Failure(ApiStatus(reply.statusCode)))
              && (reply.statusCode == OkStatus ==> r == BuildResumeData(ParseJsonResult(loads, reply.content)))
    ensures r.Failure? && r.error.ApiStatus? ==> r.error.code != OkStatus
  {
    if apiKey == "" then Failure(NotConfigured)
    else
      var reply := llm(TextExtraction(TextModel, Take(pdfText, MaxResumeChars)));
      if reply.statusCode != OkStatus then Failure(ApiStatus(reply.statusCode))
      else BuildResumeData(ParseJsonResult(loads, reply.content))
  }

  /** The image parts of the vision request, one data URL per page image. */
  function ImageParts(images: seq<string>): (parts: seq<ContentPart>)
    ensures |parts| == |images|
    ensures forall i | 0 <= i < |images| :: parts[i] == ImagePart(PngDataUrl(images[i]))
  {
    if images == [] then [] else [ImagePart(PngDataUrl(images[0]))] + ImageParts(images[1..])
  }

  /** A base64 PNG as a data URL. */
  function PngDataUrl(b64: string): string {
    "data:image/png;base64," + b64
  }

  /** The user content of the vision request: the instruction, then at most four page images. */
  function VisionContent(images: seq<string>): (content: seq<ContentPart>)
    ensures |content| == 1 + (if |images| < MaxPageImages then |images| else MaxPageImages)
    ensures content[0] == TextPart(VisionInstruction)
    ensures forall i | 0 <= i < |content| - 1 :: content[i + 1] == ImagePart(PngDataUrl(images[i]))
  {
    [TextPart(VisionInstruction)] + ImageParts(Take(images, MaxPageImages))
  }

  /**
   * `extract_resume_info_from_images`, as a value: without a key it raises before any request;
   * otherwise the vision model is sent the instruction and at most four page images, a status
   * other than 200 is raised as is, and a 200 reply is decoded and validated as a résumé.
   */
  function ImageExtraction(llm: LlmRequest -> ModelReply, loads: string -> Option<Json>,
                           images: seq<string>, apiKey: string): (r: Result<ResumeData, AiError>)
    ensures apiKey == "" ==> r == Failure(NotConfigured)
    ensures var reply := llm(VisionExtraction(VisionModel, VisionContent(images)));
            apiKey != "" ==>
              && (reply.statusCode != OkStatus ==> r == Failure(ApiStatus(reply.statusCode)))
              && (reply.statusCode == OkStatus ==> r == BuildResumeData(ParseJsonResult(loads, reply.content)))
    ensures r.Failure? && r.error.ApiStatus? ==> r.error.code != OkStatus
  {
    if apiKey == "" then Failure(NotConfigured)
    else
      var reply := llm(VisionExtraction(VisionModel, VisionContent(images)));
      if reply.statusCode != OkStatus then Failure(ApiStatus(reply.statusCode))
      else BuildResumeData(ParseJsonResult(loads, reply.content))
  }

  /** `extract_resume_info_from_images`: builds the multimodal message page by page. */
  method ExtractResumeInfoFromImages(llm: LlmRequest -> ModelReply, loads: string -> Option<Json>,
                                     pageImages: seq<string>, apiKey: string)
    returns (r: Result<ResumeData, AiError>)
    ensures r == ImageExtraction(llm, loads, pageImages, apiKey)
  {
    if apiKey == "" {
      return Failure(NotConfigured);
    }
    var pages := Take(pageImages, MaxPageImages);
    var userContent := [TextPart(VisionInstruction)];
    for i := 0 to |pages|
      invariant userContent == [TextPart(VisionInstruction)] + ImageParts(pages[..i])
    {
      userContent := userContent + [ImagePart(PngDataUrl(pages[i]))];
    }
    assert pages[..|pages|] == pages;
    assert userContent == VisionContent(pageImages);
    var reply := llm(VisionExtraction(VisionModel, userContent));
    if reply.statusCode == OkStatus {
      r := BuildResumeData(ParseJsonResult(loads, reply.content));
    } else {
      r := Failure(ApiStatus(reply.statusCode));
    }
  }

  /**
   * `score_resume`: without a key it raises before any request; otherwise the model is sent the
   * résumé and at most the first 1000 characters of the job description, a status other than
   * 200 is raised as is, and a 200 reply is decoded and mapped to a `MatchResult`.
   */
  function ScoreResume(llm: LlmRequest -> ModelReply, loads: string -> Option<Json>,
                       resumeData: Json, jobDescription: string, apiKey: string): (r: Result<MatchResult, AiError>)
    ensures apiKey == "" ==> r == Failure(NotConfigured)
    ensures var reply := llm(Scoring(TextModel, Take(jobDescription, MaxJobChars), resumeData));
            apiKey != "" ==>
              && (reply.statusCode != OkStatus ==> r == Failure(ApiStatus(reply.statusCode)))
              && (reply.statusCode == OkStatus ==> r == MapMatchResult(ParseJsonResult(loads, reply.content)))
    ensures r.Failure? && r.error.ApiStatus? ==> r.error.code != OkStatus
  {
    if apiKey == "" then Failure(NotConfigured)
    else
      var reply := llm(Scoring(TextModel, Take(jobDescription, MaxJobChars), resumeData));
      if reply.statusCode != OkStatus then Failure(ApiStatus(reply.statusCode))
      else MapMatchResult(ParseJsonResult(loads, reply.content))
  }

  /** Texts that agree on their first 3000 characters are extracted alike. */
  lemma OnlyPrefixOfResumeMatters(llm: LlmRequest -> ModelReply, loads: string -> Option<Json>,
                                  a: string, b: string, apiKey: string)
    requires Take(a, MaxResumeChars) == Take(b, MaxResumeChars)
    ensures ExtractResumeInfo(llm, loads, a, apiKey) == ExtractResumeInfo(llm, loads, b, apiKey)
  {
  }

  /** Job descriptions that agree on their first 1000 characters are scored alike. */
  lemma OnlyPrefixOfJobMatters(llm: LlmRequest -> ModelReply, loads: string -> Option<Json>,
                               resumeData: Json, a: string, b: string, apiKey: string)
    requires Take(a, MaxJobChars) == Take(b, MaxJobChars)
    ensures ScoreResume(llm, loads, resumeData, a, apiKey) == ScoreResume(llm, loads, resumeData, b, apiKey)
  {
  }

  /** Pages after the fourth never reach the model. */
  lemma OnlyFirstFourPagesMatter(llm: LlmRequest -> ModelReply, loads: string -> Option<Json>,
                                 images: seq<string>, more: seq<string>, apiKey: string)
    requires |images| >= MaxPageImages
    ensures ImageExtraction(llm, loads, images + more, apiKey) == ImageExtraction(llm, loads, images, apiKey)
  {
    assert Take(images + more, MaxPageImages) == Take(images, MaxPageImages);
  }
}
