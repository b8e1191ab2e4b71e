/**
 * The request and response records of the résumé service, with the two directions of their
 * JSON form: validation of a decoded dict into a record (the pydantic constructor
 * `Record(**d)`, where `None` stands for a validation error) and `model_dump()`.
 */
module Models {
  import opened Wrappers
  import opened JsonValues

  /** Contact details; every field may be absent, and absence is kept as absence. */
  datatype BasicInfo = BasicInfo(
    name: Option<string>,
    phone: Option<string>,
    email: Option<string>,
    address: Option<string>)

  /** The structured résumé; only `basicInfo` is required. */
  datatype ResumeData = ResumeData(
    basicInfo: BasicInfo,
    jobIntention: Option<string>,
    workYears: Option<string>,
    educationBackground: Option<string>,
    rawTextSummary: Option<string>)

  /** Body of `POST /match`; both fields are required. */
  datatype JobDescriptionRequest = JobDescriptionRequest(resumeId: string, jobDescription: string)

  /** A scoring result. `score` is any integer: "0-100" is a comment, not a constraint. */
  datatype MatchResult = MatchResult(
    score: int,
    skillsMatchRate: string,
    experienceRelevance: string,
    comment: string)

  datatype ResumeAnalyzeResponse = ResumeAnalyzeResponse(resumeId: string, data: ResumeData, message: string)

  datatype ResumeMatchResponse = ResumeMatchResponse(resumeId: string, matchResult: MatchResult, message: string)

  /** `BasicInfo()`: all four fields take their default, absent. */
  const NoBasicInfo: BasicInfo := BasicInfo(None, None, None, None)

  /** `ResumeData(basic_info=info)`: the four optional fields take their default, absent. */
  function ResumeDataOf(info: BasicInfo): ResumeData {
    ResumeData(info, None, None, None, None)
  }

  /** Field `key` of a dict holds `v`: a string when present, null or missing when absent. */
  predicate Carries(fields: map<string, Json>, key: string, v: Option<string>) {
    match v
    case Some(s) => key in fields && fields[key] == JStr(s)
    case None => key !in fields || fields[key] == JNull
  }

  /** Validation of an `Optional[str] = None` field given `d.get(key)`; `None` is a validation error. */
  function OptionalText(v: Option<Json>): Option<Option<string>> {
    match v
    case None => Some(None)
    case Some(JNull) => Some(None)
    case Some(JStr(s)) => Some(Some(s))
    case Some(_) => None
  }

  /** Field `key` is acceptable for an `Optional[str]`: missing, null or a string. */
  predicate OptionalTextOk(fields: map<string, Json>, key: string) {
    key !in fields || fields[key].JNull? || fields[key].JStr?
  }

  /** Field `key` is present and holds a string. */
  predicate TextField(fields: map<string, Json>, key: string) {
    key in fields && fields[key].JStr?
  }

  /** The value of an optional string field, for `model_dump()`. */
  function OptionalTextToJson(v: Option<string>): Json {
    match v
    case None => JNull
    case Some(s) => JStr(s)
  }

  /** `BasicInfo(**d)`: keys other than the four fields are ignored. */
  function BasicInfoFromJson(j: Json): (r: Option<BasicInfo>)
    ensures r.Some? <==> && j.JObj?
                         && OptionalTextOk(j.fields, "name") && OptionalTextOk(j.fields, "phone")
                         && OptionalTextOk(j.fields, "email") && OptionalTextOk(j.fields, "address")
    ensures r.Some? ==> && Carries(j.fields, "name", r.value.name)
                        && Carries(j.fields, "phone", r.value.phone)
                        && Carries(j.fields, "email", r.value.email)
                        && Carries(j.fields, "address", r.value.address)
  {
    if !j.JObj? then None
    else
      var name := OptionalText(Get(j.fields, "name"));
      var phone := OptionalText(Get(j.fields, "phone"));
      var email := OptionalText(Get(j.fields, "email"));
      var address := OptionalText(Get(j.fields, "address"));
      if name.Some? && phone.Some? && email.Some? && address.Some? then
        Some(BasicInfo(name.value, phone.value, email.value, address.value))
      else None
  }

  function BasicInfoToJson(b: BasicInfo): Json {
    JObj(map[
      "name" := OptionalTextToJson(b.name),
      "phone" := OptionalTextToJson(b.phone),
      "email" := OptionalTextToJson(b.email),
      "address" := OptionalTextToJson(b.address)])
  }

  /** `ResumeData(**d)`: `basic_info` must be present and be a dict of contact fields. */
  function ResumeDataFromJson(j: Json): (r: Option<ResumeData>)
    ensures r.Some? <==> && j.JObj? && "basic_info" in j.fields
                         && BasicInfoFromJson(j.fields["basic_info"]).Some?
                         && OptionalTextOk(j.fields, "job_intention") && OptionalTextOk(j.fields, "work_years")
                         && OptionalTextOk(j.fields, "education_background")
                         && OptionalTextOk(j.fields, "raw_text_summary")
    ensures r.Some? ==> BasicInfoFromJson(j.fields["basic_info"]) == Some(r.value.basicInfo)
    ensures r.Some? ==> && Carries(j.fields, "job_intention", r.value.jobIntention)
                        && Carries(j.fields, "work_years", r.value.workYears)
                        && Carries(j.fields, "education_background", r.value.educationBackground)
                        && Carries(j.fields, "raw_text_summary", r.value.rawTextSummary)
  {
    if !j.JObj? || "basic_info" !in j.fields then None
    else
      var info := BasicInfoFromJson(j.fields["basic_info"]);
      var intention := OptionalText(Get(j.fields, "job_intention"));
      var years := OptionalText(Get(j.fields, "work_years"));
      var education := OptionalText(Get(j.fields, "education_background"));
      var summary := OptionalText(Get(j.fields, "raw_text_summary"));
      if info.Some? && intention.Some? && years.Some? && education.Some? && summary.Some? then
        Some(ResumeData(info.value, intention.value, years.value, education.value, summary.value))
      else None
  }

  /** `model_dump()` of a résumé: every field is present, absent ones as null. */
  function ResumeDataToJson(d: ResumeData): (j: Json)
    ensures j.JObj? && Truthy(j)
  {
    var j := JObj(map[
      "basic_info" := BasicInfoToJson(d.basicInfo),
      "job_intention" := OptionalTextToJson(d.jobIntention),
      "work_years" := OptionalTextToJson(d.workYears),
      "education_background" := OptionalTextToJson(d.educationBackground),
      "raw_text_summary" := OptionalTextToJson(d.rawTextSummary)]);
    assert "basic_info" in j.fields;
    j
  }

  /** `MatchResult(**d)`: all four fields are required, with an integer score. */
  function MatchResultFromJson(j: Json): (r: Option<MatchResult>)
    ensures r.Some? <==> && j.JObj? && "score" in j.fields && j.fields["score"].JNum?
                         && TextField(j.fields, "skills_match_rate")
                         && TextField(j.fields, "experience_relevance")
                         && TextField(j.fields, "comment")
    ensures r.Some? ==> && "score" in j.fields && j.fields["score"] == JNum(r.value.score)
                        && Carries(j.fields, "skills_match_rate", Some(r.value.skillsMatchRate))
                        && Carries(j.fields, "experience_relevance", Some(r.value.experienceRelevance))
                        && Carries(j.fields, "comment", Some(r.value.comment))
  {
    if !j.JObj? then None
    else
      var f := j.fields;
      if && "score" in f && f["score"].JNum?
         && "skills_match_rate" in f && f["skills_match_rate"].JStr?
         && "experience_relevance" in f && f["experience_relevance"].JStr?
         && "comment" in f && f["comment"].JStr?
      then Some(MatchResult(f["score"].n, f["skills_match_rate"].s, f["experience_relevance"].s, f["comment"].s))
      else None
  }

  /** `model_dump()` of a match result. */
  function MatchResultToJson(m: MatchResult): (j: Json)
    ensures j.JObj? && Truthy(j)
  {
    var j := JObj(map[
      "score" := JNum(m.score),
      "skills_match_rate" := JStr(m.skillsMatchRate),
      "experience_relevance" := JStr(m.experienceRelevance),
      "comment" := JStr(m.comment)]);
    assert "score" in j.fields;
    j
  }

  /** `JobDescriptionRequest(**d)`: both fields are required strings. */
  function JobDescriptionRequestFromJson(j: Json): (r: Option<JobDescriptionRequest>)
    ensures r.Some? <==> && j.JObj?
                         && "resume_id" in j.fields && j.fields["resume_id"].JStr?
                         && "job_description" in j.fields && j.fields["job_description"].JStr?
    ensures r.Some? ==> && j.fields["resume_id"] == JStr(r.value.resumeId)
                        && j.fields["job_description"] == JStr(r.value.jobDescription)
  {
    if j.JObj? && "resume_id" in j.fields && j.fields["resume_id"].JStr?
       && "job_description" in j.fields && j.fields["job_description"].JStr?
    then Some(JobDescriptionRequest(j.fields["resume_id"].s, j.fields["job_description"].s))
    else None
  }

  /** An optional field survives `model_dump()` and validation unchanged. */
  lemma OptionalTextRoundTrip(v: Option<string>)
    ensures OptionalText(Some(OptionalTextToJson(v))) == Some(v)
  {
  }

  /** Dumping then reconstructing contact details gives the same fields, absent ones absent. */
  lemma BasicInfoRoundTrip(b: BasicInfo)
    ensures BasicInfoFromJson(BasicInfoToJson(b)) == Some(b)
  {
    var f := BasicInfoToJson(b).fields;
    assert Get(f, "name") == Some(OptionalTextToJson(b.name));
    assert Get(f, "phone") == Some(OptionalTextToJson(b.phone));
    assert Get(f, "email") == Some(OptionalTextToJson(b.email));
    assert Get(f, "address") == Some(OptionalTextToJson(b.address));
  }

  /** `ResumeData(**d.model_dump()) == d`, with absent fields staying absent. */
  lemma ResumeDataRoundTrip(d: ResumeData)
    ensures ResumeDataFromJson(ResumeDataToJson(d)) == Some(d)
  {
    var f := ResumeDataToJson(d).fields;
    BasicInfoRoundTrip(d.basicInfo);
    assert f["basic_info"] == BasicInfoToJson(d.basicInfo);
    assert Get(f, "job_intention") == Some(OptionalTextToJson(d.jobIntention));
    assert Get(f, "work_years") == Some(OptionalTextToJson(d.workYears));
    assert Get(f, "education_background") == Some(OptionalTextToJson(d.educationBackground));
    assert Get(f, "raw_text_summary") == Some(OptionalTextToJson(d.rawTextSummary));
    OptionalTextRoundTrip(d.jobIntention);
    OptionalTextRoundTrip(d.workYears);
    OptionalTextRoundTrip(d.educationBackground);
    OptionalTextRoundTrip(d.rawTextSummary);
  }

  /** `MatchResult(**m.model_dump()) == m`. */
  lemma MatchResultRoundTrip(m: MatchResult)
    ensures MatchResultFromJson(MatchResultToJson(m)) == Some(m)
  {
    var f := MatchResultToJson(m).fields;
    assert f["score"] == JNum(m.score);
    assert f["skills_match_rate"] == JStr(m.skillsMatchRate);
    assert f["experience_relevance"] == JStr(m.experienceRelevance);
    assert f["comment"] == JStr(m.comment);
  }

  /** `BasicInfo()` and `ResumeData(basic_info=BasicInfo())` validate with every optional field absent. */
  lemma DefaultsAreAbsent()
    ensures BasicInfoFromJson(EmptyObject) == Some(NoBasicInfo)
    ensures ResumeDataFromJson(JObj(map["basic_info" := EmptyObject])) == Some(ResumeDataOf(NoBasicInfo))
  {
    var f := map["basic_info" := EmptyObject];
    assert Get(f, "job_intention") == None;
    assert Get(f, "work_years") == None;
    assert Get(f, "education_background") == None;
    assert Get(f, "raw_text_summary") == None;
  }

  /** A résumé without `basic_info`, and a match result missing a field, do not validate. */
  lemma RequiredFieldsAreRequired(j: Json, key: string)
    requires j.JObj? && key in {"score", "skills_match_rate", "experience_relevance", "comment"}
    requires key !in j.fields
    ensures MatchResultFromJson(j) == None
    ensures "basic_info" !in j.fields ==> ResumeDataFromJson(j) == None
  {
  }

  /** `ResumeData(basic_info=b)`: a dict holding only the contact details validates with the other fields absent. */
  lemma OnlyBasicInfoGivesDefaults(b: BasicInfo)
    ensures ResumeDataFromJson(JObj(map["basic_info" := BasicInfoToJson(b)])) == Some(ResumeDataOf(b))
  {
    var f := map["basic_info" := BasicInfoToJson(b)];
    BasicInfoRoundTrip(b);
    assert Get(f, "job_intention") == None;
    assert Get(f, "work_years") == None;
    assert Get(f, "education_background") == None;
    assert Get(f, "raw_text_summary") == None;
  }

  /** `BasicInfo(name="Test User")`: the given field is kept and the others are absent. */
  lemma PartialContactDetails()
    ensures BasicInfoFromJson(JObj(map["name" := JStr("Test User")]))
         == Some(BasicInfo(Some("Test User"), None, None, None))
  {
    var f := map["name" := JStr("Test User")];
    assert Get(f, "name") == Some(JStr("Test User"));
    assert Get(f, "phone") == None;
    assert Get(f, "email") == None;
    assert Get(f, "address") == None;
  }
}
