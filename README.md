# Résumé analyzer — a Dafny model

This project models the back end of a résumé-analysis web service. The service has two
endpoints.

- `POST /analyze` takes an uploaded PDF. It identifies the file by the MD5 digest of its bytes
  and serves a cached result when there is one. Otherwise it extracts the text with pdfplumber,
  falling back to PyMuPDF. When no text comes out and the PDF is image-based, it renders the
  pages to PNG and asks a vision model. It then asks a language model to turn the text or the
  images into a structured résumé, caches the result and returns it.
- `POST /match` takes a résumé identifier and a job description. It looks for a cached score,
  then for the cached résumé. It asks the language model for a score and caches that too.

The cache is a Redis server when it answered at start-up. From the first connection or
timeout error on, the cache is an in-process dictionary instead.

The modules follow the source files:

| module | file | models |
|---|---|---|
| `Text` | `text.dfy` | the Python string operations used: `isspace`, `strip`, `startswith`/`endswith`, `find`/`rfind`, `split("\n")`, `"\n".join`, slicing |
| `JsonValues` | `json_values.dfy` | decoded JSON values and Python truthiness |
| `Models` | `models.dfy` | the pydantic records, their validation from a dict and `model_dump()` |
| `PdfService` | `pdf_service.dfy` | text extraction, the image-based check and page rendering |
| `AiService` | `ai_service.dfy` | reply decoding, mapping to records, the three model calls |
| `RedisCache` | `redis_cache.dfy` | cache keys, the cache as a value, and the `RedisService` object |
| `ResumeApi` | `resume_api.dfy` | the two endpoints |

Several collaborators are parameters rather than code:

- the language model (`llm`, from request to status and reply text);
- `json.loads` (`loads`, where `None` is a decode error);
- MD5 (`digestBytes`, `digestText`);
- the PDF libraries' view of a file (`openPdf`, giving each library's pages).

The Redis server's failures are parameters too. Each Redis call succeeds (`NoFault`), fails with
a connection or timeout error (`Unreachable`), or fails with any other error (`Rejected`).

Each endpoint is given twice:

- a function of the cache state that also lists the calls made to the collaborators;
- a method on the `RedisService` object, proved to give the same reply and leave the same
  cache state.

The four PDF operations and the vision call are methods with the source's loops. Each is
proved equal to a specification function.

## Model

| member | source | states |
|---|---|---|
| `Text.Strip` | api/resume.py:101 | `str.strip()`: the result has no whitespace at either end, is no longer than the input, and is empty exactly when the input is all whitespace |
| `Text.StripPadded` | api/resume.py:101 | whitespace added around a string does not change its stripped form |
| `Text.JoinSplit` | services/pdf_service.py:37-38 | `"\n".join(s.split("\n")) == s` |
| `Text.SplitJoin` | services/pdf_service.py:37-38 | splitting a join of newline-free lines gives back the lines |
| `Models.OnlyBasicInfoGivesDefaults` | models/resume.py:12-17 | a dict holding only the dump of some contact details validates to a résumé with those details and the four optional fields absent |
| `Models.BasicInfoFromJson` | models/resume.py:5-9 | validation of contact details succeeds exactly for a dict whose four fields are each a string, null or absent; each field then holds the dict's string, and absent or null gives absent |
| `Models.PartialContactDetails` | tests/test_models.py:19-22 | contact details with only a name validate, with the other three fields absent |
| `Models.ResumeDataFromJson` | models/resume.py:12-17 | validation of a résumé succeeds exactly for a dict whose `basic_info` validates and whose optional fields are each a string, null or absent; the fields are carried over |
| `Models.ResumeDataToJson` | models/resume.py:12-17 | `model_dump()` of a résumé is a non-empty dict, so it is truthy |
| `Models.MatchResultFromJson` | models/resume.py:28-32 | validation of a match result succeeds exactly for a dict with an integer score and three string texts, and carries them over |
| `Models.MatchResultToJson` | models/resume.py:28-32 | `model_dump()` of a match result is a non-empty dict |
| `Models.JobDescriptionRequestFromJson` | models/resume.py:24-26 | the request validates exactly when both fields are strings, and carries them |
| `Models.OptionalTextRoundTrip` | models/resume.py:6-9 | an optional text field survives dump and validation |
| `Models.BasicInfoRoundTrip` | models/resume.py:5-9 | `BasicInfo(**b.model_dump()) == b` |
| `Models.ResumeDataRoundTrip` | models/resume.py:12-17 | `ResumeData(**d.model_dump()) == d` |
| `Models.MatchResultRoundTrip` | models/resume.py:28-32 | `MatchResult(**m.model_dump()) == m` |
| `Models.DefaultsAreAbsent` | models/resume.py:5-17 | `BasicInfo()` has every field absent; a résumé dict holding only an empty `basic_info` validates to that |
| `Models.RequiredFieldsAreRequired` | models/resume.py:12-32 | a match result missing any field, or a résumé without `basic_info`, does not validate |
| `PdfService.StrippedLines` | services/pdf_service.py:38 | the kept lines are non-empty and stripped, and there are no more of them than input lines |
| `PdfService.DocumentText` | services/pdf_service.py:9-24 | `extract_text` is "" or non-blank; it is pdfplumber's text when that is non-blank, otherwise PyMuPDF's or "" |
| `PdfService.RenderedPrefix` | services/pdf_service.py:85-98 | the images are the renderings of the first pages in order, stopping at the first page that fails to render |
| `PdfService.ExtractWithPdfplumber` | services/pdf_service.py:27-42 | the loop keeps the truthy page texts in page order, then cleans up the lines |
| `PdfService.ExtractWithPymupdf` | services/pdf_service.py:45-61 | the loop keeps the stripped non-blank page texts in page order, then cleans up the lines |
| `PdfService.ExtractText` | services/pdf_service.py:9-24 | equals `DocumentText`: the first extractor with non-blank text wins |
| `PdfService.IsImageBasedPdf` | services/pdf_service.py:64-76 | the loop stops at the first page with text; the result is true exactly when PyMuPDF opens the file and every page is blank |
| `PdfService.ImageBased` | services/pdf_service.py:64-76 | a file is image-based exactly when PyMuPDF opens it and the PyMuPDF text of its pages is empty |
| `PdfService.PdfPagesToBase64Images` | services/pdf_service.py:79-98 | the loop returns the renderings made before the first failure, and none when the file does not open |
| `PdfService.PageImages` | services/pdf_service.py:79-98 | no images when the file does not open; otherwise each image is the rendering of its page, in order, and the list stops only at the last page or at a page that failed to render |
| `PdfService.RenderedPrefixAt` | services/pdf_service.py:85-98 | the rendered prefix is the only sequence of successful renderings that ends at the last page or at a failed page |
| `PdfService.NormalizeLines` | services/pdf_service.py:37-38 | the line clean-up gives "" exactly for blank input, and otherwise a non-blank text |
| `PdfService.NormalizedLines` | services/pdf_service.py:38 | the cleaned-up text's lines are the stripped non-blank input lines, in order |
| `PdfService.NormalizeIdempotent` | services/pdf_service.py:38 | cleaning up cleaned-up text changes nothing |
| `PdfService.BlankTextMeansImageBasedOrUnopened` | services/pdf_service.py:9-76 | when both extractors give nothing and PyMuPDF opens the file, the file is image-based |
| `PdfService.OnePerPage` | services/pdf_service.py:85-98 | when every page renders, there is one image per page, in page order |
| `AiService.DecodeCleaned` | services/ai_service.py:23-36 | the decoding `_parse_json_result` makes of the cleaned reply: the reply itself when it decodes; otherwise the slice from its first '{' to its last '}' when there is one and it decodes; otherwise `{}` |
| `AiService.JsonFenceRemoved` | services/ai_service.py:14-21 | "```json body```" is cleaned to the stripped body |
| `AiService.BareFenceRemoved` | services/ai_service.py:14-21 | "```body```" is cleaned to the stripped body, unless the body starts with "json" |
| `AiService.FenceBeforeNewlineKept` | services/ai_service.py:18-21 | a closing fence followed by a newline is not removed |
| `AiService.ProseRecovered` | services/ai_service.py:27-34 | an object between brace-free prose is recovered by the first-'{'-to-last-'}' slice when the whole text does not decode |
| `AiService.NoBraceGivesEmpty` | services/ai_service.py:27-36 | undecodable text without '{' gives `{}` |
| `AiService.BuildResumeData` | services/ai_service.py:57-71 | a reply that is not a dict is malformed; otherwise the result agrees with validating the dict with `basic_info` filled in with `{}` when missing; every failure is `MalformedReply` |
| `AiService.UndecodableReplyGivesEmptyResume` | services/ai_service.py:57-71 | an undecodable reply gives a résumé with every field absent, not an error |
| `AiService.BuildResumeDataRoundTrip` | services/ai_service.py:57-71 | a dumped résumé read back as a reply gives the same résumé |
| `AiService.TextOr` | services/ai_service.py:182-184 | `get(key, default)` for a text field: the default when missing, the string when a string, an error otherwise |
| `AiService.ScoreOr` | services/ai_service.py:181 | `get('score', 0)`: 0 when missing, the integer when an integer, an error otherwise |
| `AiService.MapMatchResult` | services/ai_service.py:180-185 | a reply that is not a dict is malformed; otherwise the result agrees with validating the dict with missing fields given their defaults (0, "N/A", "N/A", the fallback comment); every failure is `MalformedReply` |
| `AiService.UndecodableReplyGivesDefaultMatch` | services/ai_service.py:180-185 | an undecodable scoring reply gives score 0, "N/A", "N/A" and the fallback comment |
| `AiService.MapMatchResultAgrees` | services/ai_service.py:180-185 | with all four fields present, the mapping succeeds exactly when `MatchResult` validation does, with the same result |
| `AiService.MapMatchResultRoundTrip` | services/ai_service.py:180-185 | a dumped match result read back as a reply gives the same result |
| `AiService.ImageParts` | services/ai_service.py:119-122 | one image part per page image, in order, each holding that image's data URL |
| `AiService.VisionContent` | services/ai_service.py:118-122 | the instruction, then at most four image parts for the first pages |
| `AiService.ExtractResumeInfoFromImages` | services/ai_service.py:105-141 | the loop builds the message page by page; the result is the vision extraction of the first four pages |
| `AiService.ExtractResumeInfo` | services/ai_service.py:74-102 | without a key it fails with `NotConfigured`; with one, the model gets the first 3000 characters, a non-200 status fails with that status, and a 200 reply is decoded and built into a résumé |
| `AiService.ImageExtraction` | services/ai_service.py:105-141 | without a key it fails with `NotConfigured`; with one, the vision model gets the instruction and at most four pages, a non-200 status fails with that status, and a 200 reply is decoded and built into a résumé |
| `AiService.ScoreResume` | services/ai_service.py:144-187 | without a key it fails with `NotConfigured`; with one, the model gets the résumé and the first 1000 characters of the job, a non-200 status fails with that status, and a 200 reply is decoded and mapped to a match result |
| `AiService.OnlyPrefixOfResumeMatters` | services/ai_service.py:84 | texts that agree on their first 3000 characters are extracted alike |
| `AiService.OnlyPrefixOfJobMatters` | services/ai_service.py:163 | job descriptions that agree on their first 1000 characters are scored alike |
| `AiService.OnlyFirstFourPagesMatter` | services/ai_service.py:119 | pages after the fourth never reach the model |
| `RedisCache.ResumeKeyInjective` | services/redis_service.py:27 | different résumé identifiers have different keys |
| `RedisCache.KeyKindsDisjoint` | services/redis_service.py:27-57 | a résumé key is never a match key |
| `RedisCache.MatchKeyInjective` | services/redis_service.py:57 | match keys identify the pair when the job hash has no ':', whatever the résumé identifier holds |
| `RedisCache.MatchKeyNeedsColonFreeHash` | services/redis_service.py:57 | without that condition, two different pairs can share a key |
| `RedisCache.Read` | services/redis_service.py:38-81 | a read leaves the dictionary as it is; it raises only on a non-connection error, changing nothing; a connection error drops Redis; a key Redis holds is found there; otherwise the dictionary answers |
| `RedisCache.Write` | services/redis_service.py:25-66 | a raising write changes nothing; otherwise the value is set in Redis while it stays in use, else in the dictionary, and nothing else changes |
| `RedisCache.StepsKeepValid` | services/redis_service.py:25-81 | reads and writes keep the in-memory dictionary empty while Redis is in use |
| `RedisCache.FallbackIsPermanent` | services/redis_service.py:21-23 | once the client is dropped, reads and writes never use Redis again |
| `RedisCache.RaisesOnlyWhenRejected` | services/redis_service.py:29-47 | a call raises exactly when Redis is in use and fails with a non-connection error; the cache is then unchanged |
| `RedisCache.ReadAfterWrite` | services/redis_service.py:25-53 | a stored value is read back, unless the write raised or the read loses the connection |
| `RedisCache.WriteLeavesOtherKeys` | services/redis_service.py:25-36 | a write that keeps Redis in use does not change what other keys read |
| `RedisCache.FallbackForgetsEverything` | services/redis_service.py:33-49 | after a connection error while writing, every other key reads as missing |
| `RedisCache.NeverWrittenMissing` | tests/test_redis_service.py:42-59 | in a memory-only cache, a key that no write named reads as missing after any sequence of writes |
| `RedisCache.MissingInRedis` | tests/test_redis_service.py:110-113 | a connected Redis that lacks the key reads it as missing, and nothing changes |
| `RedisCache.RedisService.constructor` | services/redis_service.py:6-19 | the client is kept only when the start-up ping succeeds; the dictionary starts empty |
| `RedisCache.RedisService.Store` | services/redis_service.py:29-36 | one `setex` with fallback: the new state and the raised flag are those of `Write` |
| `RedisCache.RedisService.Fetch` | services/redis_service.py:41-53 | one `get` with fallback: the outcome and the new state are those of `Read` |
| `RedisCache.RedisService.CacheResumeData` | services/redis_service.py:25-36 | stores under `resume_data:<id>` following `Write`, keeping the invariant |
| `RedisCache.RedisService.GetResumeData` | services/redis_service.py:38-53 | reads `resume_data:<id>` following `Read`, keeping the invariant |
| `RedisCache.RedisService.CacheMatchResult` | services/redis_service.py:55-66 | stores under `match:<id>:<hash>` following `Write`, keeping the invariant |
| `RedisCache.RedisService.GetMatchResult` | services/redis_service.py:68-81 | reads `match:<id>:<hash>` following `Read`, keeping the invariant |
| `ResumeApi.Extract` | api/resume.py:40-85 | blank text that is not image-based gives "no extractable text" (400); without a key, the mock résumé; with a key, no rendered page gives "page conversion failed" (400), otherwise the text or vision extraction's résumé with "Success" or "Success (Vision AI)", or its error as a 500; the text model is called exactly for non-blank text, pages are rendered exactly for blank image-based files, the vision model exactly when pages rendered, and no model without a key |
| `ResumeApi.Analyze` | api/resume.py:16-97 | a success carries the file's digest as identifier; a failure is a 400 or a 500, never a 404; the cache invariant is kept |
| `ResumeApi.ExtractResume` | api/resume.py:40-85 | the extraction code after a cache miss computes the result of `Extract` on the document |
| `ResumeApi.AnalyzeResume` | api/resume.py:16-97 | the endpoint on the service object gives the reply and the cache state of `Analyze` |
| `ResumeApi.NonPdfRefused` | api/resume.py:18-19 | a name not ending in ".pdf" gets a 400 with no call and no cache change |
| `ResumeApi.CacheHitServed` | api/resume.py:27-35 | a cached résumé that validates is returned as a cache hit; only the lookup is made |
| `ResumeApi.NoKeyNoModel` | api/resume.py:56-67 | without an API key the analyze endpoint never calls the model |
| `ResumeApi.LookupErrorIgnored` | api/resume.py:36-38 | a Redis error during the lookup gives the reply an empty cache would give |
| `ResumeApi.NoKeyMockResume` | api/resume.py:56-67 | without an API key, a usable PDF yields the fixed mock résumé |
| `ResumeApi.ModelChoice` | api/resume.py:40-85 | after a cache miss with a key, the text model is asked exactly when there is text, pages are rendered exactly when the file is image-based, and the vision model is asked exactly when pages rendered, with the text cut to 3000 characters and at most four pages |
| `ResumeApi.AnalyzeMissReply` | api/resume.py:40-97 | after a cache miss the reply is the extraction's error, or its résumé and message under the file's identifier |
| `ResumeApi.StoreFaultInvisible` | api/resume.py:87-91 | a failed save never changes the analyze reply |
| `ResumeApi.AnalyzeLeavesResume` | api/resume.py:27-91 | after a success whose save did not raise, the résumé key holds a value that validates to the returned résumé |
| `ResumeApi.AnalyzeTwiceHits` | api/resume.py:27-91 | analyzing the same file again is a cache hit with the same identifier and résumé |
| `ResumeApi.ScoringStep` | api/resume.py:129-144 | without a key, the mock result and no call; with one, a single call with the first 1000 characters of the job, and the scoring's result with "Success" or its error as a 500 |
| `ResumeApi.Match` | api/resume.py:99-156 | a success carries the request's identifier; the only 400 is the empty job description; the cache invariant is kept |
| `ResumeApi.MatchJob` | api/resume.py:99-156 | the endpoint on the service object gives the reply and the cache state of `Match` |
| `ResumeApi.NoKeyMockMatch` | api/resume.py:129-138 | without an API key the model is never called, and a fresh result is the fixed mock |
| `ResumeApi.BlankJobRefused` | api/resume.py:101-105 | a blank job description gets a 400 with no call and no cache change |
| `ResumeApi.JobPaddingIgnored` | api/resume.py:101-107 | whitespace around the job description changes nothing |
| `ResumeApi.MatchCacheHitServed` | api/resume.py:110-117 | a cached match result is served before the résumé is looked up |
| `ResumeApi.UnknownResumeNotFound` | api/resume.py:119-122 | a résumé missing from the cache gives a 404 and no model call |
| `ResumeApi.CacheFailuresUnavailable` | api/resume.py:110-127 | a raising match lookup, a cached match that does not validate, or a raising résumé lookup each give 404 "cache unavailable" |
| `ResumeApi.MatchFoundReply` | api/resume.py:129-150 | once the résumé is found, the reply is the scoring's error, or its result and message under the request's identifier |
| `ResumeApi.MatchStoreFaultInvisible` | api/resume.py:146-150 | a failed save never changes the match reply |
| `ResumeApi.MatchLeavesResult` | api/resume.py:110-150 | after a success whose save did not raise, the match key holds a value that validates to the returned result |
| `ResumeApi.MatchTwiceHits` | api/resume.py:110-150 | matching the same pair again is a cache hit with the same result |

## Left out

- Prompt wording: the system prompts and the user-message wording are fixed strings, so each model request keeps only what varies. That is the model name, the truncated text, the content parts, or the job text with the résumé dict.
- Error detail strings: the HTTP error details and exception messages become the `ErrorReason` and `AiError` constructors. Each endpoint's HTTP status is kept.
- `json.dumps` and `json.loads` of cached values: they are taken as exact inverses, so the cache holds decoded values.
- Floating-point JSON numbers are not modelled.
- Models.MatchResultFromJson: accepts only an integer score and string texts. Pydantic's lax mode also accepts numeric strings, integral floats and booleans for the score; those are refused here.
- AiService.ScoreOr: accepts only an integer score, for the same reason.
- Models.ResumeDataFromJson: accepts only strings or null for the optional fields, for the same reason.
- Cache expiry: the 24-hour expiry passed to `setex` is not modelled. Entries never expire.
- Concurrency: the service object is shared by all requests. Each endpoint here runs alone.
- `print` logging is left out. Setting `dashscope.api_key` before each call is left out.
- The 500 answer for errors during text extraction (api/resume.py:52-53) is not modelled. The PDF functions catch every exception, so that branch cannot be reached.
- FastAPI's own 422 answer for a malformed `/match` body is not modelled: the endpoint receives a validated `JobDescriptionRequest`. `Models.JobDescriptionRequestFromJson` states what validates.
- Rendering internals are not modelled: DPI, pixmaps, PNG encoding and base64. Each page's rendering is given as its base64 text, or as a failure.
- The PDF libraries work on the file in one of two ways. When a library raises while opening the file or while reading any page's text, it is modelled as not opening the file; the source's `except` returns the same empty result in both cases.
- A vision reply without a text part (an `IndexError` in the source) is not modelled: the reply text is given directly.
- MD5 itself is a parameter, and so are the Redis server's failures. The start-up ping's outcome is a constructor argument.
- `main.py` and `core/config.py` are not part of this model beyond the API key, which is a parameter.
