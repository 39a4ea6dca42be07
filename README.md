# Resume parser: a verified model

This project models the core of a resume parser that turns resume files
(plain text, PDF, DOCX) into structured JSON by asking a Gemini language
model. The core is `resume_parser.py`:

- `get_file_text` picks a reader by the lower-cased file suffix.
- `get_cache_key` is the hexadecimal MD5 digest of the resume text.
- The `ResumeParser` class holds the API key, the cache directory and the model.
  - `_get_prompt` puts the fixed instructions before the resume text.
  - `_clean_json_response` strips code fences and keeps the span from the first `{` to the last `}`.
  - `parse_resume` refuses blank text, answers from the cache when it can, and otherwise runs a retry loop:
    - up to `max_retries` calls to the model;
    - a 1-second wait after a JSON decode failure and a 2-second wait after any other failure, except after the last attempt;
    - a distinct exception for each way the loop can end.
  - `parse_from_file` reads a file and parses its text.
- `batch_parse_resumes` parses every `*.txt`, `*.pdf` and `*.docx` file of a folder:
  - it records one success or failure entry per file;
  - it pauses one second between files.

Modules, one per part of the program:

| module | file | models |
|---|---|---|
| `Basics` | `basics.dfy` | outcomes (`Result`), the exceptions raised (`Error`), decoded JSON, `str(n)` |
| `Text` | `text.dfy` | `isspace`, `strip`/`lstrip`/`rstrip`, `find`/`rfind`, `lower` |
| `Keys` | `keys.dfy` | `get_cache_key` as the hex spelling of a digest |
| `Prompting` | `prompt.dfy` | the prompt template and the request sent to the model |
| `Sanitizer` | `sanitizer.dfy` | `_clean_json_response` |
| `Extraction` | `extraction.dfy` | `Path.name`, `Path.suffix` and `get_file_text` |
| `Parsing` | `parsing.dfy` | `parse_resume` and `parse_from_file` as functions of the parser's state |
| `Parser` | `parser.dfy` | the `ResumeParser` class: a retry loop proved against `Parsing` |
| `Batch` | `batch.dfy` | `batch_parse_resumes`: a loop over the files proved against a recursive batch function |

How state is modelled:

- The parser's state is a `Session`, held as fields of `ResumeParser`:
  - the cache directory's entries by key;
  - every request sent to the model;
  - every wait made.
- Collaborators the program calls but that are not part of it are function-valued parameters:
  - the model client, which answers call number `n` of a request;
  - `json.loads`;
  - the MD5 digest;
  - the PDF, DOCX and UTF-8 readers.
- Exceptions are values:
  - `ValueError` and `Exception` raised by the parser itself;
  - `Foreign` for anything a collaborator raises.
- A Python method that raises is modelled as returning `Failure(error)`.

`re.sub(r'```json\s*', '', text)` deletes every "```json" and the whitespace after it, wherever it stands, not only a leading one. `Sanitizer.RemoveJsonFences` models that, and `Sanitizer.JsonFenceRemovedAnywhere` states it.

## Model

| member | source | states |
|---|---|---|
| Basics.Decimal | resume_parser.py:193 | `str(max_retries)` is a non-empty digit string, without a leading zero unless the number is 0, whose value is the number |
| Text.IsSpace | resume_parser.py:122 | no contract; it is `str.isspace`, the whitespace of `strip()` and of the regex `\s`; Strip, LStrip, RStrip and LStripSpacesBefore state how it is used |
| Text.Strip | resume_parser.py:122 | `strip()` is empty exactly when the text is all whitespace, and otherwise starts and ends with non-whitespace |
| Text.LStrip | resume_parser.py:122 | `lstrip()` is a suffix of the text whose removed part is all whitespace and whose first character, if any, is not whitespace |
| Text.RStrip | resume_parser.py:125 | `rstrip()` is a prefix of the text whose removed part is all whitespace and whose last character, if any, is not whitespace |
| Text.Find | resume_parser.py:128 | `find` gives -1 exactly when the character is absent, and otherwise its first position |
| Text.RFind | resume_parser.py:129 | `rfind` gives -1 exactly when the character is absent, and otherwise its last position |
| Text.Lower | resume_parser.py:46 | `lower()` keeps the length and lowers each ASCII letter in place |
| Text.LStripConcat | resume_parser.py:123 | leading whitespace before a non-whitespace character is all that `lstrip` removes |
| Text.RStripConcat | resume_parser.py:125 | trailing whitespace after a non-whitespace character is all that `rstrip` removes |
| Keys.Hex | resume_parser.py:61 | `hexdigest()` has two lower-case hex digits per byte |
| Keys.UnhexHex | resume_parser.py:61 | reading the hex spelling back gives the digest bytes |
| Keys.HexInjective | resume_parser.py:61 | two digests have the same hex spelling exactly when they are equal |
| Keys.CacheKey | resume_parser.py:59-61 | the cache key is twice as long as the digest and made of hex digits only, so it holds no '/' or '.' |
| Keys.SameKeyIffSameDigest | resume_parser.py:59-61 | two resume texts share a cache key exactly when their digests agree |
| Prompting.PromptFor | resume_parser.py:90-117 | the prompt is the template followed by the resume text, with nothing in between |
| Prompting.ResumeTextOf | resume_parser.py:117 | a resume text is recovered exactly from a prompt that starts with the template |
| Prompting.PromptRoundTrip | resume_parser.py:117 | the resume text is recovered from its prompt |
| Prompting.ResumeTextRoundTrip | resume_parser.py:117 | a prompt that a text is recovered from is that text's prompt |
| Prompting.RequestsDetermineText | resume_parser.py:162-170 | two texts give the same request exactly when they are equal; every request names "gemini-2.5-flash" with temperature 0.1 and 2000 output tokens |
| Sanitizer.RemoveJsonFences | resume_parser.py:123 | the "```json" deletion never lengthens the text |
| Sanitizer.JsonFenceRemovedAnywhere | resume_parser.py:123 | a "```json" and the whitespace after it are deleted wherever they stand, and the text before them is kept |
| Sanitizer.JsonFencesAddNothing | resume_parser.py:123 | the "```json" deletion adds no character that was absent |
| Sanitizer.JsonFencesKeepTicklessPrefix | resume_parser.py:123 | text without backticks passes through the "```json" deletion unchanged |
| Sanitizer.JsonFencesSplitAtBrace | resume_parser.py:123 | no deletion reaches across a '{': the text before it and the text from it on are cleaned separately |
| Sanitizer.RemoveTrailingFence | resume_parser.py:124 | the trailing-fence deletion keeps a prefix and cuts off at most a "```" followed only by whitespace |
| Sanitizer.TrailingFenceRemoved | resume_parser.py:124 | a "```" followed by whitespace alone is cut off, whatever precedes it |
| Sanitizer.TrailingFenceKeepsPrefix | resume_parser.py:124 | text without backticks, or followed by a '}', is never cut off |
| Sanitizer.StripAround | resume_parser.py:125 | trimming stops at the first and last non-whitespace characters |
| Sanitizer.BraceSpan | resume_parser.py:128-132 | no contract; its properties are BraceSpanBetween and BraceSpanAround |
| Sanitizer.CleanJsonResponse | resume_parser.py:119-134 | no contract; its properties are CleanKeepsBraceSpan, CleanWithoutBraces, CleanExtractsEmbeddedObject, CleanKeepsBareObject and CleanUnwrapsFencedObject |
| Sanitizer.BraceSpanBetween | resume_parser.py:128-132 | the span kept runs from the first '{' to the last '}' and starts with '{' and ends with '}'; it is empty when the last '}' comes before the first '{' |
| Sanitizer.CleanKeepsBraceSpan | resume_parser.py:119-134 | when the fence-stripped text holds both braces, the result is the slice from the first '{' through the last '}', or empty when they are out of order |
| Sanitizer.CleanWithoutBraces | resume_parser.py:131-134 | without a '{' or without a '}', the fence-stripped text is returned unchanged |
| Sanitizer.CleanExtractsEmbeddedObject | resume_parser.py:119-134 | prose without '{', an object without backticks, then prose without '}' is cleaned to exactly the object |
| Sanitizer.CleanKeepsBareObject | resume_parser.py:119-134 | a reply that is already an object without backticks comes back unchanged |
| Sanitizer.CleanUnwrapsFencedObject | resume_parser.py:121-124 | "```json", a newline, an object, a newline and "```" is unwrapped to the object |
| Extraction.FileName | resume_parser.py:236 | `Path(p).name` is the end of the path after its last '/' |
| Extraction.Suffix | resume_parser.py:46 | `Path(p).suffix` is empty or the end of the name from its last dot, at least two characters long, and never the whole name |
| Extraction.FileNameAfterDirectory | resume_parser.py:236 | a name placed after a directory part is the path's file name |
| Extraction.SuffixOfPath | resume_parser.py:46 | a non-empty stem followed by a dot-part with no further dot has that dot-part as its suffix |
| Extraction.ReaderFor | resume_parser.py:48-56 | no contract; its properties are DispatchByExtension and NoSuffixUnsupported |
| Extraction.GetFileText | resume_parser.py:44-56 | no contract; its properties are DispatchByExtension, DotFileUnsupported and NoSuffixUnsupported |
| Extraction.DispatchByExtension | resume_parser.py:44-56 | ".pdf" goes to the PDF reader, ".docx" to the DOCX reader, ".txt" or ".text" to the UTF-8 reader, in any letter case; any other suffix raises a ValueError naming it |
| Extraction.DotFileHasNoSuffix | resume_parser.py:46 | a file named just ".txt" has no suffix |
| Extraction.DotFileUnsupported | resume_parser.py:46-56 | such a file is rejected as "Unsupported file format: " with nothing after it |
| Extraction.NoSuffixUnsupported | resume_parser.py:55-56 | a path without a suffix is rejected, naming the empty suffix |
| Parsing.JsonRetriesFailed | resume_parser.py:193 | the message after the last decode failure is never the "after all retries" message |
| Parsing.Classify | resume_parser.py:172-177 | no contract; its properties are ClassifyEmbeddedObject and ClassifyRaisesNoPlainException, and MakeAttempt is proved to end as it says |
| Parsing.BackoffAfter | resume_parser.py:188-198 | no contract; AttemptsBounded states that the wait is 1 s after a decode failure and 2 s after any other failure |
| Parsing.FinalError | resume_parser.py:188-200 | no contract; its properties are AllAttemptsFail, FinalErrorIsNotGeneric and ParseExhaustsRetries |
| Parsing.Attempts | resume_parser.py:160-202 | no contract; its properties are AttemptsBounded, SuccessIsLastCall, FirstDecodedWins, AllAttemptsFail, FailureMeansAllFailed and LoopNeverEndsGeneric, and RetryLoop is proved equal to it |
| Parsing.CallModel | resume_parser.py:159-202 | no contract; its properties are CallModelCache, CallModelCalls and GenericFailureIffNoAttempt |
| Parsing.Parse | resume_parser.py:136-202 | no contract; its properties are EarlyReturns, ParseCache, ParseCalls, ParseReturnsFirstDecoded, ParseExhaustsRetries and SecondParseHitsCache, and ParseResume is proved equal to it |
| Parsing.ParseFile | resume_parser.py:204-207 | no contract; its property is ParseFileCalls, and ParseFromFile is proved equal to it |
| Parsing.ClassifyEmbeddedObject | resume_parser.py:172-177 | with the parser's sanitizer, a reply of prose, one object and prose is decoded as exactly that object |
| Parsing.ClassifyRaisesNoPlainException | resume_parser.py:172-177 | an attempt raises only a ValueError or a collaborator's exception, never a plain `Exception` of the parser |
| Parsing.AttemptsContinue | resume_parser.py:188-198 | a failed attempt that is not the last is followed by its wait and the next attempt |
| Parsing.AttemptsStop | resume_parser.py:186-200 | a decoded attempt, or a failed last one, ends the loop with its value or its final exception |
| Parsing.AttemptsNone | resume_parser.py:202 | with no attempt left the loop raises "Failed to parse resume after all retries" |
| Parsing.EarlyReturns | resume_parser.py:147-157 | blank text raises "Resume text is empty", and cached text returns the cached document when the cache is on, both leaving the session unchanged |
| Parsing.AttemptsBounded | resume_parser.py:160-200 | the loop makes between one and `max_retries` calls; each failed attempt but the last is followed by one wait, 1 s after a decode failure and 2 s otherwise |
| Parsing.SuccessIsLastCall | resume_parser.py:160-186 | a successful loop returns what its last call decoded, and every earlier call failed |
| Parsing.FirstDecodedWins | resume_parser.py:160-186 | the first attempt that decodes is returned, after exactly the calls up to it |
| Parsing.AllAttemptsFail | resume_parser.py:188-200 | when no attempt decodes, all `max_retries` calls are made and the last failure decides the exception |
| Parsing.FailureMeansAllFailed | resume_parser.py:160-200 | a failed loop made every attempt it could, and none decoded |
| Parsing.FinalErrorIsNotGeneric | resume_parser.py:193-202 | the exception of a failed last attempt is never the "after all retries" one |
| Parsing.LoopNeverEndsGeneric | resume_parser.py:160-202 | a loop that may make at least one attempt never ends with the "after all retries" exception |
| Parsing.GenericFailureIffNoAttempt | resume_parser.py:160-202 | past the early returns, the "after all retries" exception comes exactly when `max_retries` allows no attempt, and then nothing is sent and nothing waited |
| Parsing.CallModelCache | resume_parser.py:179-184 | the loop writes the cache only on success with the cache on, under the text's key, touching no other key |
| Parsing.CallModelCalls | resume_parser.py:160-200 | the loop appends only the text's request, at most `max_retries` times and at least once when allowed, with one 1 s or 2 s wait between consecutive calls |
| Parsing.ParseCache | resume_parser.py:150-184 | `parse_resume` as a whole changes the cache only by storing a successful result under the text's key |
| Parsing.ParseCalls | resume_parser.py:147-200 | `parse_resume` calls the model at most `max_retries` times, and not at all for blank or cached text |
| Parsing.ParseFileCalls | resume_parser.py:204-207 | `parse_from_file` makes at most 3 calls and adds only backoff waits, and changes nothing when the file cannot be read |
| Parsing.ParseReturnsFirstDecoded | resume_parser.py:136-186 | parsing returns the value of the first decoded attempt, after exactly the calls up to it |
| Parsing.ParseExhaustsRetries | resume_parser.py:136-200 | when no attempt decodes, parsing makes all calls and raises "Failed to parse JSON response after N attempts: …" after a decode failure or the last exception itself, with the cache unchanged |
| Parsing.SecondParseHitsCache | resume_parser.py:151-184 | after a success with the cache on, parsing the same text again returns the same result with no call and no wait |
| Parser.ResumeParser.constructor | resume_parser.py:67-88 | the parser keeps the key, cache directory and cache flag, uses "gemini-2.5-flash", the template and the sanitizer, and starts with the stored cache and no calls or waits |
| Parser.ResumeParser.Create | resume_parser.py:67-88 | an empty API key raises "API key is required" and gives no parser; any other key gives a fresh parser with those settings |
| Parser.ResumeParser.GetPrompt | resume_parser.py:90-117 | the prompt is the template followed by the text, and the text is recovered from it; MakeAttempt sends it |
| Parser.ResumeParser.ParseResume | resume_parser.py:136-202 | the result and the new cache, requests and waits are those of `Parsing.Parse` on the old state |
| Parser.ResumeParser.CallModel | resume_parser.py:159-202 | the retry loop followed by the cache write on success equals `Parsing.CallModel` on the old state |
| Parser.ResumeParser.RetryLoop | resume_parser.py:160-202 | the loop's outcome, the requests appended and the waits appended are those of `Parsing.Attempts`; the cache is unchanged |
| Parser.ResumeParser.MakeAttempt | resume_parser.py:161-177 | one attempt appends one request, built from the parser's model name and `_get_prompt`, and ends as the reply to that call classifies: decoded, malformed or raised |
| Parser.ResumeParser.ParseFromFile | resume_parser.py:204-207 | reading then parsing equals `Parsing.ParseFile` on the old state; a read failure is passed on unchanged |
| Batch.EntryFor | resume_parser.py:232-246 | a file's entry is named by its file name, is a success exactly when parsing succeeded, and carries the parsed document or the exception's message |
| Batch.BatchFrom | resume_parser.py:229-250 | no contract; its properties are OneEntryPerFile, GroupedByExtension, PausesBetweenFiles, BatchPauses and UnreadableFileIsRecorded, and BatchResults ties the loop of ParseAll to it |
| Batch.BatchParseResumes | resume_parser.py:210-250 | an empty key raises before any file is read; otherwise each `*.txt`, then `*.pdf`, then `*.docx` file gets its round, starting from the stored cache with no calls or waits |
| Batch.ParseAll | resume_parser.py:229-250 | the loop makes one round per file, in order, from the parser's old state to its new one |
| Batch.ParseNext | resume_parser.py:232-250 | one round parses the file, records its outcome or exception, and pauses 1 s when another file follows |
| Batch.RoundsExtend | resume_parser.py:229-250 | one more round extends the rounds made so far |
| Batch.RoundsAreBatch | resume_parser.py:229-250 | from any round on, the rounds give the entries and the final state of the batch over the files left |
| Batch.BatchResults | resume_parser.py:229-250 | the loop's entries and final state are those of the batch function over all files |
| Batch.OneEntryPerFile | resume_parser.py:229-246 | the batch gives exactly one entry per file, in file order, each named by its file name |
| Batch.GroupedByExtension | resume_parser.py:225-227 | the text files' entries come first, then the PDF files', then the DOCX files' |
| Batch.PausesAppend | resume_parser.py:249-250 | the pauses of two wait logs joined are the sum of their pauses |
| Batch.BackoffsKeepPauses | resume_parser.py:249-250 | a session change that adds backoff waits only adds no pause between files |
| Batch.PausesBetweenFiles | resume_parser.py:248-250 | a batch of n files, each adding backoffs only, pauses exactly n - 1 times and makes at most 3 calls per file |
| Batch.FileParserAddsBackoffsOnly | resume_parser.py:204-207 | `parse_from_file` adds at most 3 calls and backoff waits only |
| Batch.BatchPauses | resume_parser.py:248-250 | `batch_parse_resumes` pauses exactly n - 1 times for n files and calls the model at most 3 times per file |
| Batch.UnreadableFileIsRecorded | resume_parser.py:241-246 | a file that cannot be read is recorded as failed with the exception's message, with no call and no wait, and the files after it are still parsed |
| Batch.DotFileRecordedUnsupported | resume_parser.py:241-246 | a file named just ".txt" is recorded as failed with "Unsupported file format: " |

## Left out

- Reading files: the PDF, DOCX and UTF-8 readers are parameters. `extract_text_from_pdf` and `extract_text_from_docx` are not part of this model, so neither is the text they produce or the message they raise.
- The cache directory is a map from key to document. `os.makedirs`, `os.path.exists`, `json.load`, `json.dump` and a failure while writing the cache are not modelled.
- `get_cache_key`'s UTF-8 encoding and MD5 digest form a digest parameter. Only the hex spelling is modelled.
- The Gemini client (`genai.configure`, `GenerativeModel`, `generate_content`) is a parameter that answers call number `n` of a request, by raising, with an empty text or with a text. Network behaviour and the import fallback that sets `genai` to `None` are left out.
- `json.loads` is a decode parameter, and its error message is the string it gives.
- `time.sleep` makes no real wait. Each sleep is appended to a ghost log of waits, so the proofs can count the waits.
- `batch_parse_resumes` receives its `*.txt`, `*.pdf` and `*.docx` file lists as parameters. Directory listing, glob order and glob case rules are left out. `print` and the write of `results.json` are left out too.
- Paths are plain strings. `Path.name` and `Path.suffix` use '/' as the only separator, and there is no path normalisation.
- Text.Lower: lowers ASCII letters only. The dispatch decision is exact, because the supported suffixes are ASCII, but a non-ASCII suffix in the error message is not lowered as Python's `str.lower` would.
- Parser.ResumeParser.Create: returns no parser and the `ValueError` as a value instead of raising from the constructor. The constructor itself requires a non-empty key.
- Parser.ResumeParser.constructor: the template and the sanitizer are fields fixed by the constructor instead of methods, so `Parsing` can take them as settings.
- Sanitizer.CleanKeepsBraceSpan: does not restate that the span starts with '{' and ends with '}'. `Sanitizer.BraceSpanBetween` states it for the fence-stripped text.
- `app.py`, `cli.py` and `config.py` (the web app, the command line and the settings) are not part of this model.
