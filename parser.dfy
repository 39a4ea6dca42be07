/** The `ResumeParser` class: its settings, fixed when it is built, and the
    state its parsing changes (the cache, the requests sent to the model and
    the waits made). */
module Parser {
  import opened Basics
  import opened Text
  import opened Keys
  import opened Prompting
  import opened Sanitizer
  import opened Extraction
  import opened Parsing

  const API_KEY_REQUIRED := "API key is required"
  const DEFAULT_CACHE_DIR := "cache"

  class ResumeParser {
    const apiKey: string
    const cacheDir: string
    const useCache: bool
    const model: string := MODEL_NAME
    const template: string
    /** The sanitizer applied to each reply: `_clean_json_response`. */
    const clean: string -> string
    const digest: string -> seq<byte>
    const decode: string -> Result<Json, string>
    const generate: (nat, Request) -> Reply

    /** The cache directory's entries, by key. */
    var cache: map<string, Json>
    /** Every request sent to the model, in order. */
    var sent: seq<Request>
    /** Every `time.sleep`, in order. */
    ghost var slept: seq<Sleep>

    /** The settings and collaborators parsing depends on. */
    function Env(): Config {
      Config(template, clean, useCache, digest, decode, generate)
    }

    ghost function State(): Session
      reads this
    {
      Session(cache, sent, slept)
    }

    /** `ResumeParser(api_key, cache_dir, use_cache)` for a non-empty key;
        `stored` is what the cache directory already holds. */
    constructor (apiKey: string, cacheDir: string, useCache: bool,
                 digest: string -> seq<byte>, decode: string -> Result<Json, string>,
                 generate: (nat, Request) -> Reply, stored: map<string, Json>)
      requires apiKey != []
      ensures this.apiKey == apiKey && this.cacheDir == cacheDir && this.useCache == useCache
      ensures model == MODEL_NAME && template == TEMPLATE && clean == CleanJsonResponse
      ensures this.digest == digest && this.decode == decode && this.generate == generate
      ensures cache == stored && sent == [] && slept == []
    {
      this.apiKey := apiKey;
      this.cacheDir := cacheDir;
      this.useCache := useCache;
      this.template := TEMPLATE;
      this.clean := CleanJsonResponse;
      this.digest := digest;
      this.decode := decode;
      this.generate := generate;
      cache := stored;
      sent := [];
      slept := [];
    }

    static method Create(apiKey: string, cacheDir: string, useCache: bool,
                         digest: string -> seq<byte>, decode: string -> Result<Json, string>,
                         generate: (nat, Request) -> Reply, stored: map<string, Json>)
      returns (parser: ResumeParser?, error: Option<Error>)
      ensures apiKey == [] <==> parser == null
      ensures error == if parser == null then Some(ValueError(API_KEY_REQUIRED)) else None
      ensures parser != null ==> fresh(parser) && parser.apiKey == apiKey && parser.cacheDir == cacheDir
      ensures parser != null ==> parser.Env() == Config(TEMPLATE, CleanJsonResponse, useCache, digest, decode, generate)
      ensures parser != null ==> parser.cache == stored && parser.sent == [] && parser.slept == []
    {
      if apiKey == [] {
        return null, Some(ValueError(API_KEY_REQUIRED));
      }
      parser := new ResumeParser(apiKey, cacheDir, useCache, digest, decode, generate, stored);
      error := None;
    }

    /** `_get_prompt`: the template followed by the resume text. */
    function GetPrompt(resumeText: string): (p: string)
      ensures p == PromptFor(template, resumeText)
      ensures ResumeTextOf(template, p) == Some(resumeText)
    {
      PromptRoundTrip(template, resumeText);
      template + resumeText
    }

    /** `parse_resume`: a blank text is refused and a cached one answered
        from the cache, before the model is called. */
    method ParseResume(text: string, maxRetries: int) returns (r: Result<Json, Error>)
      modifies this
      ensures Step(r, State()) == Parse(Env(), old(State()), text, maxRetries)
    {
      if IsBlank(text) {
        return Failure(ValueError(EMPTY_TEXT));
      }
      var key := CacheKey(digest, text);
      if useCache && key in cache {
        return Success(cache[key]);
      }
      r := CallModel(text, maxRetries);
    }

    /** The part of `parse_resume` after the early returns: the retry loop,
        then, on success with the cache on, the cache entry for the text. */
    method CallModel(text: string, maxRetries: int) returns (r: Result<Json, Error>)
      modifies this
      ensures Step(r, State()) == Parsing.CallModel(Env(), old(State()), text, maxRetries)
    {
      r := RetryLoop(text, maxRetries);
      if useCache && r.Success? {
        cache := cache[CacheKey(digest, text) := r.value];
      }
    }

    /** The retry loop: up to `maxRetries` attempts, with a wait after each
        failed one but the last; the first decoded reply ends it. */
    method RetryLoop(text: string, maxRetries: int) returns (r: Result<Json, Error>)
      modifies this
      ensures var run := Attempts(Env(), text, |old(sent)|, maxRetries, 0);
        && r == run.outcome
        && sent == old(sent) + Repeat(RequestFor(template, text), run.calls)
        && slept == old(slept) + run.backoffs
        && cache == old(cache)
    {
      ghost var base := |sent|;
      ghost var full := Attempts(Env(), text, base, maxRetries, 0);
      ghost var waits: seq<Sleep> := [];
      var request := RequestFor(template, text);
      var attempt := 0;
      assert After(0, [], full) == full;
      while attempt < maxRetries
        invariant 0 <= attempt && (attempt == 0 || attempt < maxRetries)
        invariant cache == old(cache)
        invariant sent == old(sent) + Repeat(request, attempt)
        invariant slept == old(slept) + waits
        invariant full == After(attempt, waits, Attempts(Env(), text, base, maxRetries, attempt))
        decreases maxRetries - attempt
      {
        var outcome := MakeAttempt(text, base, attempt);
        assert Repeat(request, attempt) + [request] == Repeat(request, attempt + 1);
        if outcome.Decoded? {
          AttemptsStop(Env(), text, base, maxRetries, attempt, waits);
          return Success(outcome.value);
        } else if attempt < maxRetries - 1 {
          AttemptsContinue(Env(), text, base, maxRetries, attempt, waits);
          var wait := BackoffAfter(outcome);
          slept := slept + [wait];
          waits := waits + [wait];
          attempt := attempt + 1;
        } else {
          AttemptsStop(Env(), text, base, maxRetries, attempt, waits);
          if outcome.Malformed? {
            return Failure(PlainException(JsonRetriesFailed(maxRetries, outcome.reason)));
          } else {
            return Failure(outcome.error);
          }
        }
      }
      AttemptsNone(Env(), text, base, maxRetries, attempt, waits);
      return Failure(PlainException(ALL_RETRIES_FAILED));
    }

    /** One attempt of the retry loop: send the request, refuse a reply
        without text, then clean the text and decode it. Call number `base + k`
        is attempt `k` of a loop whose first call was number `base`. */
    method MakeAttempt(text: string, ghost base: nat, ghost k: nat) returns (outcome: Attempt)
      requires |sent| == base + k
      modifies this
      ensures sent == old(sent) + [RequestFor(template, text)]
      ensures cache == old(cache) && slept == old(slept)
      ensures outcome == AttemptOf(Env(), text, base, k)
    {
      var request := Request(model, GetPrompt(text), TEMPERATURE, MAX_OUTPUT_TOKENS);
      var reply := generate(|sent|, request);
      sent := sent + [request];
      match reply {
        case NetError(m) =>
          outcome := Raised(Foreign(m));
        case Empty =>
          outcome := Raised(ValueError(EMPTY_REPLY));
        case Answer(t) =>
          if t == [] {
            outcome := Raised(ValueError(EMPTY_REPLY));
          } else {
            var cleaned := clean(t);
            match decode(cleaned) {
              case Success(v) => outcome := Decoded(v);
              case Failure(m) => outcome := Malformed(m);
            }
          }
      }
    }

    /** `parse_from_file`: read the file's text, then parse it with the
        default number of retries; a read failure is passed on. */
    method ParseFromFile(path: string, readers: Readers) returns (r: Result<Json, Error>)
      modifies this
      ensures Step(r, State()) == ParseFile(Env(), readers, old(State()), path)
    {
      var text := GetFileText(path, readers);
      if text.Failure? {
        return Failure(text.error);
      }
      r := ParseResume(text.value, DEFAULT_MAX_RETRIES);
    }
  }
}
