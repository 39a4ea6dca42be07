/** What `parse_resume` and `parse_from_file` do, as functions of the parser's
    collaborators and of the state they act on: the cache, the requests sent
    to the model and the waits made. */
module Parsing {
  import opened Basics
  import opened Text
  import opened Keys
  import opened Sanitizer
  import opened Extraction
  import opened Prompting

  /** What one `generate_content` call gives: an exception, a reply without
      text, or the reply's text. */
  datatype Reply = NetError(message: string) | Empty | Answer(text: string)

  /** The parser's settings and collaborators. */
  datatype Config = Config(
    template: string,                         // the prompt before the resume text: TEMPLATE
    clean: string -> string,                  // _clean_json_response: CleanJsonResponse
    useCache: bool,
    digest: string -> seq<byte>,              // hashlib.md5(text.encode()).digest()
    decode: string -> Result<Json, string>,   // json.loads, or str() of its JSONDecodeError
    generate: (nat, Request) -> Reply)        // the model's reply to the call with that number

  /** A `time.sleep`: a wait between attempts, or between files of a batch. */
  datatype Sleep = Backoff(seconds: nat) | Pacing(seconds: nat)

  /** What parsing acts on: the cache directory's entries by key, every
      request sent to the model so far, and every wait made so far. */
  datatype Session = Session(cache: map<string, Json>, sent: seq<Request>, slept: seq<Sleep>)

  /** How one attempt of the retry loop ends. */
  datatype Attempt =
    | Decoded(value: Json)     // the cleaned reply decoded
    | Malformed(reason: string) // json.loads raised JSONDecodeError
    | Raised(error: Error)     // any other exception

  /** How the retry loop ends, how many calls it made and the waits between them. */
  datatype Run = Run(outcome: Result<Json, Error>, calls: nat, backoffs: seq<Sleep>)

  /** The outcome of one `parse_resume` call and the session after it. */
  datatype Step = Step(outcome: Result<Json, Error>, after: Session)

  const DEFAULT_MAX_RETRIES := 3
  const EMPTY_TEXT := "Resume text is empty"
  const EMPTY_REPLY := "Empty response from API"
  const ALL_RETRIES_FAILED := "Failed to parse resume after all retries"

  /** The exception message after the last of `maxRetries` decode failures;
      it is never the "after all retries" message. */
  function JsonRetriesFailed(maxRetries: nat, reason: string): (m: string)
    ensures m != ALL_RETRIES_FAILED
  {
    var m := "Failed to parse JSON response after " + Decimal(maxRetries) + " attempts: " + reason;
    assert m[16] == 'J' && ALL_RETRIES_FAILED[16] == 'r';
    m
  }

  /** One attempt: the reply is rejected when it has no text, and otherwise
      cleaned and decoded. */
  function Classify(cfg: Config, reply: Reply): Attempt {
    match reply
    case NetError(m) => Raised(Foreign(m))
    case Empty => Raised(ValueError(EMPTY_REPLY))
    case Answer(t) =>
      if t == [] then Raised(ValueError(EMPTY_REPLY))
      else
        match cfg.decode(cfg.clean(t))
        case Success(v) => Decoded(v)
        case Failure(m) => Malformed(m)
  }

  /** With the parser's sanitizer, a reply made of prose, one JSON object
      and prose is decoded as exactly that object, fences or not. */
  lemma ClassifyEmbeddedObject(cfg: Config, a: string, j: string, b: string)
    requires cfg.clean == CleanJsonResponse
    requires '{' !in a && '}' !in b
    requires j != [] && j[0] == '{' && j[|j| - 1] == '}' && '`' !in j
    ensures Classify(cfg, Answer(a + j + b)) ==
      match cfg.decode(j)
      case Success(v) => Decoded(v)
      case Failure(m) => Malformed(m)
  {
    CleanExtractsEmbeddedObject(a, j, b);
  }

  /** Every exception an attempt itself raises comes from the model client or
      is a ValueError. */
  predicate RaisesNoPlainException(a: Attempt) {
    a.Raised? ==> !a.error.PlainException?
  }

  lemma ClassifyRaisesNoPlainException(cfg: Config, reply: Reply)
    ensures RaisesNoPlainException(Classify(cfg, reply))
  {
  }

  /** How attempt `k` ends in a loop for `text` whose first call has number
      `base`: the classified reply to call `base + k`. */
  function AttemptOf(cfg: Config, text: string, base: nat, k: nat): Attempt {
    Classify(cfg, cfg.generate(base + k, RequestFor(cfg.template, text)))
  }

  /** The wait after a failed attempt that is not the last. */
  function BackoffAfter(a: Attempt): Sleep
    requires !a.Decoded?
  {
    if a.Malformed? then Backoff(1) else Backoff(2)
  }

  /** The exception a failed last attempt ends the loop with. */
  function FinalError(a: Attempt, maxRetries: nat): Error
    requires !a.Decoded?
  {
    if a.Malformed? then PlainException(JsonRetriesFailed(maxRetries, a.reason)) else a.error
  }

  /** The retry loop for `text` from attempt `attempt` on, in a loop whose
      first call has number `base`. */
  function Attempts(cfg: Config, text: string, base: nat, maxRetries: int, attempt: nat): Run
    decreases maxRetries - attempt
  {
    if attempt >= maxRetries then Run(Failure(PlainException(ALL_RETRIES_FAILED)), 0, [])
    else
      var a := AttemptOf(cfg, text, base, attempt);
      if a.Decoded? then Run(Success(a.value), 1, [])
      else if attempt < maxRetries - 1 then
        var rest := Attempts(cfg, text, base, maxRetries, attempt + 1);
        Run(rest.outcome, rest.calls + 1, [BackoffAfter(a)] + rest.backoffs)
      else Run(Failure(FinalError(a, maxRetries)), 1, [])
  }

  /** The run of a whole loop seen from attempt `done` on: the `done` calls
      and the `waits` already made, followed by the rest of the run. */
  function After(done: nat, waits: seq<Sleep>, rest: Run): Run {
    Run(rest.outcome, done + rest.calls, waits + rest.backoffs)
  }

  /** A failed attempt that is not the last is followed by its wait and the
      next attempt. */
  lemma AttemptsContinue(cfg: Config, text: string, base: nat, maxRetries: int, attempt: nat, waits: seq<Sleep>)
    requires attempt < maxRetries - 1
    requires !AttemptOf(cfg, text, base, attempt).Decoded?
    ensures After(attempt, waits, Attempts(cfg, text, base, maxRetries, attempt))
      == After(attempt + 1, waits + [BackoffAfter(AttemptOf(cfg, text, base, attempt))],
               Attempts(cfg, text, base, maxRetries, attempt + 1))
  {
    var rest := Attempts(cfg, text, base, maxRetries, attempt + 1);
    var w := BackoffAfter(AttemptOf(cfg, text, base, attempt));
    assert waits + ([w] + rest.backoffs) == waits + [w] + rest.backoffs;
  }

  /** A decoded attempt, or a failed last one, ends the loop. */
  lemma AttemptsStop(cfg: Config, text: string, base: nat, maxRetries: int, attempt: nat, waits: seq<Sleep>)
    requires attempt < maxRetries
    requires var a := AttemptOf(cfg, text, base, attempt); a.Decoded? || attempt == maxRetries - 1
    ensures var a := AttemptOf(cfg, text, base, attempt);
      After(attempt, waits, Attempts(cfg, text, base, maxRetries, attempt))
        == Run(if a.Decoded? then Success(a.value) else Failure(FinalError(a, maxRetries)), attempt + 1, waits)
  {
    assert waits + [] == waits;
  }

  /** With no attempt left the loop ends with the "after all retries"
      exception. */
  lemma AttemptsNone(cfg: Config, text: string, base: nat, maxRetries: int, attempt: nat, waits: seq<Sleep>)
    requires attempt >= maxRetries
    ensures After(attempt, waits, Attempts(cfg, text, base, maxRetries, attempt))
      == Run(Failure(PlainException(ALL_RETRIES_FAILED)), attempt, waits)
  {
    assert waits + [] == waits;
  }

  /** `n` copies of `x`. */
  function Repeat<T>(x: T, n: nat): (r: seq<T>)
    ensures |r| == n
    ensures forall k :: 0 <= k < n ==> r[k] == x
  {
    if n == 0 then [] else [x] + Repeat(x, n - 1)
  }

  /** The model of `parse_resume`. */
  function Parse(cfg: Config, s: Session, text: string, maxRetries: int): Step {
    var key := CacheKey(cfg.digest, text);
    if IsBlank(text) then Step(Failure(ValueError(EMPTY_TEXT)), s)
    else if cfg.useCache && key in s.cache then Step(Success(s.cache[key]), s)
    else CallModel(cfg, s, text, maxRetries)
  }

  /** The part of `parse_resume` after the early returns: the retry loop,
      with the requests it sends, the waits it makes and, on success, the
      cache entry it writes. */
  function CallModel(cfg: Config, s: Session, text: string, maxRetries: int): Step {
    var run := Attempts(cfg, text, |s.sent|, maxRetries, 0);
    var cache := if cfg.useCache && run.outcome.Success? then s.cache[CacheKey(cfg.digest, text) := run.outcome.value] else s.cache;
    Step(run.outcome, Session(cache, s.sent + Repeat(RequestFor(cfg.template, text), run.calls), s.slept + run.backoffs))
  }

  /** The model of `parse_from_file`: read the file, then parse its text with
      the default number of retries. */
  function ParseFile(cfg: Config, readers: Readers, s: Session, path: string): Step {
    match GetFileText(path, readers)
    case Failure(e) => Step(Failure(e), s)
    case Success(text) => Parse(cfg, s, text, DEFAULT_MAX_RETRIES)
  }

  /** Parsing reaches the model only for a text that is not blank and not
      already cached; otherwise the session is unchanged. */
  lemma EarlyReturns(cfg: Config, s: Session, text: string, maxRetries: int)
    ensures IsBlank(text) <==> AllSpace(text)
    ensures AllSpace(text) ==> Parse(cfg, s, text, maxRetries) == Step(Failure(ValueError(EMPTY_TEXT)), s)
    ensures !AllSpace(text) && cfg.useCache && CacheKey(cfg.digest, text) in s.cache ==>
      Parse(cfg, s, text, maxRetries) == Step(Success(s.cache[CacheKey(cfg.digest, text)]), s)
  {
  }

  /** The loop makes between one and `maxRetries - attempt` calls and waits
      between consecutive calls only: 1 after a decode failure, 2 after any
      other failure. */
  lemma {:induction false} AttemptsBounded(cfg: Config, text: string, base: nat, maxRetries: int, attempt: nat)
    requires attempt < maxRetries
    ensures var r := Attempts(cfg, text, base, maxRetries, attempt);
      && 1 <= r.calls <= maxRetries - attempt
      && |r.backoffs| == r.calls - 1
      && forall i :: attempt <= i < attempt + |r.backoffs| ==>
           !AttemptOf(cfg, text, base, i).Decoded? &&
           r.backoffs[i - attempt] == BackoffAfter(AttemptOf(cfg, text, base, i))
    decreases maxRetries - attempt
  {
    var a := AttemptOf(cfg, text, base, attempt);
    if !a.Decoded? && attempt < maxRetries - 1 {
      AttemptsBounded(cfg, text, base, maxRetries, attempt + 1);
    }
  }

  /** A successful loop returns what its last call decoded, and every earlier
      call failed. */
  lemma {:induction false} SuccessIsLastCall(cfg: Config, text: string, base: nat, maxRetries: int, attempt: nat)
    requires attempt < maxRetries
    ensures var r := Attempts(cfg, text, base, maxRetries, attempt);
      r.outcome.Success? ==>
        && r.calls >= 1
        && AttemptOf(cfg, text, base, attempt + r.calls - 1) == Decoded(r.outcome.value)
        && forall i :: attempt <= i < attempt + r.calls - 1 ==> !AttemptOf(cfg, text, base, i).Decoded?
    decreases maxRetries - attempt
  {
    var a := AttemptOf(cfg, text, base, attempt);
    if !a.Decoded? && attempt < maxRetries - 1 {
      SuccessIsLastCall(cfg, text, base, maxRetries, attempt + 1);
    }
  }

  /** The first attempt that decodes is the one returned, after exactly the
      calls up to it. */
  lemma {:induction false} FirstDecodedWins(cfg: Config, text: string, base: nat, maxRetries: int, attempt: nat, k: nat)
    requires attempt <= k < maxRetries
    requires AttemptOf(cfg, text, base, k).Decoded?
    requires forall i :: attempt <= i < k ==> !AttemptOf(cfg, text, base, i).Decoded?
    ensures var r := Attempts(cfg, text, base, maxRetries, attempt);
      r.outcome == Success(AttemptOf(cfg, text, base, k).value) && r.calls == k - attempt + 1
    decreases k - attempt
  {
    if attempt < k {
      assert !AttemptOf(cfg, text, base, attempt).Decoded?;
      FirstDecodedWins(cfg, text, base, maxRetries, attempt + 1, k);
    }
  }

  /** When no attempt decodes, all `maxRetries` calls are made and the last
      failure decides the exception: the wrapped message after a decode
      failure, the exception itself otherwise. */
  lemma {:induction false} AllAttemptsFail(cfg: Config, text: string, base: nat, maxRetries: int, attempt: nat)
    requires attempt < maxRetries
    requires forall i :: attempt <= i < maxRetries ==> !AttemptOf(cfg, text, base, i).Decoded?
    ensures var r := Attempts(cfg, text, base, maxRetries, attempt);
      && r.calls == maxRetries - attempt
      && r.outcome == Failure(FinalError(AttemptOf(cfg, text, base, maxRetries - 1), maxRetries))
    decreases maxRetries - attempt
  {
    if attempt < maxRetries - 1 {
      AllAttemptsFail(cfg, text, base, maxRetries, attempt + 1);
    }
  }

  /** A loop that fails made every attempt it could, and none decoded. */
  lemma {:induction false} FailureMeansAllFailed(cfg: Config, text: string, base: nat, maxRetries: int, attempt: nat)
    requires attempt < maxRetries
    ensures Attempts(cfg, text, base, maxRetries, attempt).outcome.Failure? ==>
      forall i :: attempt <= i < maxRetries ==> !AttemptOf(cfg, text, base, i).Decoded?
    decreases maxRetries - attempt
  {
    if !AttemptOf(cfg, text, base, attempt).Decoded? && attempt < maxRetries - 1 {
      FailureMeansAllFailed(cfg, text, base, maxRetries, attempt + 1);
    }
  }

  /** The exception of a failed last attempt is never the "after all retries"
      one. */
  lemma FinalErrorIsNotGeneric(a: Attempt, maxRetries: nat)
    requires !a.Decoded? && RaisesNoPlainException(a)
    ensures FinalError(a, maxRetries) != PlainException(ALL_RETRIES_FAILED)
  {
  }

  /** A loop that may make at least one attempt never ends with the "after
      all retries" exception. */
  lemma LoopNeverEndsGeneric(cfg: Config, text: string, base: nat, maxRetries: int)
    requires maxRetries > 0
    ensures Attempts(cfg, text, base, maxRetries, 0).outcome != Failure(PlainException(ALL_RETRIES_FAILED))
  {
    if Attempts(cfg, text, base, maxRetries, 0).outcome.Failure? {
      FailureMeansAllFailed(cfg, text, base, maxRetries, 0);
      AllAttemptsFail(cfg, text, base, maxRetries, 0);
      ClassifyRaisesNoPlainException(cfg, cfg.generate(base + (maxRetries - 1), RequestFor(cfg.template, text)));
      FinalErrorIsNotGeneric(AttemptOf(cfg, text, base, maxRetries - 1), maxRetries);
    }
  }

  /** Past the early returns, parsing fails with the "after all retries"
      exception exactly when `maxRetries` allows no attempt, and then makes no
      call and no wait. */
  lemma GenericFailureIffNoAttempt(cfg: Config, s: Session, text: string, maxRetries: int)
    ensures CallModel(cfg, s, text, maxRetries).outcome == Failure(PlainException(ALL_RETRIES_FAILED))
        <==> maxRetries <= 0
    ensures maxRetries <= 0 ==> CallModel(cfg, s, text, maxRetries).after == s
  {
    if maxRetries > 0 {
      LoopNeverEndsGeneric(cfg, text, |s.sent|, maxRetries);
    } else {
      assert Repeat(RequestFor(cfg.template, text), 0) == [];
      assert s.sent + [] == s.sent && s.slept + [] == s.slept;
    }
  }

  /** How parsing changed the cache: a failure or a disabled cache leaves it
      as it was; a success with the cache on stores the result under the
      text's key and touches no other key. */
  predicate CacheDiscipline(cfg: Config, text: string, before: map<string, Json>, st: Step) {
    var key := CacheKey(cfg.digest, text);
    && (st.outcome.Failure? || !cfg.useCache ==> st.after.cache == before)
    && (st.outcome.Success? && cfg.useCache ==>
          && st.after.cache.Keys == before.Keys + {key}
          && st.after.cache[key] == st.outcome.value
          && forall k :: k in before && k != key ==> st.after.cache[k] == before[k])
  }

  /** What parsing adds to the session: copies of the request for `text`,
      one per call, and one wait of 1 or 2 seconds between each two
      consecutive calls. */
  predicate AppendsCalls(cfg: Config, text: string, s: Session, after: Session) {
    var calls := |after.sent| - |s.sent|;
    && calls >= 0
    && after.sent[..|s.sent|] == s.sent
    && (forall i :: |s.sent| <= i < |after.sent| ==> after.sent[i] == RequestFor(cfg.template, text))
    && |after.slept| == |s.slept| + (if calls == 0 then 0 else calls - 1)
    && after.slept[..|s.slept|] == s.slept
    && forall i :: |s.slept| <= i < |after.slept| ==> after.slept[i] == Backoff(1) || after.slept[i] == Backoff(2)
  }

  /** The loop writes the cache only on success. */
  lemma CallModelCache(cfg: Config, s: Session, text: string, maxRetries: int)
    ensures CacheDiscipline(cfg, text, s.cache, CallModel(cfg, s, text, maxRetries))
  {
  }

  /** The loop makes at most `maxRetries` calls, at least one when
      `maxRetries` allows one, and waits between them only. */
  lemma CallModelCalls(cfg: Config, s: Session, text: string, maxRetries: int)
    ensures var after := CallModel(cfg, s, text, maxRetries).after;
      && AppendsCalls(cfg, text, s, after)
      && |after.sent| - |s.sent| <= (if maxRetries < 0 then 0 else maxRetries)
      && (maxRetries > 0 ==> |after.sent| > |s.sent|)
  {
    var after := CallModel(cfg, s, text, maxRetries).after;
    var run := Attempts(cfg, text, |s.sent|, maxRetries, 0);
    assert after.sent == s.sent + Repeat(RequestFor(cfg.template, text), run.calls);
    assert after.slept == s.slept + run.backoffs;
    if maxRetries > 0 {
      AttemptsBounded(cfg, text, |s.sent|, maxRetries, 0);
      forall i | |s.slept| <= i < |after.slept|
        ensures after.slept[i] == Backoff(1) || after.slept[i] == Backoff(2)
      {
        var k := i - |s.slept|;
        assert after.slept[i] == run.backoffs[k];
        assert !AttemptOf(cfg, text, |s.sent|, k).Decoded?;
      }
    }
    assert after.sent[..|s.sent|] == s.sent;
    assert after.slept[..|s.slept|] == s.slept;
  }

  /** `parse_resume` as a whole keeps the cache discipline. */
  lemma ParseCache(cfg: Config, s: Session, text: string, maxRetries: int)
    ensures CacheDiscipline(cfg, text, s.cache, Parse(cfg, s, text, maxRetries))
  {
    if !IsBlank(text) && !(cfg.useCache && CacheKey(cfg.digest, text) in s.cache) {
      CallModelCache(cfg, s, text, maxRetries);
    }
  }

  /** `parse_resume` as a whole calls the model at most `maxRetries` times,
      and not at all for a blank or already cached text. */
  lemma ParseCalls(cfg: Config, s: Session, text: string, maxRetries: int)
    ensures var after := Parse(cfg, s, text, maxRetries).after;
      && AppendsCalls(cfg, text, s, after)
      && |after.sent| - |s.sent| <= (if maxRetries < 0 then 0 else maxRetries)
      && (IsBlank(text) || (cfg.useCache && CacheKey(cfg.digest, text) in s.cache) ==> after == s)
  {
    var st := Parse(cfg, s, text, maxRetries);
    if !IsBlank(text) && !(cfg.useCache && CacheKey(cfg.digest, text) in s.cache) {
      assert st == CallModel(cfg, s, text, maxRetries);
      CallModelCalls(cfg, s, text, maxRetries);
    } else {
      assert st.after == s;
      NoCalls(cfg, text, s);
    }
  }

  /** A session that is left as it was has no calls appended. */
  lemma NoCalls(cfg: Config, text: string, s: Session)
    ensures AppendsCalls(cfg, text, s, s)
  {
    assert s.sent[..|s.sent|] == s.sent;
    assert s.slept[..|s.slept|] == s.slept;
  }

  /** `parse_from_file` calls the model at most `DEFAULT_MAX_RETRIES` times
      and adds only backoffs to the waits, none when the file cannot be read. */
  lemma ParseFileCalls(cfg: Config, readers: Readers, s: Session, path: string)
    ensures var after := ParseFile(cfg, readers, s, path).after;
      && |s.sent| <= |after.sent| <= |s.sent| + DEFAULT_MAX_RETRIES
      && |s.slept| <= |after.slept|
      && after.slept[..|s.slept|] == s.slept
      && (forall i :: |s.slept| <= i < |after.slept| ==> after.slept[i].Backoff?)
      && (GetFileText(path, readers).Failure? ==> after == s)
  {
    var st := ParseFile(cfg, readers, s, path);
    match GetFileText(path, readers)
    case Failure(_) =>
      assert st.after == s;
      assert s.slept[..|s.slept|] == s.slept;
    case Success(text) =>
      assert st == Parse(cfg, s, text, DEFAULT_MAX_RETRIES);
      ParseCalls(cfg, s, text, DEFAULT_MAX_RETRIES);
  }

  /** The first attempt whose reply decodes after cleaning ends parsing with
      that value, after exactly the calls up to it. */
  lemma ParseReturnsFirstDecoded(cfg: Config, s: Session, text: string, maxRetries: int, k: nat)
    requires !IsBlank(text) && !(cfg.useCache && CacheKey(cfg.digest, text) in s.cache)
    requires k < maxRetries
    requires AttemptOf(cfg, text, |s.sent|, k).Decoded?
    requires forall i: nat :: i < k ==> !AttemptOf(cfg, text, |s.sent|, i).Decoded?
    ensures var st := Parse(cfg, s, text, maxRetries);
      && st.outcome == Success(AttemptOf(cfg, text, |s.sent|, k).value)
      && |st.after.sent| == |s.sent| + k + 1
  {
    assert Parse(cfg, s, text, maxRetries) == CallModel(cfg, s, text, maxRetries);
    FirstDecodedWins(cfg, text, |s.sent|, maxRetries, 0, k);
  }

  /** When no reply decodes, parsing makes all `maxRetries` calls and raises
      what the last attempt decides: the wrapped decode error naming
      `maxRetries`, or the last exception itself. */
  lemma ParseExhaustsRetries(cfg: Config, s: Session, text: string, maxRetries: int)
    requires !IsBlank(text) && !(cfg.useCache && CacheKey(cfg.digest, text) in s.cache)
    requires maxRetries > 0
    requires forall i: nat :: i < maxRetries ==> !AttemptOf(cfg, text, |s.sent|, i).Decoded?
    ensures var st := Parse(cfg, s, text, maxRetries);
      var last := AttemptOf(cfg, text, |s.sent|, maxRetries - 1);
      && st.outcome == Failure(FinalError(last, maxRetries))
      && (last.Malformed? ==> st.outcome == Failure(PlainException(
            "Failed to parse JSON response after " + Decimal(maxRetries) + " attempts: " + last.reason)))
      && (last.Raised? ==> st.outcome == Failure(last.error))
      && |st.after.sent| == |s.sent| + maxRetries
      && st.after.cache == s.cache
  {
    assert Parse(cfg, s, text, maxRetries) == CallModel(cfg, s, text, maxRetries);
    AllAttemptsFail(cfg, text, |s.sent|, maxRetries, 0);
  }

  /** Parsing the same text again after a success, with the cache on, is
      answered from the cache: same result, no call, no wait. */
  lemma SecondParseHitsCache(cfg: Config, s: Session, text: string, maxRetries: int, again: int)
    requires cfg.useCache
    requires Parse(cfg, s, text, maxRetries).outcome.Success?
    ensures var st := Parse(cfg, s, text, maxRetries);
      Parse(cfg, st.after, text, again) == Step(st.outcome, st.after)
  {
    ParseCache(cfg, s, text, maxRetries);
  }
}
