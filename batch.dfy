/** `batch_parse_resumes`: one parser for a whole folder, one result per
    resume file, and a one-second pause between files. */
module Batch {
  import opened Basics
  import opened Keys
  import opened Prompting
  import opened Sanitizer
  import opened Extraction
  import opened Parsing
  import opened Parser

  /** One element of the result list: `{"filename", "success": True, "data"}`
      or `{"filename", "success": False, "error": str(e)}`. */
  datatype Entry =
    | Parsed(filename: string, data: Json)
    | Failed(filename: string, error: string)

  /** The result list of a batch and the parser's session after it. */
  datatype Outcome = Outcome(entries: seq<Entry>, after: Session)

  /** The result for one file, named by the file name without its folder. */
  function EntryFor(path: string, r: Result<Json, Error>): (e: Entry)
    ensures e.filename == FileName(path)
    ensures e.Parsed? <==> r.Success?
    ensures e.Parsed? ==> e.data == r.value
    ensures e.Failed? ==> e.error == r.error.message
  {
    match r
    case Success(v) => Parsed(FileName(path), v)
    case Failure(err) => Failed(FileName(path), err.message)
  }

  /** The session with the pause between two files made. */
  function Paced(s: Session): Session {
    Session(s.cache, s.sent, s.slept + [Pacing(1)])
  }

  /** How one file is parsed: its outcome and the session after it. */
  type FileParse = (Session, string) -> Step

  /** `parser.parse_from_file` for a parser with these settings. */
  function FileParser(cfg: Config, readers: Readers): FileParse {
    (s: Session, path: string) => ParseFile(cfg, readers, s, path)
  }

  /** Parsing `files` in order, each with `parse`, pausing after every file
      but the last. */
  function BatchFrom(parse: FileParse, s: Session, files: seq<string>): Outcome
    decreases |files|
  {
    if files == [] then Outcome([], s)
    else
      var st := parse(s, files[0]);
      var next := if |files| > 1 then Paced(st.after) else st.after;
      var rest := BatchFrom(parse, next, files[1..]);
      Outcome([EntryFor(files[0], st.outcome)] + rest.entries, rest.after)
  }

  /** The settings `ResumeParser(api_key)` takes: the default cache
      directory, with the cache on. */
  function DefaultConfig(digest: string -> seq<byte>, decode: string -> Result<Json, string>,
                         generate: (nat, Request) -> Reply): Config
  {
    Config(TEMPLATE, CleanJsonResponse, true, digest, decode, generate)
  }

  /** Round `k` of a batch: file `k` parsed from session `before`, giving
      `entry`, and `after` the session once the pause that follows every
      file but the last is made. */
  ghost predicate Round(parse: FileParse, files: seq<string>, k: nat,
                        before: Session, entry: Entry, after: Session)
    requires k < |files|
  {
    var st := parse(before, files[k]);
    && entry == EntryFor(files[k], st.outcome)
    && after == (if k < |files| - 1 then Paced(st.after) else st.after)
  }

  /** The first `n` rounds of a batch: `trace[k]` is the session before
      file `k`, `trace[n]` the session after round `n - 1`. */
  ghost predicate Rounds(parse: FileParse, files: seq<string>, n: nat,
                         trace: seq<Session>, results: seq<Entry>)
    requires n <= |files|
  {
    && |trace| == n + 1 && |results| == n
    && forall k :: 0 <= k < n ==> Round(parse, files, k, trace[k], results[k], trace[k + 1])
  }

  /** The model of `batch_parse_resumes` for a folder whose `*.txt`, `*.pdf`
      and `*.docx` files are given: an empty key raises before any file is
      read; otherwise every file, in that order, gets its entry, and no
      per-file exception escapes. `stored` is what the cache directory
      already holds; `trace` holds the parser's session before each file. */
  method BatchParseResumes(apiKey: string, txtFiles: seq<string>, pdfFiles: seq<string>,
                           docxFiles: seq<string>, readers: Readers,
                           digest: string -> seq<byte>, decode: string -> Result<Json, string>,
                           generate: (nat, Request) -> Reply, stored: map<string, Json>)
    returns (results: seq<Entry>, error: Option<Error>, ghost trace: seq<Session>)
    ensures apiKey == [] <==> error.Some?
    ensures apiKey == [] ==> error == Some(ValueError(API_KEY_REQUIRED)) && results == []
    ensures apiKey != [] ==>
      var files := txtFiles + pdfFiles + docxFiles;
      && Rounds(FileParser(DefaultConfig(digest, decode, generate), readers), files, |files|, trace, results)
      && trace[0] == Session(stored, [], [])
  {
    var parser;
    parser, error := ResumeParser.Create(apiKey, DEFAULT_CACHE_DIR, true, digest, decode, generate, stored);
    if parser == null {
      return [], error, [];
    }
    results, trace := ParseAll(parser, txtFiles + pdfFiles + docxFiles, readers);
  }

  /** The loop of `batch_parse_resumes`: each file parsed in turn, its
      outcome or its exception recorded, and a pause before the next. */
  method ParseAll(parser: ResumeParser, files: seq<string>, readers: Readers)
    returns (results: seq<Entry>, ghost trace: seq<Session>)
    modifies parser
    ensures Rounds(FileParser(parser.Env(), readers), files, |files|, trace, results)
    ensures trace[0] == old(parser.State()) && trace[|files|] == parser.State()
  {
    results := [];
    trace := [parser.State()];
    var i := 0;
    while i < |files|
      invariant 0 <= i <= |files|
      invariant Rounds(FileParser(parser.Env(), readers), files, i, trace, results)
      invariant trace[0] == old(parser.State()) && trace[i] == parser.State()
      decreases |files| - i
    {
      var entry := ParseNext(parser, files, i, readers);
      RoundsExtend(FileParser(parser.Env(), readers), files, i, trace, results, entry, parser.State());
      results := results + [entry];
      trace := trace + [parser.State()];
      i := i + 1;
    }
  }

  /** One more round extends the rounds made so far. */
  lemma RoundsExtend(parse: FileParse, files: seq<string>, n: nat, trace: seq<Session>, results: seq<Entry>,
                     entry: Entry, after: Session)
    requires n < |files|
    requires Rounds(parse, files, n, trace, results)
    requires Round(parse, files, n, trace[n], entry, after)
    ensures Rounds(parse, files, n + 1, trace + [after], results + [entry])
  {
    var trace', results' := trace + [after], results + [entry];
    forall k | 0 <= k < n + 1
      ensures Round(parse, files, k, trace'[k], results'[k], trace'[k + 1])
    {
      if k < n {
        assert trace'[k] == trace[k] && trace'[k + 1] == trace[k + 1] && results'[k] == results[k];
      }
    }
  }

  /** One round of the loop: parse `files[i]`, give its entry, and pause
      when another file follows. */
  method ParseNext(parser: ResumeParser, files: seq<string>, i: nat, readers: Readers) returns (entry: Entry)
    requires i < |files|
    modifies parser
    ensures Round(FileParser(parser.Env(), readers), files, i, old(parser.State()), entry, parser.State())
  {
    var r := parser.ParseFromFile(files[i], readers);
    entry := EntryFor(files[i], r);
    if i < |files| - 1 {
      parser.slept := parser.slept + [Pacing(1)];
    }
  }

  /** The rounds of a batch are the batch: from round `j` on they give the
      entries and the final session of the batch over the files left. */
  lemma {:induction false} RoundsAreBatch(parse: FileParse, files: seq<string>,
                                          trace: seq<Session>, results: seq<Entry>, j: nat)
    requires Rounds(parse, files, |files|, trace, results)
    requires j <= |files|
    ensures BatchFrom(parse, trace[j], files[j..]) == Outcome(results[j..], trace[|files|])
    decreases |files| - j
  {
    if j < |files| {
      RoundsAreBatch(parse, files, trace, results, j + 1);
      assert Round(parse, files, j, trace[j], results[j], trace[j + 1]);
      assert files[j..][1..] == files[j + 1..];
      assert results[j..] == [results[j]] + results[j + 1..];
    }
  }

  /** The entries and the final session of `batch_parse_resumes` are those
      of the batch over its files. */
  lemma BatchResults(parse: FileParse, files: seq<string>, trace: seq<Session>, results: seq<Entry>)
    requires Rounds(parse, files, |files|, trace, results)
    ensures BatchFrom(parse, trace[0], files) == Outcome(results, trace[|files|])
  {
    RoundsAreBatch(parse, files, trace, results, 0);
    assert files[0..] == files && results[0..] == results;
  }

  /** One entry per file, in the order of the files, each named by its
      file's name. */
  lemma {:induction false} OneEntryPerFile(parse: FileParse, s: Session, files: seq<string>)
    ensures var b := BatchFrom(parse, s, files);
      && |b.entries| == |files|
      && forall k :: 0 <= k < |files| ==> b.entries[k].filename == FileName(files[k])
    decreases |files|
  {
    if files != [] {
      var st := parse(s, files[0]);
      var next := if |files| > 1 then Paced(st.after) else st.after;
      OneEntryPerFile(parse, next, files[1..]);
    }
  }

  /** The text files' entries come first, then the PDF files', then the
      DOCX files'. */
  lemma GroupedByExtension(parse: FileParse, s: Session,
                           txtFiles: seq<string>, pdfFiles: seq<string>, docxFiles: seq<string>)
    ensures var files := txtFiles + pdfFiles + docxFiles;
      var b := BatchFrom(parse, s, files);
      && |b.entries| == |files|
      && (forall k :: 0 <= k < |txtFiles| ==> b.entries[k].filename == FileName(txtFiles[k]))
      && (forall k :: 0 <= k < |pdfFiles| ==>
            b.entries[|txtFiles| + k].filename == FileName(pdfFiles[k]))
      && (forall k :: 0 <= k < |docxFiles| ==>
            b.entries[|txtFiles| + |pdfFiles| + k].filename == FileName(docxFiles[k]))
  {
    var files := txtFiles + pdfFiles + docxFiles;
    OneEntryPerFile(parse, s, files);
    forall k | 0 <= k < |pdfFiles|
      ensures files[|txtFiles| + k] == pdfFiles[k]
    {
    }
    forall k | 0 <= k < |docxFiles|
      ensures files[|txtFiles| + |pdfFiles| + k] == docxFiles[k]
    {
    }
  }

  /** The number of pauses between files in a log of waits. */
  function Pauses(log: seq<Sleep>): nat {
    if log == [] then 0
    else (if log[|log| - 1].Pacing? then 1 else 0) + Pauses(log[..|log| - 1])
  }

  lemma {:induction false} PausesAppend(a: seq<Sleep>, b: seq<Sleep>)
    ensures Pauses(a + b) == Pauses(a) + Pauses(b)
    decreases |b|
  {
    if b == [] {
      assert a + b == a;
    } else {
      assert (a + b)[..|a + b| - 1] == a + b[..|b| - 1];
      PausesAppend(a, b[..|b| - 1]);
    }
  }

  lemma {:induction false} NoPausesAmongBackoffs(log: seq<Sleep>)
    requires forall k :: 0 <= k < |log| ==> log[k].Backoff?
    ensures Pauses(log) == 0
    decreases |log|
  {
    if log != [] {
      NoPausesAmongBackoffs(log[..|log| - 1]);
    }
  }

  /** What parsing one file may add to the session: at most
      `DEFAULT_MAX_RETRIES` calls, and backoffs only. */
  predicate AddsBackoffsOnly(s: Session, after: Session) {
    && |s.sent| <= |after.sent| <= |s.sent| + DEFAULT_MAX_RETRIES
    && |s.slept| <= |after.slept|
    && after.slept[..|s.slept|] == s.slept
    && forall i :: |s.slept| <= i < |after.slept| ==> after.slept[i].Backoff?
  }

  /** Adding backoffs only adds no pause. */
  lemma BackoffsKeepPauses(s: Session, after: Session)
    requires AddsBackoffsOnly(s, after)
    ensures Pauses(after.slept) == Pauses(s.slept)
  {
    var added := after.slept[|s.slept|..];
    assert after.slept == s.slept + added;
    PausesAppend(s.slept, added);
    NoPausesAmongBackoffs(added);
  }

  /** A batch of `n` files, each parsed adding backoffs only, pauses `n - 1`
      times and calls the model at most `DEFAULT_MAX_RETRIES` times per file. */
  lemma {:induction false} PausesBetweenFiles(parse: FileParse, s: Session, files: seq<string>)
    requires files != []
    requires forall t, p :: AddsBackoffsOnly(t, parse(t, p).after)
    ensures var after := BatchFrom(parse, s, files).after;
      && Pauses(after.slept) == Pauses(s.slept) + |files| - 1
      && |s.sent| <= |after.sent| <= |s.sent| + DEFAULT_MAX_RETRIES * |files|
    decreases |files|
  {
    var st := parse(s, files[0]);
    BackoffsKeepPauses(s, st.after);
    if |files| > 1 {
      PausesAppend(st.after.slept, [Pacing(1)]);
      PausesBetweenFiles(parse, Paced(st.after), files[1..]);
    }
  }

  /** `parse_from_file` adds backoffs only. */
  lemma FileParserAddsBackoffsOnly(cfg: Config, readers: Readers)
    ensures forall t, p :: AddsBackoffsOnly(t, FileParser(cfg, readers)(t, p).after)
  {
    forall t, p
      ensures AddsBackoffsOnly(t, FileParser(cfg, readers)(t, p).after)
    {
      ParseFileCalls(cfg, readers, t, p);
    }
  }

  /** The batch of `batch_parse_resumes` pauses exactly `n - 1` times for
      `n` files, as one pause between each two files and none after the last
      needs, and calls the model at most `DEFAULT_MAX_RETRIES` times per file. */
  lemma BatchPauses(cfg: Config, readers: Readers, s: Session, files: seq<string>)
    requires files != []
    ensures var after := BatchFrom(FileParser(cfg, readers), s, files).after;
      && Pauses(after.slept) == Pauses(s.slept) + |files| - 1
      && |s.sent| <= |after.sent| <= |s.sent| + DEFAULT_MAX_RETRIES * |files|
  {
    FileParserAddsBackoffsOnly(cfg, readers);
    PausesBetweenFiles(FileParser(cfg, readers), s, files);
  }

  /** A file whose reader fails, or whose suffix is not supported, is
      recorded as failed with the exception's message, makes no model call
      and no wait, and the files after it are still parsed. */
  lemma UnreadableFileIsRecorded(cfg: Config, readers: Readers, s: Session, files: seq<string>, err: Error)
    requires files != [] && GetFileText(files[0], readers) == Failure(err)
    ensures var b := BatchFrom(FileParser(cfg, readers), s, files);
      var next := if |files| > 1 then Paced(s) else s;
      && b.entries[0] == Failed(FileName(files[0]), err.message)
      && b == Outcome([b.entries[0]] + BatchFrom(FileParser(cfg, readers), next, files[1..]).entries,
                      BatchFrom(FileParser(cfg, readers), next, files[1..]).after)
  {
  }

  /** A file named just ".txt" has no suffix and is recorded as
      "Unsupported file format: " with nothing after it. */
  lemma DotFileRecordedUnsupported(cfg: Config, readers: Readers, s: Session, dir: string, files: seq<string>)
    requires IsDirectory(dir)
    requires files != [] && files[0] == dir + ".txt"
    ensures BatchFrom(FileParser(cfg, readers), s, files).entries[0] == Failed(".txt", UNSUPPORTED)
  {
    DotFileUnsupported(dir, ".txt", readers);
    UnreadableFileIsRecorded(cfg, readers, s, files, ValueError(UNSUPPORTED));
    FileNameAfterDirectory(dir, ".txt");
  }
}
