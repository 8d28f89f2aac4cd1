/** The end-to-end daily job of dailyRunner.ts: render the image, upload it
    (falling back to a fixed URL), then send a message embedding the image to
    every contact, in chunks of 25, each chunk in fixed groups of five sent
    together and awaited with `Promise.allSettled`. */
module DailyRunner {

  import opened Common
  import opened Strings
  import opened Batching
  import opened IntercomApi
  import opened ActiveUserSender
  import opened DailyMessage
  import opened ImgbbUploader

  const MaxConcurrent: nat := 5

  /** The runner's own copy of the fallback image, used when the upload
      throws. */
  const RunnerFallbackImageUrl: string :=
    "https://cdn.pixabay.com/photo/2021/05/24/09/15/ethereum-6278326_960_720.png"

  const OutputMissing: string := "Image generation failed: output file not found"

  // ---------------------------------------------------------------------------
  // The message

  const RunnerHead: string :=
    "\n    <h2 style=\"color:#333; font-size:18px; margin-bottom:10px;\">Your Daily Trending Tokens Update</h2>\n    <p style=\"margin-bottom:15px;\">Here are the trending tokens for "
  const RunnerFigureOpen: string :=
    ":</p>\n    <div style=\"text-align:center; margin:15px 0;\">\n      "
  const ImgOpen: string := "<img src=\""
  const RunnerTail: string :=
    " alt=\"Trending Tokens Today\" style=\"max-width:100%; width:300px; border-radius:8px; border:1px solid #eee;\" />\n    </div>\n    <p style=\"margin-top:15px;\">Track these tokens and more on our platform daily!</p>\n  "

  /** The image tag's opening on `imageUrl`, up to the closing quote of its
      `src`. */
  function ImgTag(imageUrl: string): string {
    ImgOpen + imageUrl + "\""
  }

  /** `getMessageContent(imageUrl)`, with the formatted date as a parameter. */
  function RunnerMessage(date: string, imageUrl: string): string {
    RunnerHead + date + RunnerFigureOpen + ImgTag(imageUrl) + RunnerTail
  }

  /** Unlike the daily broadcaster's body, this one always carries an image
      tag, on exactly the URL it was given. */
  lemma RunnerMessageEmbedsImage(date: string, imageUrl: string)
    ensures Contains(RunnerMessage(date, imageUrl), date)
    ensures Contains(RunnerMessage(date, imageUrl), ImgTag(imageUrl))
  {
    var prefix := RunnerHead + date + RunnerFigureOpen;
    ContainsMiddle(RunnerHead, date, RunnerFigureOpen);
    ContainsExtend(prefix, date, ImgTag(imageUrl));
    ContainsExtend(prefix + ImgTag(imageUrl), date, RunnerTail);
    ContainsMiddle(prefix, ImgTag(imageUrl), RunnerTail);
  }

  // ---------------------------------------------------------------------------
  // Sending

  /** `Promise.allSettled` over one group, then its `forEach`: one success
      per fulfilled send and one error per rejected one. */
  method SettleAll(group: seq<User>, send: SendOracle) returns (successes: nat, errors: nat)
    ensures successes == CountTrue(Flags(group, send))
    ensures errors == CountFalse(Flags(group, send))
  {
    var results := Flags(group, send);
    successes, errors := 0, 0;
    var i := 0;
    while i < |results|
      invariant 0 <= i <= |results|
      invariant successes == CountTrue(results[..i])
      invariant errors == CountFalse(results[..i])
    {
      assert results[..i + 1] == results[..i] + [results[i]];
      CountTrueAppend(results[..i], [results[i]]);
      if results[i] {
        successes := successes + 1;
      } else {
        errors := errors + 1;
      }
      i := i + 1;
    }
    assert results[..i] == results;
  }

  /** The runner's `processBatch(users, intercom, message, maxConcurrent)`:
      groups of `maxConcurrent` (the slices at offsets `0, maxConcurrent,
      ...`), each settled in full before the next, with a pause after every
      group but the last. */
  method ProcessGroups(users: seq<User>, send: SendOracle, maxConcurrent: nat)
    returns (successes: nat, errors: nat, pauses: nat)
    requires maxConcurrent >= 1
    ensures successes == CountTrue(Flags(users, send))
    ensures errors == CountFalse(Flags(users, send))
    ensures pauses == if |users| == 0 then 0 else |Chunks(users, maxConcurrent)| - 1
  {
    var groups := Chunks(users, maxConcurrent);
    successes, errors, pauses := 0, 0, 0;
    var i := 0;
    while i < |groups|
      invariant 0 <= i <= |groups|
      invariant successes == CountTrue(Flags(Concat(groups[..i]), send))
      invariant errors == CountFalse(Flags(Concat(groups[..i]), send))
      invariant pauses == if i == 0 then 0 else Min(i, |groups| - 1)
    {
      var s, e := SettleAll(groups[i], send);
      successes := successes + s;
      errors := errors + e;
      if i < |groups| - 1 {
        pauses := pauses + 1;
      }
      ChunkStep(groups, i, send);
      i := i + 1;
    }
    assert groups[..i] == groups;
  }

  /** `sendMessagesToUsers(imageUrl)`: its totals, and the one-second
      pauses it takes between consecutive chunks. */
  method SendToAll(users: seq<User>, send: SendOracle) returns (successes: nat, errors: nat, chunkPauses: nat)
    ensures successes == CountTrue(Flags(users, send))
    ensures errors == CountFalse(Flags(users, send))
    ensures chunkPauses == if |users| == 0 then 0 else |Chunks(users, UserChunkSize)| - 1
  {
    var chunks := Chunks(users, UserChunkSize);
    successes, errors, chunkPauses := 0, 0, 0;
    var i := 0;
    while i < |chunks|
      invariant 0 <= i <= |chunks|
      invariant successes == CountTrue(Flags(Concat(chunks[..i]), send))
      invariant errors == CountFalse(Flags(Concat(chunks[..i]), send))
      invariant chunkPauses == if i == 0 then 0 else Min(i, |chunks| - 1)
    {
      var s, e, _ := ProcessGroups(chunks[i], send, MaxConcurrent);
      successes := successes + s;
      errors := errors + e;
      if i < |chunks| - 1 {
        chunkPauses := chunkPauses + 1;
      }
      ChunkStep(chunks, i, send);
      i := i + 1;
    }
    assert chunks[..i] == chunks;
  }

  // ---------------------------------------------------------------------------
  // The whole job

  /** `generateImage()`: the render script ran, or threw, or left no file. */
  datatype Generation = Generated | ScriptFailed(error: string) | NoOutput

  /** How the job ends: exit code 1 with the error caught at the top, a
      listing that outruns the scripted platform, or the totals. */
  datatype RunnerOutcome =
    | ExitFailure(error: string)
    | RunnerUnfinished
    | Completed(imageUrl: string, message: string, successes: nat, errors: nat, total: nat)

  /** `runDailyProcess()`. The image is rendered and uploaded before the
      credentials are looked at; the message embeds whatever URL the
      uploader resolved to. */
  method RunDailyProcess(
    generation: Generation, apiKey: string, fileExists: bool, reply: UploadReply,
    date: string, env: Env, contactPages: seq<Page>, send: SendOracle)
    returns (outcome: RunnerOutcome)
    ensures generation.ScriptFailed? ==> outcome == ExitFailure(generation.error)
    ensures generation.NoOutput? ==> outcome == ExitFailure(OutputMissing)
    ensures generation.Generated? && EnvGet(env, "INTERCOM_TOKEN") == "" ==> outcome == ExitFailure(TokenMissing)
    ensures generation.Generated? && EnvGet(env, "INTERCOM_TOKEN") != "" && EnvGet(env, "INTERCOM_ADMIN_ID") == "" ==>
      outcome == ExitFailure(AdminIdMissing)
    ensures generation.Generated? && HasCredentials(env) ==>
      var listing := ListAllUsers(DailyClient(env), contactPages);
      && (listing.Failed? ==> outcome == ExitFailure(ErrorMessage(listing.error)))
      && (listing.Unfinished? ==> outcome == RunnerUnfinished)
      && (listing.Listed? ==>
            var url := ResultUrl(Upload(apiKey, fileExists, reply));
            var oks := Flags(listing.users, send);
            outcome == Completed(url, RunnerMessage(date, url), CountTrue(oks), CountFalse(oks), |listing.users|))
  {
    match generation
    case ScriptFailed(error) =>
      return ExitFailure(error);
    case NoOutput =>
      return ExitFailure(OutputMissing);
    case Generated =>
    var imageUrl := ResultUrl(Upload(apiKey, fileExists, reply));
    if EnvGet(env, "INTERCOM_TOKEN") == "" {
      return ExitFailure(TokenMissing);
    }
    if EnvGet(env, "INTERCOM_ADMIN_ID") == "" {
      return ExitFailure(AdminIdMissing);
    }
    var message := RunnerMessage(date, imageUrl);
    var listing := ListAllUsers(DailyClient(env), contactPages);
    match listing
    case Failed(error, _) =>
      return ExitFailure(ErrorMessage(error));
    case Unfinished(_) =>
      return RunnerUnfinished;
    case Listed(users, _) =>
      var successes, errors, _ := SendToAll(users, send);
      return Completed(imageUrl, message, successes, errors, |users|);
  }

  /** The runner's `catch` around the upload is never taken: the uploader
      resolves on every path. Had it been, its fallback is the uploader's
      own, so every message carries a non-empty image URL either way. */
  lemma RunnerImageAlwaysSet(apiKey: string, fileExists: bool, reply: UploadReply, date: string)
    ensures RunnerFallbackImageUrl == FallbackImageUrl
    ensures var url := ResultUrl(Upload(apiKey, fileExists, reply));
      url != "" && Contains(RunnerMessage(date, url), ImgTag(url))
  {
    RunnerMessageEmbedsImage(date, ResultUrl(Upload(apiKey, fileExists, reply)));
  }
}
