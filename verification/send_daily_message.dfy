/** The daily broadcaster of sendDailyMessage.ts: environment checks, the
    wait for the rendered image, the message body, and sending to every
    contact in chunks of 25 through the bounded pool of five concurrent
    sends.

    The file system is an oracle giving the image's size at each poll; the
    order in which the sends of a chunk settle is an oracle too. */
module DailyMessage {

  import opened Common
  import opened Strings
  import opened Batching
  import opened IntercomApi
  import opened ActiveUserSender
  import opened WorkerPool

  const UserChunkSize: nat := 25
  const MaxConcurrentSends: int := 5
  const MaxWaitMs: nat := 30000
  const PollIntervalMs: nat := 1000
  /** Polls that fit in the wait budget, one per second. */
  const MaxPolls: nat := MaxWaitMs / PollIntervalMs

  const TokenMissing: string := "INTERCOM_TOKEN environment variable is required"
  const AdminIdMissing: string := "INTERCOM_ADMIN_ID environment variable is required"
  const ImageTimedOut: string := "Image generation failed or timed out"

  const Placeholder: string :=
    "<p>(Please configure IMAGE_URL environment variable to show the daily image)</p>"

  // ---------------------------------------------------------------------------
  // Waiting for the image

  predicate ImageAppears(sizeAt: nat -> nat) {
    exists k | 0 <= k < MaxPolls :: sizeAt(k) > 0
  }

  /** `waitForImageGeneration()`: poll once a second for a non-empty file,
      for at most thirty seconds. `sizeAt(k)` is the file's size at poll `k`
      (zero when missing). */
  method WaitForImage(sizeAt: nat -> nat) returns (ready: bool, polls: nat)
    ensures ready <==> ImageAppears(sizeAt)
    ensures ready ==> 1 <= polls <= MaxPolls && sizeAt(polls - 1) > 0
    ensures ready ==> forall k | 0 <= k < polls - 1 :: sizeAt(k) == 0
    ensures !ready ==> polls == MaxPolls
  {
    polls := 0;
    while polls < MaxPolls
      invariant polls <= MaxPolls
      invariant forall k | 0 <= k < polls :: sizeAt(k) == 0
    {
      if sizeAt(polls) > 0 {
        return true, polls + 1;
      }
      polls := polls + 1;
    }
    return false, polls;
  }

  // ---------------------------------------------------------------------------
  // The message

  /** The image block: an `<img>` on `IMAGE_URL` when it is set, a
      placeholder paragraph otherwise. */
  function ImageHtml(imageUrl: string): (h: string)
    ensures imageUrl == "" ==> h == Placeholder
    ensures imageUrl != "" ==> StartsWith(h, "<img src=\"" + imageUrl + "\"")
  {
    if imageUrl != "" then
      var head := "<img src=\"" + imageUrl + "\"";
      var html := head + " alt=\"Trending Tokens Today\" style=\"width: 100%; max-width: 500px;\" />";
      assert html[..|head|] == head;
      html
    else Placeholder
  }

  const MessageHead: string := "\n    <h2>Your Daily Token Update</h2>\n    <p>Here are the trending tokens for "
  const MessageMiddle: string := ":</p>\n    "
  const MessageTail: string := "\n    <p>Track these tokens and more on our platform daily!</p>\n  "

  /** `getMessageContent()`, with the formatted date as a parameter. */
  function MessageContent(date: string, imageUrl: string): string {
    MessageHead + date + MessageMiddle + ImageHtml(imageUrl) + MessageTail
  }

  /** The body shows the date and either the image or the placeholder. */
  lemma MessageShowsImage(date: string, imageUrl: string)
    ensures Contains(MessageContent(date, imageUrl), date)
    ensures Contains(MessageContent(date, imageUrl), ImageHtml(imageUrl))
    ensures imageUrl == "" ==> Contains(MessageContent(date, imageUrl), Placeholder)
    ensures imageUrl != "" ==> Contains(MessageContent(date, imageUrl), "<img src=\"" + imageUrl + "\"")
  {
    var prefix := MessageHead + date + MessageMiddle;
    MessageShowsDate(date, imageUrl);
    ContainsMiddle(prefix, ImageHtml(imageUrl), MessageTail);
    if imageUrl != "" {
      ContainsMiddleStart(prefix, ImageHtml(imageUrl), MessageTail, "<img src=\"" + imageUrl + "\"");
    }
  }

  lemma MessageShowsDate(date: string, imageUrl: string)
    ensures Contains(MessageContent(date, imageUrl), date)
  {
    ContainsSecondOfFive(MessageHead, date, MessageMiddle, ImageHtml(imageUrl), MessageTail);
  }

  // ---------------------------------------------------------------------------
  // Sending

  /** Which recipients' sends succeed. */
  function Flags(users: seq<User>, send: SendOracle): (oks: seq<bool>)
    ensures |oks| == |users|
    ensures forall i | 0 <= i < |users| :: oks[i] == send(users[i].id).Delivered?
  {
    seq(|users|, i requires 0 <= i < |users| => send(users[i].id).Delivered?)
  }

  lemma FlagsAppend(a: seq<User>, b: seq<User>, send: SendOracle)
    ensures Flags(a + b, send) == Flags(a, send) + Flags(b, send)
  {
  }

  /** `processBatch(chunk, intercom, message, 5)` with the settle order
      `choices`. Given one settle event per recipient, the batch resolves
      with its true counts; an empty batch never resolves. */
  function ProcessBatch(chunk: seq<User>, send: SendOracle, choices: seq<nat>): (t: Option<Tally>)
    ensures |chunk| >= 1 && |choices| >= |chunk| ==>
      t == Some(Tally(CountTrue(Flags(chunk, send)), CountFalse(Flags(chunk, send))))
    ensures |chunk| == 0 ==> t.None?
  {
    var oks := Flags(chunk, send);
    StartInv(|chunk|, MaxConcurrentSends, oks);
    var p := Run(Start(|chunk|, MaxConcurrentSends), oks, choices);
    if |chunk| >= 1 && |choices| >= |chunk| then
      PoolDrains(|chunk|, MaxConcurrentSends, oks, choices);
      p.resolved
    else if |chunk| == 0 then
      NeverResolvesWithoutWork(|chunk|, MaxConcurrentSends, oks, choices);
      p.resolved
    else p.resolved
  }

  /** How a run ends. */
  datatype DailyOutcome =
    | Fatal(message: string)
    | DailyUnfinished
    | Finished(successes: nat, errors: nat, total: nat, chunks: nat, pauses: nat)

  /** The client this script builds: no options, so every default applies
      and every page is fetched. */
  function DailyClient(env: Env): (c: Client)
    requires HasCredentials(env)
    ensures c.maxPages == 0 && c.batchSize == DefaultBatchSize
  {
    NewClient(EnvGet(env, "INTERCOM_TOKEN"), EnvGet(env, "INTERCOM_ADMIN_ID"), None).value
  }

  /** One chunk through the worker pool, awaited to its totals. */
  method SendChunk(chunk: seq<User>, send: SendOracle, choices: seq<nat>) returns (successes: nat, errors: nat)
    requires |chunk| >= 1 && |choices| >= |chunk|
    ensures successes == CountTrue(Flags(chunk, send))
    ensures errors == CountFalse(Flags(chunk, send))
  {
    var t := ProcessBatch(chunk, send, choices);
    successes, errors := t.value.successes, t.value.errors;
  }

  /** The chunk loop: every chunk goes through the pool in turn, with a
      pause after each chunk but the last. `pick(i, j)` orders the settling
      of chunk `i`. */
  method SendChunks(users: seq<User>, send: SendOracle, pick: (nat, nat) -> nat)
    returns (successes: nat, errors: nat, pauses: nat)
    ensures successes == CountTrue(Flags(users, send))
    ensures errors == CountFalse(Flags(users, send))
    ensures pauses == if |users| == 0 then 0 else |Chunks(users, UserChunkSize)| - 1
  {
    var chunks := Chunks(users, UserChunkSize);
    successes, errors, pauses := 0, 0, 0;
    var i := 0;
    while i < |chunks|
      invariant 0 <= i <= |chunks|
      invariant successes == CountTrue(Flags(Concat(chunks[..i]), send))
      invariant errors == CountFalse(Flags(Concat(chunks[..i]), send))
      invariant pauses == if i == 0 then 0 else Min(i, |chunks| - 1)
    {
      var chunk := chunks[i];
      var choices := seq(|chunk|, j requires 0 <= j < |chunk| => pick(i, j));
      var s, e := SendChunk(chunk, send, choices);
      successes := successes + s;
      errors := errors + e;
      if i < |chunks| - 1 {
        pauses := pauses + 1;
      }
      ChunkStep(chunks, i, send);
      i := i + 1;
    }
    assert chunks[..i] == chunks;
  }

  lemma ChunkStep(chunks: seq<seq<User>>, i: nat, send: SendOracle)
    requires i < |chunks|
    ensures CountTrue(Flags(Concat(chunks[..i + 1]), send))
         == CountTrue(Flags(Concat(chunks[..i]), send)) + CountTrue(Flags(chunks[i], send))
    ensures CountFalse(Flags(Concat(chunks[..i + 1]), send))
         == CountFalse(Flags(Concat(chunks[..i]), send)) + CountFalse(Flags(chunks[i], send))
  {
    assert chunks[..i + 1] == chunks[..i] + [chunks[i]];
    ConcatAppend(chunks[..i], [chunks[i]]);
    assert [chunks[i]][1..] == [];
    assert Concat([chunks[i]]) == chunks[i] + Concat([chunks[i]][1..]) == chunks[i];
    assert Concat(chunks[..i + 1]) == Concat(chunks[..i]) + chunks[i];
    FlagsAppend(Concat(chunks[..i]), chunks[i], send);
    CountTrueAppend(Flags(Concat(chunks[..i]), send), Flags(chunks[i], send));
  }

  /** `sendDailyMessages()`. Every contact is attempted once, chunk by
      chunk, with a pause between consecutive chunks; the totals are the
      true counts of successful and failed sends. */
  method SendDailyMessages(env: Env, sizeAt: nat -> nat, contactPages: seq<Page>, send: SendOracle, pick: (nat, nat) -> nat)
    returns (outcome: DailyOutcome)
    ensures EnvGet(env, "INTERCOM_TOKEN") == "" ==> outcome == Fatal(TokenMissing)
    ensures EnvGet(env, "INTERCOM_TOKEN") != "" && EnvGet(env, "INTERCOM_ADMIN_ID") == "" ==>
      outcome == Fatal(AdminIdMissing)
    ensures HasCredentials(env) && !ImageAppears(sizeAt) ==> outcome == Fatal(ImageTimedOut)
    ensures HasCredentials(env) && ImageAppears(sizeAt) ==>
      var listing := ListAllUsers(DailyClient(env), contactPages);
      && (listing.Failed? ==> outcome == Fatal(ErrorMessage(listing.error)))
      && (listing.Unfinished? ==> outcome == DailyUnfinished)
      && (listing.Listed? ==>
            var oks := Flags(listing.users, send);
            outcome == Finished(CountTrue(oks), CountFalse(oks), |listing.users|,
                                |Chunks(listing.users, UserChunkSize)|,
                                if |listing.users| == 0 then 0 else |Chunks(listing.users, UserChunkSize)| - 1))
  {
    if EnvGet(env, "INTERCOM_TOKEN") == "" {
      return Fatal(TokenMissing);
    }
    if EnvGet(env, "INTERCOM_ADMIN_ID") == "" {
      return Fatal(AdminIdMissing);
    }
    var client := DailyClient(env);
    var ready, _ := WaitForImage(sizeAt);
    if !ready {
      return Fatal(ImageTimedOut);
    }
    var listing := ListAllUsers(client, contactPages);
    match listing
    case Failed(error, _) =>
      return Fatal(ErrorMessage(error));
    case Unfinished(_) =>
      return DailyUnfinished;
    case Listed(users, _) =>
      var successes, errors, pauses := SendChunks(users, send, pick);
      return Finished(successes, errors, |users|, |Chunks(users, UserChunkSize)|, pauses);
  }

  /** Every contact counts exactly once: successes and errors add up to the
      number of users listed. */
  lemma TotalsAddUp(users: seq<User>, send: SendOracle)
    ensures CountTrue(Flags(users, send)) + CountFalse(Flags(users, send)) == |users|
  {
    CountSplit(Flags(users, send));
  }
}
