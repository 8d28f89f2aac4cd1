/** The library entry point of active-user-sender.ts: option defaults, the
    credential check, resolving the active audience, the `maxUsers` cap, the
    per-recipient send loop that never stops on a failure, the progress-log
    rule and the failure sample of the summary.

    Sends are an oracle from recipient id to outcome; the 200 ms pause
    between sends, the timings and the console output are not modelled. */
module ActiveUserSender {

  import opened Common
  import opened IntercomApi

  const DefaultActivityDays: int := 30
  const DefaultSenderBatchSize: int := 150
  const SenderRateLimitDelay: int := 300
  const SampleSize: nat := 5

  const MissingCredentialsText: string :=
    "Missing required environment variables: INTERCOM_TOKEN and INTERCOM_ADMIN_ID"

  // ---------------------------------------------------------------------------
  // Options

  /** `ActiveUserSenderOptions`. `None` is `undefined`; for the numeric
      fields it also stands for `NaN`, which `||` treats the same way. */
  datatype SenderOptions = SenderOptions(
    activityDays: Option<int>,
    isDryRun: Option<bool>,
    isDebug: Option<bool>,
    maxUsers: Option<int>,
    maxPages: Option<int>,
    batchSize: Option<int>)

  datatype Settings = Settings(
    activityDays: int,
    dryRun: bool,
    debug: bool,
    maxUsers: int,
    maxPages: int,
    batchSize: int)

  /** `x || d` on a number: a falsy value (absent, `NaN` or zero) gives `d`. */
  function OrDefault(x: Option<int>, d: int): (v: int)
    ensures x.Some? && x.value != 0 ==> v == x.value
    ensures x.None? || x.value == 0 ==> v == d
  {
    if x.Some? && x.value != 0 then x.value else d
  }

  /** The defaults of the sender. Zero is not an allowed window or batch
      size: it is replaced like a missing value. */
  function ResolveSettings(o: SenderOptions): (s: Settings)
    ensures s.activityDays != 0 && s.batchSize != 0
    ensures s.activityDays == OrDefault(o.activityDays, DefaultActivityDays)
    ensures s.batchSize == OrDefault(o.batchSize, DefaultSenderBatchSize)
    ensures s.maxUsers == OrDefault(o.maxUsers, 0) && s.maxPages == OrDefault(o.maxPages, 0)
    ensures s.dryRun <==> o.isDryRun == Some(true)
    ensures s.debug <==> o.isDebug == Some(true)
  {
    Settings(
      OrDefault(o.activityDays, DefaultActivityDays),
      o.isDryRun.GetOr(false),
      o.isDebug.GetOr(false),
      OrDefault(o.maxUsers, 0),
      OrDefault(o.maxPages, 0),
      OrDefault(o.batchSize, DefaultSenderBatchSize))
  }

  /** Unlike the client constructor, the sender folds an explicit zero into
      the default. */
  lemma ZeroMeansDefault()
    ensures ResolveSettings(SenderOptions(Some(0), None, None, Some(0), Some(0), Some(0)))
         == Settings(DefaultActivityDays, false, false, 0, 0, DefaultSenderBatchSize)
  {
  }

  /** The client options the sender builds: its own 300 ms delay, every other
      field passed through. */
  function ClientOptions(s: Settings): (o: Options)
    ensures o.rateLimitDelay == Some(SenderRateLimitDelay)
    ensures o.batchSize == Some(s.batchSize) && o.maxPages == Some(s.maxPages) && o.debug == Some(s.debug)
  {
    Options(Some(SenderRateLimitDelay), Some(s.batchSize), Some(s.maxPages), Some(s.debug))
  }

  // ---------------------------------------------------------------------------
  // The recipient cap

  /** `maxUsers > 0 && maxUsers < n ? users.slice(0, maxUsers) : users`. */
  function Truncate<T>(xs: seq<T>, maxUsers: int): (ys: seq<T>)
    ensures |ys| == if 0 < maxUsers < |xs| then maxUsers else |xs|
    ensures ys == xs[..|ys|]
  {
    if 0 < maxUsers < |xs| then xs[..maxUsers] else xs
  }

  /** A cap that is zero, negative or not below the list size keeps the whole
      list. */
  lemma TruncateNoLimit<T>(xs: seq<T>, maxUsers: int)
    requires maxUsers <= 0 || maxUsers >= |xs|
    ensures Truncate(xs, maxUsers) == xs
  {
  }

  // ---------------------------------------------------------------------------
  // Sending

  /** What one send did; the error is the message of what it threw. */
  datatype SendResult = Delivered | SendFailed(error: string)

  /** The outcome of sending to each recipient id. */
  type SendOracle = string -> SendResult

  /** An entry of the failure list. */
  datatype FailedUser = FailedUser(userId: string, email: Option<string>, error: string)

  function Ids(users: seq<User>): (ids: seq<string>)
    ensures |ids| == |users|
    ensures forall i | 0 <= i < |users| :: ids[i] == users[i].id
  {
    seq(|users|, i requires 0 <= i < |users| => users[i].id)
  }

  /** The failures of one pass over `users`, in order: none in a dry run,
      otherwise one entry for exactly the recipients whose send failed. */
  function FailuresOf(users: seq<User>, send: SendOracle, dryRun: bool): (fs: seq<FailedUser>)
    ensures |fs| <= |users|
    ensures dryRun ==> fs == []
    ensures forall f | f in fs ::
      exists u | u in users :: send(u.id) == SendFailed(f.error) && f == FailedUser(u.id, u.email, f.error)
    ensures !dryRun ==>
      forall u | u in users && send(u.id).SendFailed? :: FailedUser(u.id, u.email, send(u.id).error) in fs
    decreases |users|
  {
    if |users| == 0 then []
    else
      var init := users[..|users| - 1];
      var u := users[|users| - 1];
      assert forall v | v in init :: v in users;
      assert forall v | v in users :: v in init || v == u by {
        assert users == init + [u];
      }
      var fs := FailuresOf(init, send, dryRun);
      if !dryRun && send(u.id).SendFailed? then fs + [FailedUser(u.id, u.email, send(u.id).error)] else fs
  }

  lemma FailuresOfStep(users: seq<User>, i: nat, send: SendOracle, dryRun: bool)
    requires i < |users|
    ensures FailuresOf(users[..i + 1], send, dryRun) ==
      FailuresOf(users[..i], send, dryRun)
      + (if !dryRun && send(users[i].id).SendFailed?
         then [FailedUser(users[i].id, users[i].email, send(users[i].id).error)] else [])
  {
    assert users[..i + 1][..i] == users[..i];
  }

  lemma IdsStep(users: seq<User>, i: nat)
    requires i < |users|
    ensures Ids(users[..i + 1]) == Ids(users[..i]) + [users[i].id]
  {
  }

  /** The send loop. Every recipient is tried exactly once, in order, and a
      failure is recorded and passed over; in a dry run nothing is sent and
      every recipient counts as a success. `detailed` is the number of
      detailed progress lines the loop writes. */
  method SendAll(users: seq<User>, send: SendOracle, dryRun: bool)
    returns (success: nat, failed: nat, failures: seq<FailedUser>, sentTo: seq<string>, detailed: nat)
    ensures success + failed == |users|
    ensures failures == FailuresOf(users, send, dryRun) && failed == |failures|
    ensures sentTo == if dryRun then [] else Ids(users)
    ensures dryRun ==> success == |users|
    ensures detailed == DetailedCount(|users|, |users|)
  {
    success, failed, failures, sentTo, detailed := 0, 0, [], [], 0;
    var i := 0;
    while i < |users|
      invariant 0 <= i <= |users|
      invariant success + failed == i
      invariant failures == FailuresOf(users[..i], send, dryRun) && failed == |failures|
      invariant sentTo == if dryRun then [] else Ids(users[..i])
      invariant dryRun ==> success == i
      invariant detailed == DetailedCount(i, |users|)
    {
      var u := users[i];
      FailuresOfStep(users, i, send, dryRun);
      IdsStep(users, i);
      if ShowDetailedLog(i, |users|) {
        detailed := detailed + 1;
      }
      if !dryRun {
        sentTo := sentTo + [u.id];
        match send(u.id)
        case Delivered =>
          success := success + 1;
        case SendFailed(e) =>
          failed := failed + 1;
          failures := failures + [FailedUser(u.id, u.email, e)];
      } else {
        success := success + 1;
      }
      i := i + 1;
    }
    assert users[..i] == users;
  }

  // ---------------------------------------------------------------------------
  // Progress log and summary

  /** The detailed progress line is written for the first five recipients,
      every tenth one and the last one; `SendAll` counts these lines. */
  predicate ShowDetailedLog(i: nat, n: nat) {
    i < 5 || i % 10 == 0 || i == n - 1
  }

  /** Detailed lines among the first `k` of `n` recipients. */
  function DetailedCount(k: nat, n: nat): nat {
    if k == 0 then 0 else DetailedCount(k - 1, n) + (if ShowDetailedLog(k - 1, n) then 1 else 0)
  }

  /** The detailed log grows by about one line in ten: at most five for the
      head, one per multiple of ten after it and one for the last recipient. */
  lemma {:induction false} DetailedLogBound(k: nat, n: nat)
    requires k <= n
    ensures DetailedCount(k, n) <= Min(k, 5) + (if k == 0 then 0 else (k - 1) / 10) + (if k == n && n > 0 then 1 else 0)
  {
    if k > 0 {
      DetailedLogBound(k - 1, n);
    }
  }

  /** What the summary prints of the failure list: at most five entries,
      from the front, and how many more there were. */
  function FailureSample(failures: seq<FailedUser>): (r: (seq<FailedUser>, nat))
    ensures |r.0| == Min(|failures|, SampleSize)
    ensures r.0 == failures[..|r.0|]
    ensures |r.0| + r.1 == |failures|
  {
    if |failures| <= SampleSize then (failures, 0)
    else (failures[..SampleSize], |failures| - SampleSize)
  }

  // ---------------------------------------------------------------------------
  // The whole call

  /** How a call ends: the thrown credential error, the thrown listing
      error, a listing that outruns the scripted platform, or the counts it
      returns, with the failure list and the ids actually sent to. */
  datatype SenderOutcome =
    | MissingCredentials
    | ListingFailed(error: ListingError)
    | ListingUnfinished
    | Summary(total: nat, success: nat, failed: nat, failures: seq<FailedUser>, sentTo: seq<string>)

  predicate HasCredentials(env: Env) {
    EnvGet(env, "INTERCOM_TOKEN") != "" && EnvGet(env, "INTERCOM_ADMIN_ID") != ""
  }

  /** The client the sender builds from the environment and its settings. */
  function SenderClient(env: Env, s: Settings): (c: Client)
    requires HasCredentials(env)
    ensures c.rateLimitDelay == SenderRateLimitDelay && c.batchSize == s.batchSize && c.maxPages == s.maxPages
  {
    NewClient(EnvGet(env, "INTERCOM_TOKEN"), EnvGet(env, "INTERCOM_ADMIN_ID"), Some(ClientOptions(s))).value
  }

  /** `sendMessagesToActiveUsers(messageContent, options)`. */
  method SendMessagesToActiveUsers(options: SenderOptions, env: Env, nowMs: int, platform: Platform, send: SendOracle)
    returns (outcome: SenderOutcome)
    ensures outcome.MissingCredentials? <==> !HasCredentials(env)
    ensures HasCredentials(env) ==>
      var s := ResolveSettings(options);
      var listing := ListActiveUsers(SenderClient(env, s), Some(s.activityDays), nowMs, platform).listing;
      && (outcome.ListingFailed? <==> listing.Failed?)
      && (outcome.ListingUnfinished? <==> listing.Unfinished?)
      && (listing.Listed? ==>
            var recipients := Truncate(listing.users, s.maxUsers);
            && outcome.Summary?
            && outcome.total == |recipients|
            && outcome.success + outcome.failed == outcome.total
            && outcome.failures == FailuresOf(recipients, send, s.dryRun)
            && outcome.failed == |outcome.failures|
            && (s.dryRun ==> outcome.success == outcome.total && outcome.failed == 0)
            && outcome.sentTo == (if s.dryRun then [] else Ids(recipients)))
      && (listing.Failed? ==> outcome == ListingFailed(listing.error))
  {
    if !HasCredentials(env) {
      return MissingCredentials;
    }
    var s := ResolveSettings(options);
    var client := SenderClient(env, s);
    var active := ListActiveUsers(client, Some(s.activityDays), nowMs, platform);
    match active.listing
    case Failed(error, _) =>
      return ListingFailed(error);
    case Unfinished(_) =>
      return ListingUnfinished;
    case Listed(users, _) =>
      if |users| == 0 {
        return Summary(0, 0, 0, [], []);
      }
      var recipients := Truncate(users, s.maxUsers);
      var success, failed, failures, sentTo, _ := SendAll(recipients, send, s.dryRun);
      return Summary(|recipients|, success, failed, failures, sentTo);
  }
}
