/** The command-line runner of send-messages-to-active-users.ts: where each
    setting comes from (argument, environment variable or default), the page
    budget handed to the client, and the run itself, which shares the send
    loop of the library sender but differs in its defaults. */
module ActiveUsersScript {

  import opened Common
  import opened Strings
  import opened IntercomApi
  import opened ActiveUserSender

  const DefaultMessage: string := "Hello! This is an automated message from our team."
  const ScriptDefaultDays: int := 30
  const ScriptDefaultMaxPages: int := 5
  const ScriptBatchSize: int := 150

  const MaxUsersPrefix: string := "--max-users="
  const MaxPagesPrefix: string := "--max-pages="

  /** The settings of one run. `None` in a number is `NaN`: a failed
      `parseInt`. */
  datatype CliSettings = CliSettings(
    activityDays: Option<int>,
    debug: bool,
    dryRun: bool,
    maxUsers: Option<int>,
    maxPages: Option<int>,
    message: string)

  /** `args.find(arg => arg.startsWith(prefix))`. */
  function FindWithPrefix(args: seq<string>, prefix: string): (r: Option<string>)
    ensures r.None? <==> forall a | a in args :: !StartsWith(a, prefix)
    ensures r.Some? ==> exists i | 0 <= i < |args| ::
      && args[i] == r.value
      && StartsWith(args[i], prefix)
      && forall j | 0 <= j < i :: !StartsWith(args[j], prefix)
    decreases |args|
  {
    if |args| == 0 then None
    else if StartsWith(args[0], prefix) then Some(args[0])
    else
      var r := FindWithPrefix(args[1..], prefix);
      assert forall a | a in args :: a == args[0] || a in args[1..];
      assert r.Some? ==> exists i | 0 <= i < |args[1..]| ::
        && args[1..][i] == r.value
        && StartsWith(args[1..][i], prefix)
        && forall j | 0 <= j < i :: !StartsWith(args[1..][j], prefix);
      r
  }

  /** `parseInt(arg.split('=')[1], 10)`: a missing second piece is
      `undefined`, which parses to `NaN`. */
  function ValueAfterEquals(arg: string): (v: Option<int>)
    ensures |Split(arg, '=')| < 2 ==> v.None?
  {
    var parts := Split(arg, '=');
    if |parts| >= 2 then ParseInt(parts[1], Decimal) else None
  }

  /** A number variable: unset or empty keeps the fallback, anything else is
      parsed in base ten. */
  function EnvNumber(env: Env, key: string, fallback: int): (v: Option<int>)
    ensures EnvGet(env, key) == "" ==> v == Some(fallback)
    ensures EnvGet(env, key) != "" ==> v == ParseInt(env[key], Decimal)
  {
    if EnvGet(env, key) != "" then ParseInt(env[key], Decimal) else Some(fallback)
  }

  /** Reading the command line and the environment. The first argument wins
      for the window when it parses as a number (with the default radix, so a
      0x prefix is hexadecimal); `--all-pages` overrides every other page
      setting. */
  function ResolveCli(args: seq<string>, env: Env): (c: CliSettings)
    ensures "--all-pages" in args ==> c.maxPages == Some(0)
    ensures c.debug <==> "--debug" in args || EnvGet(env, "DEBUG") == "true"
    ensures c.dryRun <==> "--dry-run" in args || EnvGet(env, "DRY_RUN") == "true"
    ensures c.message != ""
    ensures EnvGet(env, "MESSAGE_CONTENT") != "" ==> c.message == env["MESSAGE_CONTENT"]
    ensures |args| > 0 && ParseInt(args[0], Auto).Some? ==> c.activityDays == ParseInt(args[0], Auto)
    ensures !(|args| > 0 && ParseInt(args[0], Auto).Some?) ==>
      c.activityDays == EnvNumber(env, "ACTIVITY_DAYS", ScriptDefaultDays)
    ensures FindWithPrefix(args, MaxUsersPrefix).Some? ==>
      c.maxUsers == ValueAfterEquals(FindWithPrefix(args, MaxUsersPrefix).value)
    ensures FindWithPrefix(args, MaxUsersPrefix).None? ==> c.maxUsers == EnvNumber(env, "MAX_USERS", 0)
    ensures "--all-pages" !in args && FindWithPrefix(args, MaxPagesPrefix).Some? ==>
      c.maxPages == ValueAfterEquals(FindWithPrefix(args, MaxPagesPrefix).value)
    ensures "--all-pages" !in args && FindWithPrefix(args, MaxPagesPrefix).None? ==>
      c.maxPages == EnvNumber(env, "MAX_PAGES", ScriptDefaultMaxPages)
    ensures EnvGet(env, "MESSAGE_CONTENT") == "" ==> c.message == DefaultMessage
  {
    var content := EnvGet(env, "MESSAGE_CONTENT");
    CliSettings(
      CliDays(args, env),
      "--debug" in args || EnvGet(env, "DEBUG") == "true",
      "--dry-run" in args || EnvGet(env, "DRY_RUN") == "true",
      CliMaxUsers(args, env),
      CliMaxPages(args, env),
      if content != "" then content else DefaultMessage)
  }

  /** The window: a first argument that parses as a number, else
      `ACTIVITY_DAYS`, else 30. */
  function CliDays(args: seq<string>, env: Env): (days: Option<int>)
    ensures |args| > 0 && ParseInt(args[0], Auto).Some? ==> days == ParseInt(args[0], Auto)
    ensures !(|args| > 0 && ParseInt(args[0], Auto).Some?) ==>
      days == EnvNumber(env, "ACTIVITY_DAYS", ScriptDefaultDays)
  {
    if |args| > 0 && ParseInt(args[0], Auto).Some? then ParseInt(args[0], Auto)
    else EnvNumber(env, "ACTIVITY_DAYS", ScriptDefaultDays)
  }

  /** The cap: `--max-users=N`, else `MAX_USERS`, else 0 (no cap). */
  function CliMaxUsers(args: seq<string>, env: Env): (maxUsers: Option<int>)
    ensures FindWithPrefix(args, MaxUsersPrefix).Some? ==>
      maxUsers == ValueAfterEquals(FindWithPrefix(args, MaxUsersPrefix).value)
    ensures FindWithPrefix(args, MaxUsersPrefix).None? ==> maxUsers == EnvNumber(env, "MAX_USERS", 0)
  {
    match FindWithPrefix(args, MaxUsersPrefix)
    case Some(arg) => ValueAfterEquals(arg)
    case None => EnvNumber(env, "MAX_USERS", 0)
  }

  /** The page budget: `--all-pages` (0, all pages) overrides everything,
      then `--max-pages=N`, then `MAX_PAGES`, then 5. */
  function CliMaxPages(args: seq<string>, env: Env): (maxPages: Option<int>)
    ensures "--all-pages" in args ==> maxPages == Some(0)
    ensures "--all-pages" !in args && FindWithPrefix(args, MaxPagesPrefix).Some? ==>
      maxPages == ValueAfterEquals(FindWithPrefix(args, MaxPagesPrefix).value)
    ensures "--all-pages" !in args && FindWithPrefix(args, MaxPagesPrefix).None? ==>
      maxPages == EnvNumber(env, "MAX_PAGES", ScriptDefaultMaxPages)
  {
    if "--all-pages" in args then Some(0)
    else match FindWithPrefix(args, MaxPagesPrefix)
      case Some(arg) => ValueAfterEquals(arg)
      case None => EnvNumber(env, "MAX_PAGES", ScriptDefaultMaxPages)
  }

  /** `--max-users=N` and `--max-pages=N` read back the number written after
      the first `=`. */
  lemma FlagValueRoundTrip(prefix: string, n: int)
    requires |prefix| >= 1 && prefix[|prefix| - 1] == '=' && '=' !in prefix[..|prefix| - 1]
    ensures ValueAfterEquals(prefix + IntToString(n)) == Some(n)
  {
    var name := prefix[..|prefix| - 1];
    assert prefix + IntToString(n) == name + ['='] + IntToString(n);
    SplitAtFirstSeparator(name, '=', IntToString(n));
    SplitWithoutSeparator(IntToString(n), '=');
    ParseIntToString(n, Decimal);
  }

  /** The window's sources in order of precedence: a numeric first argument,
      then `ACTIVITY_DAYS`, then 30. The variable and the default also apply
      when the arguments start with a flag instead of a number. */
  lemma ActivityDaysPrecedence(n: int, m: int, flag: string, rest: seq<string>, env: Env)
    requires |flag| >= 2 && flag[0] == '-' && flag[1] == '-'
    ensures ResolveCli([IntToString(n)] + rest, env).activityDays == Some(n)
    ensures ResolveCli([], env["ACTIVITY_DAYS" := IntToString(m)]).activityDays == Some(m)
    ensures ResolveCli([flag] + rest, env["ACTIVITY_DAYS" := IntToString(m)]).activityDays == Some(m)
    ensures "ACTIVITY_DAYS" !in env ==> ResolveCli([], env).activityDays == Some(ScriptDefaultDays)
    ensures "ACTIVITY_DAYS" !in env ==> ResolveCli([flag] + rest, env).activityDays == Some(ScriptDefaultDays)
  {
    ParseIntToString(n, Auto);
    ParseIntToString(m, Decimal);
    FlagIsNotANumber(flag, Auto);
    assert ([flag] + rest)[0] == flag;
  }

  /** The page budget's sources in order of precedence: `--all-pages`,
      then `--max-pages=N`, then `MAX_PAGES`, then 5. */
  lemma MaxPagesPrecedence(n: int, m: int, env: Env)
    ensures ResolveCli(["--all-pages", MaxPagesPrefix + IntToString(n)], env).maxPages == Some(0)
    ensures ResolveCli([MaxPagesPrefix + IntToString(n)], env).maxPages == Some(n)
    ensures ResolveCli([], env["MAX_PAGES" := IntToString(m)]).maxPages == Some(m)
    ensures "MAX_PAGES" !in env ==> ResolveCli([], env).maxPages == Some(ScriptDefaultMaxPages)
  {
    LoneFlagFound(MaxPagesPrefix, IntToString(n));
    FlagValueRoundTrip(MaxPagesPrefix, n);
    ParseIntToString(m, Decimal);
  }

  /** A lone argument that starts with a flag's prefix is the flag. */
  lemma LoneFlagFound(prefix: string, value: string)
    ensures FindWithPrefix([prefix + value], prefix) == Some(prefix + value)
  {
    assert (prefix + value)[..|prefix|] == prefix;
  }

  lemma MaxUsersValue(n: int)
    ensures ValueAfterEquals(MaxUsersPrefix + IntToString(n)) == Some(n)
  {
    FlagValueRoundTrip(MaxUsersPrefix, n);
  }

  /** The cap from a `--max-users=N` argument, which beats `MAX_USERS`. */
  lemma MaxUsersFromFlag(n: int, env: Env)
    ensures ResolveCli([MaxUsersPrefix + IntToString(n)], env).maxUsers == Some(n)
  {
    var arg := MaxUsersPrefix + IntToString(n);
    LoneFlagFound(MaxUsersPrefix, IntToString(n));
    MaxUsersValue(n);
  }

  /** The client's `maxPages`: a `NaN` budget makes the loop guard false from
      the start, which a negative budget models. */
  function PageBudget(maxPages: Option<int>): (b: int)
    ensures maxPages.Some? ==> b == maxPages.value
    ensures maxPages.None? ==> b < 0
  {
    match maxPages
    case Some(n) => n
    case None => -1
  }

  /** With a `NaN` budget nothing is fetched and the audience is empty. */
  lemma NaNBudgetFetchesNothing(first: Request, script: seq<Page>)
    ensures Paginate(PageBudget(None), first, script) == Listed([], [])
  {
  }

  /** How a run ends. */
  datatype ScriptOutcome =
    | ExitWithError(message: string)
    | NoActiveUsers
    | ScriptUnfinished
    | Completed(total: nat, success: nat, failed: nat, failures: seq<FailedUser>, sentTo: seq<string>)

  function ScriptClient(env: Env, c: CliSettings): (client: Client)
    requires HasCredentials(env)
    ensures client.batchSize == ScriptBatchSize && client.rateLimitDelay == SenderRateLimitDelay
    ensures client.maxPages == PageBudget(c.maxPages) && client.debug == c.debug
  {
    NewClient(EnvGet(env, "INTERCOM_TOKEN"), EnvGet(env, "INTERCOM_ADMIN_ID"),
              Some(Options(Some(SenderRateLimitDelay), Some(ScriptBatchSize), Some(PageBudget(c.maxPages)), Some(c.debug)))).value
  }

  /** One run of the script. Missing credentials and a thrown listing error
      both end in exit code 1. */
  method RunScript(args: seq<string>, env: Env, nowMs: int, platform: Platform, send: SendOracle)
    returns (outcome: ScriptOutcome)
    ensures !HasCredentials(env) ==> outcome == ExitWithError(MissingCredentialsText)
    ensures HasCredentials(env) ==>
      var c := ResolveCli(args, env);
      var listing := ListActiveUsers(ScriptClient(env, c), c.activityDays, nowMs, platform).listing;
      && (listing.Failed? <==> outcome.ExitWithError?)
      && (listing.Failed? ==> outcome == ExitWithError(ErrorMessage(listing.error)))
      && (listing.Unfinished? <==> outcome.ScriptUnfinished?)
      && (listing.Listed? && |listing.users| == 0 <==> outcome.NoActiveUsers?)
      && (listing.Listed? && |listing.users| > 0 <==> outcome.Completed?)
      && (outcome.Completed? && listing.Listed? ==>
            var recipients := Truncate(listing.users, c.maxUsers.GetOr(0));
            && outcome.total == |recipients| > 0
            && outcome.success + outcome.failed == outcome.total
            && outcome.failures == FailuresOf(recipients, send, c.dryRun)
            && outcome.failed == |outcome.failures|
            && (c.dryRun ==> outcome.success == outcome.total && outcome.failed == 0)
            && outcome.sentTo == (if c.dryRun then [] else Ids(recipients)))
  {
    if !HasCredentials(env) {
      return ExitWithError(MissingCredentialsText);
    }
    var c := ResolveCli(args, env);
    var client := ScriptClient(env, c);
    var active := ListActiveUsers(client, c.activityDays, nowMs, platform);
    match active.listing
    case Failed(error, _) =>
      return ExitWithError(ErrorMessage(error));
    case Unfinished(_) =>
      return ScriptUnfinished;
    case Listed(users, _) =>
      if |users| == 0 {
        return NoActiveUsers;
      }
      var recipients := Truncate(users, c.maxUsers.GetOr(0));
      var success, failed, failures, sentTo, _ := SendAll(recipients, send, c.dryRun);
      return Completed(|recipients|, success, failed, failures, sentTo);
  }
}
