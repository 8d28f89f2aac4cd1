/** The service of index.ts: which test recipients a test run addresses,
    the test run's send loop, when the last run is recorded, and when the
    next run is due.

    The clock is a parameter. The step that renders the image, uploads it
    and builds the test message is an input: as index.ts is written, the
    functions it imports for that step are not exported by dailyRunner.ts,
    so the step fails (see `WiringFailure`). */
module Scheduler {

  import opened Common
  import opened Strings
  import opened IntercomApi
  import opened ActiveUserSender

  const DayMs: int := 86400000
  const TestIntervalMs: int := 60000

  // ---------------------------------------------------------------------------
  // Test recipients

  /** `parts.map(id => id.trim())`. */
  function TrimAll(parts: seq<string>): (ts: seq<string>)
    ensures |ts| == |parts|
    ensures forall i | 0 <= i < |parts| :: ts[i] == Trim(parts[i])
  {
    seq(|parts|, i requires 0 <= i < |parts| => Trim(parts[i]))
  }

  /** `TEST_USER_IDS.split(',').map(trim).filter(id => id.length > 0)`:
      every id is non-empty, trimmed and free of commas. */
  function ParseTestUserIds(text: string): (ids: seq<string>)
    ensures forall id | id in ids :: id != "" && Trimmed(id) && ',' !in id
  {
    var parts := Split(text, ',');
    var trimmed := TrimAll(parts);
    forall id | id in trimmed
      ensures Trimmed(id) && ',' !in id
    {
      var i :| 0 <= i < |trimmed| && trimmed[i] == id;
      TrimFacts(parts[i]);
      assert parts[i] in parts;
    }
    Filter(trimmed, id => |id| > 0)
  }

  /** Writing ids that are non-empty, trimmed and free of commas as a
      comma-separated list reads them back, in order. */
  lemma ParseJoinRoundTrip(ids: seq<string>)
    requires forall id | id in ids :: id != "" && Trimmed(id) && ',' !in id
    ensures ParseTestUserIds(Join(ids, ',')) == ids
  {
    var parts := Split(Join(ids, ','), ',');
    if |ids| == 0 {
      assert parts == [""];
      assert TrimAll(parts) == [""];
      assert Filter([""], (id: string) => |id| > 0) == [] + Filter([""][1..], (id: string) => |id| > 0);
    } else {
      SplitJoin(ids, ',');
      forall i | 0 <= i < |ids|
        ensures Trim(ids[i]) == ids[i]
      {
        assert ids[i] in ids;
        TrimFacts(ids[i]);
      }
      assert TrimAll(parts) == ids;
      FilterKeepsAll(ids, (id: string) => |id| > 0);
    }
  }

  // ---------------------------------------------------------------------------
  // The test run

  /** How a test run ends: returning early for want of recipients, throwing
      (from the preparation step or the client's constructor), or having
      attempted every recipient. */
  datatype TestOutcome =
    | NoIdsVariable
    | NoValidIds
    | TestFailed(error: string)
    | TestSent(attempted: seq<string>, successes: nat)

  /** Whether the run returned without throwing. */
  predicate Completed(o: TestOutcome) {
    !o.TestFailed?
  }

  /** The error the preparation step throws as written: the dynamic import
      of dailyRunner.ts yields no `generateImage`. */
  const WiringFailure: Result<string, string> := Err("generateImage is not a function")

  /** Which sends to `ids` succeed. */
  function Delivered(ids: seq<string>, send: SendOracle): (oks: seq<bool>)
    ensures |oks| == |ids|
    ensures forall i | 0 <= i < |ids| :: oks[i] == send(ids[i]).Delivered?
  {
    seq(|ids|, i requires 0 <= i < |ids| => send(ids[i]).Delivered?)
  }

  /** The send loop: every id once, in order; a failure is logged and the
      loop goes on. */
  method SendToTestUsers(ids: seq<string>, send: SendOracle) returns (attempted: seq<string>, successes: nat)
    ensures attempted == ids
    ensures successes == CountTrue(Delivered(ids, send))
    ensures successes <= |ids|
  {
    attempted, successes := [], 0;
    var oks := Delivered(ids, send);
    for i := 0 to |ids|
      invariant attempted == ids[..i]
      invariant successes == CountTrue(oks[..i])
    {
      assert oks[..i + 1] == oks[..i] + [oks[i]];
      CountTrueAppend(oks[..i], [oks[i]]);
      if send(ids[i]).Delivered? {
        successes := successes + 1;
      }
      attempted := attempted + [ids[i]];
    }
    assert oks[..|ids|] == oks;
    CountSplit(oks);
  }

  /** `runTestProcess()`. Without recipients it returns before anything
      else; otherwise the preparation step runs, then the client is built
      from the environment, then every recipient is attempted. */
  method RunTestProcess(env: Env, prepared: Result<string, string>, send: SendOracle) returns (o: TestOutcome)
    ensures EnvGet(env, "TEST_USER_IDS") == "" ==> o == NoIdsVariable
    ensures EnvGet(env, "TEST_USER_IDS") != "" ==>
      var ids := ParseTestUserIds(EnvGet(env, "TEST_USER_IDS"));
      var client := NewClient(EnvGet(env, "INTERCOM_TOKEN"), EnvGet(env, "INTERCOM_ADMIN_ID"), None);
      && (ids == [] ==> o == NoValidIds)
      && (ids != [] && prepared.Err? ==> o == TestFailed(prepared.error))
      && (ids != [] && prepared.Ok? && client.Err? ==> o == TestFailed(client.error))
      && (o.TestSent? ==> o.attempted == ids && o.successes == CountTrue(Delivered(ids, send)))
      && (ids != [] && prepared.Ok? && client.Ok? ==> o.TestSent?)
  {
    var text := EnvGet(env, "TEST_USER_IDS");
    if text == "" {
      return NoIdsVariable;
    }
    var ids := ParseTestUserIds(text);
    if |ids| == 0 {
      return NoValidIds;
    }
    if prepared.Err? {
      return TestFailed(prepared.error);
    }
    var client := NewClient(EnvGet(env, "INTERCOM_TOKEN"), EnvGet(env, "INTERCOM_ADMIN_ID"), None);
    if client.Err? {
      return TestFailed(client.error);
    }
    var attempted, successes := SendToTestUsers(ids, send);
    return TestSent(attempted, successes);
  }

  /** A test run as index.ts is wired: with at least one valid recipient,
      the run fails with the preparation step's error and sends nothing;
      without one it returns early. It never reaches the send loop. */
  method RunTestProcessAsWired(env: Env, send: SendOracle) returns (o: TestOutcome)
    ensures ParseTestUserIds(EnvGet(env, "TEST_USER_IDS")) != [] ==> o == TestFailed("generateImage is not a function")
    ensures ParseTestUserIds(EnvGet(env, "TEST_USER_IDS")) == [] ==> o == NoIdsVariable || o == NoValidIds
    ensures !o.TestSent?
  {
    o := RunTestProcess(env, WiringFailure, send);
  }

  // ---------------------------------------------------------------------------
  // Scheduling

  /** `runScheduledProcess()`: the last run time moves to `now` exactly
      when the run returned without throwing. In production the run is the
      daily process, whose completion is an input. */
  function AfterScheduledRun(testMode: bool, test: TestOutcome, dailyCompleted: bool, now: int, last: Option<int>): (next: Option<int>)
    ensures (if testMode then Completed(test) else dailyCompleted) ==> next == Some(now)
    ensures !(if testMode then Completed(test) else dailyCompleted) ==> next == last
  {
    var completed := if testMode then Completed(test) else dailyCompleted;
    if completed then Some(now) else last
  }

  /** The test-mode next run: a minute after the last run, or after now
      when there was none (a last run at 0 reads as none). */
  function NextRunTest(last: Option<int>, now: int): (t: int)
    ensures last.Some? && last.value != 0 ==> t - TestIntervalMs == last.value
    ensures last.None? || last.value == 0 ==> t - TestIntervalMs == now
  {
    (if last.Some? && last.value != 0 then last.value else now) + TestIntervalMs
  }

  /** The production next run: midnight UTC of the next day. It is the one
      multiple of a day that is later than `now` by at most a day. */
  function NextRunProduction(now: int): (t: int)
    ensures t % DayMs == 0
    ensures now < t <= now + DayMs
  {
    var q := now / DayMs;
    assert now == q * DayMs + now % DayMs;
    (q + 1) * DayMs
  }

  /** Only one instant satisfies that description. */
  lemma NextRunProductionUnique(now: int, t: int)
    requires t % DayMs == 0 && now < t <= now + DayMs
    ensures t == NextRunProduction(now)
  {
    var u := NextRunProduction(now);
    var a, b := t / DayMs, u / DayMs;
    assert t == a * DayMs && u == b * DayMs;
    assert -DayMs < t - u < DayMs;
    assert (a - b) * DayMs == t - u;
  }
}
