/** The bounded-concurrency send pool of `processBatch` in
    sendDailyMessage.ts, as a state machine.

    The program starts up to `concurrency` sends, and each send that
    settles frees its slot and starts the next recipient; the promise
    resolves when every recipient has been dispatched and nothing is in
    flight. Sends settle in an order the program does not control, so the
    model takes the order as a schedule: step `k` settles the in-flight send
    at position `choices[k]` (modulo the number in flight). Recipient `i`'s
    send succeeds when `oks[i]`. */
module WorkerPool {

  import opened Common

  datatype Tally = Tally(successes: nat, errors: nat)

  /** `userIndex` is `next`; the recipients whose sends are in flight are
      `inFlight`, so `activeTasks` is `|inFlight|`. */
  datatype Pool = Pool(
    n: nat,
    concurrency: int,
    next: nat,
    inFlight: seq<nat>,
    successes: nat,
    errors: nat,
    resolved: Option<Tally>)

  /** `processNextUser` up to its first `await`: start the next recipient
      when one is left and a slot is free; otherwise resolve if everything
      is dispatched and nothing is in flight, and do nothing else. */
  function ProcessNext(p: Pool): (q: Pool)
    ensures q.n == p.n && q.concurrency == p.concurrency
    ensures q.successes == p.successes && q.errors == p.errors
    ensures p.next < p.n && |p.inFlight| < p.concurrency ==>
      q == p.(next := p.next + 1, inFlight := p.inFlight + [p.next])
    ensures !(p.next < p.n && |p.inFlight| < p.concurrency) ==>
      q.next == p.next && q.inFlight == p.inFlight
    ensures q.resolved.Some? <==>
      p.resolved.Some? || (p.next >= p.n && |p.inFlight| == 0)
  {
    if p.next >= p.n || |p.inFlight| >= p.concurrency then
      if p.next >= p.n && |p.inFlight| == 0 then p.(resolved := Some(Tally(p.successes, p.errors)))
      else p
    else
      p.(next := p.next + 1, inFlight := p.inFlight + [p.next])
  }

  /** The start-up loop `for (i = 0; i < concurrency && userIndex < n; i++)`. */
  function Launch(p: Pool, i: int): Pool
    decreases p.concurrency - i
  {
    if i < p.concurrency && p.next < p.n then Launch(ProcessNext(p), i + 1) else p
  }

  function Start(n: nat, concurrency: int): Pool {
    Launch(Pool(n, concurrency, 0, [], 0, 0, None), 0)
  }

  function RemoveAt<T>(xs: seq<T>, k: nat): (ys: seq<T>)
    requires k < |xs|
    ensures |ys| == |xs| - 1
  {
    xs[..k] + xs[k + 1..]
  }

  /** A send settles: count it and free its slot. */
  function Settle(p: Pool, k: nat, ok: bool): Pool
    requires k < |p.inFlight|
  {
    p.(
      inFlight := RemoveAt(p.inFlight, k),
      successes := if ok then p.successes + 1 else p.successes,
      errors := if ok then p.errors else p.errors + 1)
  }

  /** A settled send, then (`finally`) `processNextUser` again. */
  function Finish(p: Pool, k: nat, ok: bool): Pool
    requires k < |p.inFlight|
  {
    ProcessNext(Settle(p, k, ok))
  }

  /** Successful recipients among `idxs`. */
  function TrueAt(oks: seq<bool>, idxs: seq<nat>): nat
    requires forall j | 0 <= j < |idxs| :: idxs[j] < |oks|
  {
    if |idxs| == 0 then 0
    else TrueAt(oks, idxs[..|idxs| - 1]) + (if oks[idxs[|idxs| - 1]] then 1 else 0)
  }

  function FalseAt(oks: seq<bool>, idxs: seq<nat>): nat
    requires forall j | 0 <= j < |idxs| :: idxs[j] < |oks|
  {
    if |idxs| == 0 then 0
    else FalseAt(oks, idxs[..|idxs| - 1]) + (if oks[idxs[|idxs| - 1]] then 0 else 1)
  }

  /** What holds of the pool at every point: the dispatched recipients are
      the first `next`; each is either settled and counted or in flight; at
      most `concurrency` are in flight; a resolution reports the final
      counts. */
  ghost predicate Counted(p: Pool, oks: seq<bool>) {
    && |oks| == p.n
    && p.next <= p.n
    && (forall j | 0 <= j < |p.inFlight| :: p.inFlight[j] < p.next)
    && (|p.inFlight| <= p.concurrency || |p.inFlight| == 0)
    && p.successes + TrueAt(oks, p.inFlight) == CountTrue(oks[..p.next])
    && p.errors + FalseAt(oks, p.inFlight) == CountFalse(oks[..p.next])
    && (p.resolved.Some? ==>
          p.next == p.n && |p.inFlight| == 0 && p.resolved == Some(Tally(p.successes, p.errors)))
  }

  /** No slot is idle while recipients are waiting. */
  ghost predicate Full(p: Pool) {
    p.next < p.n && p.concurrency >= 1 ==> |p.inFlight| == p.concurrency
  }

  /** The invariant between events (after start-up and after each settle). */
  ghost predicate Inv(p: Pool, oks: seq<bool>) {
    Counted(p, oks) && Full(p)
  }

  lemma {:induction false} AtAppend(oks: seq<bool>, idxs: seq<nat>, i: nat)
    requires forall j | 0 <= j < |idxs| :: idxs[j] < |oks|
    requires i < |oks|
    ensures TrueAt(oks, idxs + [i]) == TrueAt(oks, idxs) + (if oks[i] then 1 else 0)
    ensures FalseAt(oks, idxs + [i]) == FalseAt(oks, idxs) + (if oks[i] then 0 else 1)
  {
    assert (idxs + [i])[..|idxs|] == idxs;
  }

  /** Counting over a concatenation of index lists. */
  lemma {:induction false} AtConcat(oks: seq<bool>, a: seq<nat>, b: seq<nat>)
    requires forall j | 0 <= j < |a| :: a[j] < |oks|
    requires forall j | 0 <= j < |b| :: b[j] < |oks|
    ensures TrueAt(oks, a + b) == TrueAt(oks, a) + TrueAt(oks, b)
    ensures FalseAt(oks, a + b) == FalseAt(oks, a) + FalseAt(oks, b)
    decreases |b|
  {
    if |b| == 0 {
      assert a + b == a;
    } else {
      var b' := b[..|b| - 1];
      AtConcat(oks, a, b');
      assert a + b == (a + b') + [b[|b| - 1]];
      AtAppend(oks, a + b', b[|b| - 1]);
      AtAppend(oks, b', b[|b| - 1]);
      assert b' + [b[|b| - 1]] == b;
    }
  }

  /** Settling position `k` takes its recipient out of the in-flight counts. */
  lemma AtRemove(oks: seq<bool>, idxs: seq<nat>, k: nat)
    requires forall j | 0 <= j < |idxs| :: idxs[j] < |oks|
    requires k < |idxs|
    ensures TrueAt(oks, idxs) == TrueAt(oks, RemoveAt(idxs, k)) + (if oks[idxs[k]] then 1 else 0)
    ensures FalseAt(oks, idxs) == FalseAt(oks, RemoveAt(idxs, k)) + (if oks[idxs[k]] then 0 else 1)
  {
    var before, after := idxs[..k], idxs[k + 1..];
    assert forall j | 0 <= j < |before| :: before[j] == idxs[j];
    assert forall j | 0 <= j < |after| :: after[j] == idxs[k + 1 + j];
    assert idxs == (before + [idxs[k]]) + after;
    AtMiddle(oks, before, idxs[k], after);
  }

  lemma AtMiddle(oks: seq<bool>, before: seq<nat>, x: nat, after: seq<nat>)
    requires forall j | 0 <= j < |before| :: before[j] < |oks|
    requires forall j | 0 <= j < |after| :: after[j] < |oks|
    requires x < |oks|
    ensures TrueAt(oks, (before + [x]) + after) == TrueAt(oks, before + after) + (if oks[x] then 1 else 0)
    ensures FalseAt(oks, (before + [x]) + after) == FalseAt(oks, before + after) + (if oks[x] then 0 else 1)
  {
    AtAppend(oks, before, x);
    AtConcat(oks, before + [x], after);
    AtConcat(oks, before, after);
  }

  lemma CountPrefixStep(oks: seq<bool>, i: nat)
    requires i < |oks|
    ensures CountTrue(oks[..i + 1]) == CountTrue(oks[..i]) + (if oks[i] then 1 else 0)
    ensures CountFalse(oks[..i + 1]) == CountFalse(oks[..i]) + (if oks[i] then 0 else 1)
  {
    assert oks[..i + 1] == oks[..i] + [oks[i]];
    CountTrueAppend(oks[..i], [oks[i]]);
  }

  /** Starting a recipient or resolving keeps the counts; starting into the
      one free slot fills the pool again. */
  lemma ProcessNextInv(p: Pool, oks: seq<bool>)
    requires Counted(p, oks)
    ensures Counted(ProcessNext(p), oks)
    ensures p.concurrency >= 1 && |p.inFlight| >= p.concurrency - 1 ==> Full(ProcessNext(p))
  {
    var q := ProcessNext(p);
    if p.next < p.n && |p.inFlight| < p.concurrency {
      AtAppend(oks, p.inFlight, p.next);
      CountPrefixStep(oks, p.next);
      assert q.inFlight == p.inFlight + [p.next];
      assert forall j | 0 <= j < |q.inFlight| :: q.inFlight[j] < q.next;
    }
  }

  /** While starting up, slot after slot fills until the pool is full or
      every recipient is dispatched. */
  lemma {:induction false} LaunchInv(p: Pool, i: int, oks: seq<bool>)
    requires Counted(p, oks) && p.resolved.None? && p.concurrency >= 1
    requires 0 <= i <= p.concurrency && |p.inFlight| == i
    ensures Inv(Launch(p, i), oks)
    ensures Launch(p, i).resolved.None?
    ensures |Launch(p, i).inFlight| == Min(p.concurrency, p.n - p.next + i)
    decreases p.concurrency - i
  {
    if i < p.concurrency && p.next < p.n {
      ProcessNextInv(p, oks);
      LaunchInv(ProcessNext(p), i + 1, oks);
    }
  }

  /** The pool after starting up: `Min(concurrency, n)` sends in flight. */
  lemma StartInv(n: nat, concurrency: int, oks: seq<bool>)
    requires |oks| == n
    ensures Inv(Start(n, concurrency), oks)
    ensures Start(n, concurrency).resolved.None?
    ensures concurrency >= 1 ==> |Start(n, concurrency).inFlight| == Min(concurrency, n)
    ensures concurrency <= 0 ==> Start(n, concurrency) == Pool(n, concurrency, 0, [], 0, 0, None)
  {
    var p := Pool(n, concurrency, 0, [], 0, 0, None);
    if concurrency >= 1 {
      assert oks[..0] == [];
      LaunchInv(p, 0, oks);
    } else {
      assert oks[..0] == [];
    }
  }

  /** Settling moves one recipient from in flight to counted. */
  lemma SettleCounted(p: Pool, k: nat, oks: seq<bool>)
    requires Counted(p, oks) && p.resolved.None? && k < |p.inFlight|
    ensures Counted(Settle(p, k, oks[p.inFlight[k]]), oks)
  {
    var settled := Settle(p, k, oks[p.inFlight[k]]);
    AtRemove(oks, p.inFlight, k);
    assert forall j | 0 <= j < |settled.inFlight| :: settled.inFlight[j] in p.inFlight;
  }

  /** Settling a send keeps the invariant. */
  lemma FinishInv(p: Pool, k: nat, oks: seq<bool>)
    requires Inv(p, oks) && k < |p.inFlight|
    ensures Inv(Finish(p, k, oks[p.inFlight[k]]), oks)
  {
    var settled := Settle(p, k, oks[p.inFlight[k]]);
    assert p.resolved.None?;
    SettleCounted(p, k, oks);
    ProcessNextInv(settled, oks);
  }

  /** Settle sends in the order `choices` gives, until the pool is idle or
      the schedule ends. */
  function Run(p: Pool, oks: seq<bool>, choices: seq<nat>): (q: Pool)
    requires Inv(p, oks)
    ensures Inv(q, oks)
    decreases |choices|
  {
    if |choices| == 0 || |p.inFlight| == 0 then p
    else
      var k := choices[0] % |p.inFlight|;
      FinishInv(p, k, oks);
      Run(Finish(p, k, oks[p.inFlight[k]]), oks, choices[1..])
  }

  /** Each settled send takes exactly one unit off the remaining work
      (recipients still to start plus sends in flight); once that reaches
      zero the last settle resolves the pool. */
  lemma {:induction false} RunDrains(p: Pool, oks: seq<bool>, choices: seq<nat>)
    requires Inv(p, oks) && p.concurrency >= 1
    requires |p.inFlight| > 0 || p.resolved.Some?
    requires |choices| >= p.n - p.next + |p.inFlight|
    ensures Run(p, oks, choices).resolved == Some(Tally(CountTrue(oks), CountFalse(oks)))
    decreases |choices|
  {
    if |p.inFlight| == 0 {
      assert oks[..p.next] == oks;
    } else {
      var k := choices[0] % |p.inFlight|;
      FinishInv(p, k, oks);
      var q := Finish(p, k, oks[p.inFlight[k]]);
      assert q.next < q.n ==> |q.inFlight| == |p.inFlight|;
      assert q.next == q.n && |q.inFlight| == 0 ==> q.resolved.Some?;
      RunDrains(q, oks, choices[1..]);
    }
  }

  /** The pool always resolves with the true counts of its batch, whatever
      order the sends settle in, once it is given as many settle events as
      it has recipients. */
  lemma PoolDrains(n: nat, concurrency: int, oks: seq<bool>, choices: seq<nat>)
    requires n >= 1 && concurrency >= 1 && |oks| == n && |choices| >= n
    ensures (StartInv(n, concurrency, oks);
             Run(Start(n, concurrency), oks, choices).resolved == Some(Tally(CountTrue(oks), CountFalse(oks))))
  {
    StartInv(n, concurrency, oks);
    var p := Start(n, concurrency);
    assert |p.inFlight| == Min(concurrency, n) >= 1;
    assert p.n - p.next + |p.inFlight| <= n by {
      assert p.successes + TrueAt(oks, p.inFlight) == CountTrue(oks[..p.next]);
      assert p.errors + FalseAt(oks, p.inFlight) == CountFalse(oks[..p.next]);
      AtCount(oks, p.inFlight);
      CountSplit(oks[..p.next]);
    }
    RunDrains(p, oks, choices);
  }

  lemma {:induction false} AtCount(oks: seq<bool>, idxs: seq<nat>)
    requires forall j | 0 <= j < |idxs| :: idxs[j] < |oks|
    ensures TrueAt(oks, idxs) + FalseAt(oks, idxs) == |idxs|
    decreases |idxs|
  {
    if |idxs| > 0 {
      AtCount(oks, idxs[..|idxs| - 1]);
    }
  }

  /** An empty batch, or a concurrency below one, never resolves: the start
      loop calls `processNextUser` zero times and no send ever settles to
      call it later. */
  lemma NeverResolvesWithoutWork(n: nat, concurrency: int, oks: seq<bool>, choices: seq<nat>)
    requires |oks| == n && (n == 0 || concurrency <= 0)
    ensures (StartInv(n, concurrency, oks);
             Run(Start(n, concurrency), oks, choices).resolved.None?)
  {
    StartInv(n, concurrency, oks);
    if concurrency >= 1 {
      assert Start(n, concurrency).inFlight == [];
    }
  }

  /** The send budget: at every point at most `concurrency` sends are in
      flight. */
  lemma BoundedConcurrency(p: Pool, oks: seq<bool>)
    requires Inv(p, oks) && p.concurrency >= 1
    ensures |p.inFlight| <= p.concurrency
  {
  }
}
