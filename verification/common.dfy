/** Shapes shared by every part of the model: optional values, results that
    carry an error instead of throwing, the process environment, and a few
    facts about concatenating and counting sequences. */
module Common {

  /** A value that may be absent (`undefined`/`null` in the program). */
  datatype Option<+T> = None | Some(value: T) {

    /** The value, or `default` when absent. */
    function GetOr(default: T): T {
      match this
      case Some(v) => v
      case None => default
    }
  }

  /** The result of an operation that may throw: the value or the error text. */
  datatype Result<+T, +E> = Ok(value: T) | Err(error: E)

  /** The process environment (`process.env`). */
  type Env = map<string, string>

  /** `process.env[key]`, with an unset variable read as the empty string:
      both are falsy, and the program only ever tests them for truthiness
      or reads them when truthy. */
  function EnvGet(env: Env, key: string): (v: string)
    ensures key !in env ==> v == ""
    ensures key in env ==> v == env[key]
  {
    if key in env then env[key] else ""
  }

  /** Concatenation of a sequence of sequences, in order. */
  function Concat<T>(xss: seq<seq<T>>): seq<T>
  {
    if |xss| == 0 then [] else xss[0] + Concat(xss[1..])
  }

  lemma {:induction false} ConcatAppend<T>(a: seq<seq<T>>, b: seq<seq<T>>)
    ensures Concat(a + b) == Concat(a) + Concat(b)
    decreases |a|
  {
    if |a| == 0 {
      assert a + b == b;
    } else {
      assert (a + b)[0] == a[0];
      assert (a + b)[1..] == a[1..] + b;
      ConcatAppend(a[1..], b);
    }
  }

  /** Taking one more element of a sequence of sequences appends it. */
  lemma ConcatPrefixStep<T>(xss: seq<seq<T>>, i: nat)
    requires i < |xss|
    ensures Concat(xss[..i + 1]) == Concat(xss[..i]) + xss[i]
  {
    assert xss[..i + 1] == xss[..i] + [xss[i]];
    ConcatAppend(xss[..i], [xss[i]]);
    assert Concat([xss[i]]) == xss[i] + Concat([xss[i]][1..]);
    assert [xss[i]][1..] == [];
  }

  /** Number of `true` entries. */
  function CountTrue(bs: seq<bool>): nat
  {
    if |bs| == 0 then 0 else (if bs[0] then 1 else 0) + CountTrue(bs[1..])
  }

  /** Number of `false` entries. */
  function CountFalse(bs: seq<bool>): nat
  {
    if |bs| == 0 then 0 else (if bs[0] then 0 else 1) + CountFalse(bs[1..])
  }

  lemma {:induction false} CountSplit(bs: seq<bool>)
    ensures CountTrue(bs) + CountFalse(bs) == |bs|
    decreases |bs|
  {
    if |bs| > 0 {
      CountSplit(bs[1..]);
    }
  }

  lemma {:induction false} CountTrueAppend(a: seq<bool>, b: seq<bool>)
    ensures CountTrue(a + b) == CountTrue(a) + CountTrue(b)
    ensures CountFalse(a + b) == CountFalse(a) + CountFalse(b)
    decreases |a|
  {
    if |a| == 0 {
      assert a + b == b;
    } else {
      assert (a + b)[0] == a[0];
      assert (a + b)[1..] == a[1..] + b;
      CountTrueAppend(a[1..], b);
    }
  }

  function Min(a: int, b: int): int { if a <= b then a else b }

  /** `xs.filter(keep)`: the kept elements, in their order. */
  function Filter<T>(xs: seq<T>, keep: T -> bool): (ys: seq<T>)
    ensures |ys| <= |xs|
    ensures forall y | y in ys :: y in xs && keep(y)
    ensures forall x | x in xs && keep(x) :: x in ys
    decreases |xs|
  {
    if |xs| == 0 then []
    else (if keep(xs[0]) then [xs[0]] else []) + Filter(xs[1..], keep)
  }

  /** Filtering works piecewise, which is what keeping the order means. */
  lemma {:induction false} FilterAppend<T>(a: seq<T>, b: seq<T>, keep: T -> bool)
    ensures Filter(a + b, keep) == Filter(a, keep) + Filter(b, keep)
    decreases |a|
  {
    if |a| == 0 {
      assert a + b == b;
    } else {
      assert (a + b)[0] == a[0];
      assert (a + b)[1..] == a[1..] + b;
      FilterAppend(a[1..], b, keep);
    }
  }

  /** Filtering one more element. */
  lemma FilterSnoc<T>(xs: seq<T>, x: T, keep: T -> bool)
    ensures Filter(xs + [x], keep) == Filter(xs, keep) + (if keep(x) then [x] else [])
  {
    FilterAppend(xs, [x], keep);
    assert [x][1..] == [];
  }

  /** Filtering a prefix that already holds `n` kept elements, or the whole
      sequence, gives the first `n` kept elements. */
  lemma FilterPrefixTake<T>(xs: seq<T>, i: nat, keep: T -> bool, n: nat)
    requires i <= |xs|
    requires |Filter(xs[..i], keep)| <= n
    requires i == |xs| || |Filter(xs[..i], keep)| == n
    ensures Take(Filter(xs, keep), n) == Filter(xs[..i], keep)
  {
    assert xs == xs[..i] + xs[i..];
    FilterAppend(xs[..i], xs[i..], keep);
    if i == |xs| {
      assert xs[i..] == [];
    }
  }

  /** `xs.slice(0, n)`. */
  function Take<T>(xs: seq<T>, n: nat): (ys: seq<T>)
    ensures |ys| == Min(n, |xs|)
    ensures ys == xs[..|ys|]
  {
    xs[..Min(n, |xs|)]
  }

  /** Filtering keeps everything when everything passes. */
  lemma {:induction false} FilterKeepsAll<T>(xs: seq<T>, keep: T -> bool)
    requires forall x | x in xs :: keep(x)
    ensures Filter(xs, keep) == xs
    decreases |xs|
  {
    if |xs| > 0 {
      assert forall x | x in xs[1..] :: x in xs;
      FilterKeepsAll(xs[1..], keep);
      assert [xs[0]] + xs[1..] == xs;
    }
  }

  /** A sequence whose every element lies both inside and outside `s` is
      empty. */
  lemma EmptyWhenAllInAndOut<T>(xs: seq<T>, s: set<T>)
    requires forall x | x in xs :: x in s
    requires forall x | x in xs :: x !in s
    ensures xs == []
  {
    HeadIsMember(xs);
  }

  lemma HeadIsMember<T>(xs: seq<T>)
    ensures |xs| > 0 ==> xs[0] in xs
  {
  }
}
