/** The selection and layout of generateImage.ts: which trending tokens make
    it into the daily picture, and where each row is drawn inside the
    template's box.

    `Number(text)` is an input (`None` for `NaN`); whether an image URL
    loads is an oracle. Rendering (resizing, masking, text) is not modelled:
    a row is its token, its vertical position and the unit its market cap
    is shown in. */
module GenerateImage {

  import opened Common
  import opened Strings
  import opened TrendingTokens

  const BoxLeft: int := 180
  const BoxTop: int := 200
  const BoxWidth: int := 750
  const BoxHeight: int := 840
  const NumTokens: nat := 5
  /** Room for one more row than drawn, as padding. */
  const ItemHeight: int := BoxHeight / (NumTokens + 1)
  const ImageSize: int := 56
  const ImageX: int := BoxLeft + 32
  const NameX: int := ImageX + ImageSize + 24
  const ChangeX: int := BoxLeft + BoxWidth - 60
  /** Eligible tokens kept before the image check. */
  const RawPoolSize: nat := 20

  // ---------------------------------------------------------------------------
  // Selection

  /** `Number(text) > bound`; `NaN` compares false. */
  predicate Exceeds(x: Option<real>, bound: real) {
    x.Some? && x.value > bound
  }

  const MinMarketCap: real := 100000.0

  /** The first filter: a market cap over 100000, a positive 24h change, a
      non-blank name and image URL, and an image URL that mentions neither
      "placeholder" nor "default" in any case. */
  predicate Eligible(t: PoolInfo, toNumber: string -> Option<real>) {
    && Exceeds(toNumber(t.marketCap), MinMarketCap)
    && Exceeds(toNumber(t.priceChange24h), 0.0)
    && Trim(t.coinName) != ""
    && Trim(t.imageUrl) != ""
    && !Contains(ToLower(t.imageUrl), "placeholder")
    && !Contains(ToLower(t.imageUrl), "default")
  }

  /** Names compare lower-cased. */
  function NameKey(t: PoolInfo): string {
    ToLower(t.coinName)
  }

  /** `self.findIndex(t => key(t) === key)`, with `|ts|` for -1. */
  function FindIndex(ts: seq<PoolInfo>, key: string): (i: nat)
    ensures i <= |ts|
    ensures i < |ts| ==> NameKey(ts[i]) == key
    ensures forall j | 0 <= j < i :: NameKey(ts[j]) != key
    decreases |ts|
  {
    if |ts| == 0 then 0
    else if NameKey(ts[0]) == key then 0
    else
      var i := FindIndex(ts[1..], key);
      assert forall j | 1 <= j < 1 + i :: ts[j] == ts[1..][j - 1];
      1 + i
  }

  /** Whether `ts[j]` is the first token of its name. */
  predicate FirstOfName(ts: seq<PoolInfo>, j: nat)
    requires j < |ts|
  {
    FindIndex(ts, NameKey(ts[j])) == j
  }

  /** `ts[..n].filter((t, i, self) => i === self.findIndex(...))`, where
      `self` is all of `ts`. */
  function DedupePrefix(ts: seq<PoolInfo>, n: nat): seq<PoolInfo>
    requires n <= |ts|
  {
    if n == 0 then []
    else DedupePrefix(ts, n - 1) + (if FirstOfName(ts, n - 1) then [ts[n - 1]] else [])
  }

  /** No two tokens share a name key. */
  predicate DistinctNames(xs: seq<PoolInfo>) {
    forall k, l | 0 <= k < l < |xs| :: NameKey(xs[k]) != NameKey(xs[l])
  }

  /** Every kept token is the first token of its name among the first `n`. */
  lemma {:induction false} DedupeKeepsFirsts(ts: seq<PoolInfo>, n: nat)
    requires n <= |ts|
    ensures forall k | 0 <= k < |DedupePrefix(ts, n)| ::
      FindIndex(ts, NameKey(DedupePrefix(ts, n)[k])) < n
      && ts[FindIndex(ts, NameKey(DedupePrefix(ts, n)[k]))] == DedupePrefix(ts, n)[k]
    decreases n
  {
    if n > 0 {
      DedupeKeepsFirsts(ts, n - 1);
      var r := DedupePrefix(ts, n - 1);
      var r' := DedupePrefix(ts, n);
      assert r' == r + (if FirstOfName(ts, n - 1) then [ts[n - 1]] else []);
      forall k | 0 <= k < |r'|
        ensures FindIndex(ts, NameKey(r'[k])) < n && ts[FindIndex(ts, NameKey(r'[k]))] == r'[k]
      {
        if k < |r| {
          assert r'[k] == r[k];
        } else {
          assert r'[k] == ts[n - 1] && FirstOfName(ts, n - 1);
        }
      }
    }
  }

  /** No two kept tokens share a name. */
  lemma {:induction false} DedupeDistinct(ts: seq<PoolInfo>, n: nat)
    requires n <= |ts|
    ensures DistinctNames(DedupePrefix(ts, n))
    decreases n
  {
    if n > 0 {
      DedupeDistinct(ts, n - 1);
      DedupeKeepsFirsts(ts, n - 1);
      var r := DedupePrefix(ts, n - 1);
      var r' := DedupePrefix(ts, n);
      assert r' == r + (if FirstOfName(ts, n - 1) then [ts[n - 1]] else []);
      if FirstOfName(ts, n - 1) {
        forall k, l | 0 <= k < l < |r'|
          ensures NameKey(r'[k]) != NameKey(r'[l])
        {
          assert r'[k] == r[k];
          if l == |r| {
            assert r'[l] == ts[n - 1];
            assert FindIndex(ts, NameKey(r[k])) < n - 1;
          } else {
            assert r'[l] == r[l];
          }
        }
      } else {
        assert r' == r;
      }
    }
  }

  /** The names of `ts`. */
  function NameKeys(ts: seq<PoolInfo>): (keys: seq<string>)
    ensures |keys| == |ts|
    ensures forall k | 0 <= k < |ts| :: keys[k] == NameKey(ts[k])
  {
    seq(|ts|, k requires 0 <= k < |ts| => NameKey(ts[k]))
  }

  /** The kept tokens come in the order their names first occur. */
  lemma {:induction false} DedupeOrdered(ts: seq<PoolInfo>, n: nat)
    requires n <= |ts|
    ensures forall k, l | 0 <= k < l < |DedupePrefix(ts, n)| ::
      FindIndex(ts, NameKey(DedupePrefix(ts, n)[k])) < FindIndex(ts, NameKey(DedupePrefix(ts, n)[l]))
    decreases n
  {
    if n > 0 {
      DedupeOrdered(ts, n - 1);
      DedupeKeepsFirsts(ts, n - 1);
      var r := DedupePrefix(ts, n - 1);
      var r' := DedupePrefix(ts, n);
      assert r' == r + (if FirstOfName(ts, n - 1) then [ts[n - 1]] else []);
      forall k, l | 0 <= k < l < |r'|
        ensures FindIndex(ts, NameKey(r'[k])) < FindIndex(ts, NameKey(r'[l]))
      {
        assert r'[k] == r[k];
        if l < |r| {
          assert r'[l] == r[l];
        } else {
          assert r'[l] == ts[n - 1] && FirstOfName(ts, n - 1);
          assert FindIndex(ts, NameKey(r[k])) < n - 1;
        }
      }
    }
  }

  lemma NameKeysAppend(a: seq<PoolInfo>, b: seq<PoolInfo>)
    ensures NameKeys(a + b) == NameKeys(a) + NameKeys(b)
  {
    assert forall k | 0 <= k < |a| :: (a + b)[k] == a[k];
    assert forall k | |a| <= k < |a| + |b| :: (a + b)[k] == b[k - |a|];
  }

  /** Every name among the first `n` is kept. */
  lemma {:induction false} DedupeCovers(ts: seq<PoolInfo>, n: nat)
    requires n <= |ts|
    ensures forall j | 0 <= j < n :: NameKey(ts[j]) in NameKeys(DedupePrefix(ts, n))
    decreases n
  {
    if n > 0 {
      DedupeCovers(ts, n - 1);
      var r := DedupePrefix(ts, n - 1);
      var extra := if FirstOfName(ts, n - 1) then [ts[n - 1]] else [];
      NameKeysAppend(r, extra);
      var keys := NameKeys(r) + NameKeys(extra);
      assert NameKeys(DedupePrefix(ts, n)) == keys;
      var f := FindIndex(ts, NameKey(ts[n - 1]));
      if f < n - 1 {
        assert NameKey(ts[f]) in NameKeys(r);
      } else {
        assert NameKeys(extra)[0] == NameKey(ts[n - 1]);
      }
      assert NameKey(ts[n - 1]) in keys;
    }
  }

  /** The second filter: the first token of every name, in order. No two
      kept tokens share a name, every name of the input is kept, and the
      kept tokens stay in input order. */
  function Dedupe(ts: seq<PoolInfo>): (r: seq<PoolInfo>)
    ensures forall k | 0 <= k < |r| :: FindIndex(ts, NameKey(r[k])) < |ts| && r[k] == ts[FindIndex(ts, NameKey(r[k]))]
    ensures DistinctNames(r)
    ensures forall t | t in ts :: NameKey(t) in NameKeys(r)
    ensures forall k, l | 0 <= k < l < |r| :: FindIndex(ts, NameKey(r[k])) < FindIndex(ts, NameKey(r[l]))
  {
    DedupeOrdered(ts, |ts|);
    DedupeKeepsFirsts(ts, |ts|);
    DedupeDistinct(ts, |ts|);
    DedupeCovers(ts, |ts|);
    DedupePrefix(ts, |ts|)
  }

  /** The first filter applied to the feed, in feed order. */
  function EligibleTokens(pools: seq<PoolInfo>, toNumber: string -> Option<real>): (e: seq<PoolInfo>)
    ensures forall t | t in e :: t in pools && Eligible(t, toNumber)
    ensures forall t | t in pools && Eligible(t, toNumber) :: t in e
  {
    Filter(pools, t => Eligible(t, toNumber))
  }

  /** The first twenty de-duplicated eligible tokens. */
  function FirstUnique(pools: seq<PoolInfo>, toNumber: string -> Option<real>): seq<PoolInfo> {
    Take(Dedupe(EligibleTokens(pools, toNumber)), RawPoolSize)
  }

  lemma FirstUniqueInFeed(pools: seq<PoolInfo>, toNumber: string -> Option<real>)
    ensures forall t | t in FirstUnique(pools, toNumber) :: t in pools && Eligible(t, toNumber)
  {
    var eligible := EligibleTokens(pools, toNumber);
    var unique := Dedupe(eligible);
    var c := Take(unique, RawPoolSize);
    forall t | t in c
      ensures t in eligible
    {
      var k :| 0 <= k < |c| && c[k] == t;
      assert c[k] == unique[k];
      assert t == eligible[FindIndex(eligible, NameKey(t))];
    }
  }

  lemma FirstUniqueOrdered(pools: seq<PoolInfo>, toNumber: string -> Option<real>)
    ensures var c := FirstUnique(pools, toNumber);
      && DistinctNames(c)
      && forall k, l | 0 <= k < l < |c| ::
           FindIndex(EligibleTokens(pools, toNumber), NameKey(c[k])) < FindIndex(EligibleTokens(pools, toNumber), NameKey(c[l]))
  {
    var eligible := EligibleTokens(pools, toNumber);
    var unique := Dedupe(eligible);
    var c := Take(unique, RawPoolSize);
    assert forall k | 0 <= k < |c| :: c[k] == unique[k];
  }

  lemma FirstUniqueNonEmpty(pools: seq<PoolInfo>, toNumber: string -> Option<real>)
    ensures (exists t | t in pools :: Eligible(t, toNumber)) ==> |FirstUnique(pools, toNumber)| > 0
  {
    var unique := Dedupe(EligibleTokens(pools, toNumber));
    if exists t | t in pools :: Eligible(t, toNumber) {
      var t :| t in pools && Eligible(t, toNumber);
      assert NameKey(t) in NameKeys(unique);
    }
  }

  /** The tokens offered to the image check: the first twenty of the
      de-duplicated eligible tokens, in the order their names first occur
      among the eligible ones. There are none only when no token is
      eligible. */
  function Candidates(pools: seq<PoolInfo>, toNumber: string -> Option<real>): (c: seq<PoolInfo>)
    ensures |c| <= RawPoolSize
    ensures forall t | t in c :: t in pools && Eligible(t, toNumber)
    ensures DistinctNames(c)
    ensures |c| == Min(RawPoolSize, |Dedupe(EligibleTokens(pools, toNumber))|)
    ensures c == Dedupe(EligibleTokens(pools, toNumber))[..|c|]
    ensures forall k, l | 0 <= k < l < |c| ::
      FindIndex(EligibleTokens(pools, toNumber), NameKey(c[k])) < FindIndex(EligibleTokens(pools, toNumber), NameKey(c[l]))
    ensures (exists t | t in pools :: Eligible(t, toNumber)) ==> |c| > 0
  {
    FirstUniqueInFeed(pools, toNumber);
    FirstUniqueOrdered(pools, toNumber);
    FirstUniqueNonEmpty(pools, toNumber);
    FirstUnique(pools, toNumber)
  }

  /** Whether the token's image loads. */
  predicate Loads(t: PoolInfo, loads: string -> bool) {
    loads(t.imageUrl)
  }

  /** The loop that keeps tokens whose image loads, until five are found:
      the first five loading tokens, in order, or all of them when fewer
      load. */
  method CollectLoadable(tokens: seq<PoolInfo>, loads: string -> bool) returns (valid: seq<PoolInfo>)
    ensures valid == Take(Filter(tokens, t => Loads(t, loads)), NumTokens)
  {
    var keep := t => Loads(t, loads);
    valid := [];
    var i := 0;
    while i < |tokens| && |valid| < NumTokens
      invariant 0 <= i <= |tokens|
      invariant valid == Filter(tokens[..i], keep)
      invariant |valid| <= NumTokens
    {
      assert tokens[..i + 1] == tokens[..i] + [tokens[i]];
      FilterSnoc(tokens[..i], tokens[i], keep);
      if Loads(tokens[i], loads) {
        valid := valid + [tokens[i]];
      }
      i := i + 1;
    }
    FilterPrefixTake(tokens, i, keep, NumTokens);
  }

  /** What the collection loop promises in words: at most five tokens, all
      loading, taken from the candidates; fewer than five only when no
      other candidate loads. */
  lemma CollectedTokens(tokens: seq<PoolInfo>, loads: string -> bool)
    ensures var valid := Take(Filter(tokens, t => Loads(t, loads)), NumTokens);
      && |valid| <= NumTokens
      && (forall t | t in valid :: t in tokens && Loads(t, loads))
      && (|valid| < NumTokens ==> forall t | t in tokens && Loads(t, loads) :: t in valid)
  {
    var all := Filter(tokens, t => Loads(t, loads));
    var valid := Take(all, NumTokens);
    forall t | t in valid
      ensures t in all
    {
      var k :| 0 <= k < |valid| && valid[k] == t;
      assert all[k] == t;
    }
    if |valid| < NumTokens {
      assert valid == all;
    }
  }

  lemma DistinctTail(xs: seq<PoolInfo>)
    requires |xs| > 0 && DistinctNames(xs)
    ensures DistinctNames(xs[1..])
    ensures forall y | y in xs[1..] :: NameKey(y) != NameKey(xs[0])
  {
    var tail := xs[1..];
    assert forall k | 0 <= k < |tail| :: tail[k] == xs[k + 1];
  }

  lemma DistinctCons(x: PoolInfo, rest: seq<PoolInfo>)
    requires DistinctNames(rest)
    requires forall y | y in rest :: NameKey(y) != NameKey(x)
    ensures DistinctNames([x] + rest)
  {
    var ys := [x] + rest;
    forall k, l | 0 <= k < l < |ys|
      ensures NameKey(ys[k]) != NameKey(ys[l])
    {
      assert ys[l] == rest[l - 1];
      if k == 0 {
        assert ys[l] in rest;
      } else {
        assert ys[k] == rest[k - 1];
      }
    }
  }

  /** Dropping tokens cannot make two names equal. */
  lemma {:induction false} FilterKeepsDistinct(xs: seq<PoolInfo>, keep: PoolInfo -> bool)
    requires DistinctNames(xs)
    ensures DistinctNames(Filter(xs, keep))
    decreases |xs|
  {
    if |xs| > 0 {
      var tail := xs[1..];
      DistinctTail(xs);
      FilterKeepsDistinct(tail, keep);
      var rest := Filter(tail, keep);
      if keep(xs[0]) {
        assert Filter(xs, keep) == [xs[0]] + rest;
        DistinctCons(xs[0], rest);
      } else {
        assert Filter(xs, keep) == rest;
      }
    }
  }

  // ---------------------------------------------------------------------------
  // Layout

  /** `BOX_TOP + Math.floor((BOX_HEIGHT - ITEM_HEIGHT * n) / 2)`; Dafny's
      division by a positive number rounds down like `Math.floor`. */
  function StartY(n: nat): int {
    BoxTop + (BoxHeight - ItemHeight * n) / 2
  }

  /** Row `i` of `n` is drawn at `startY + i * ITEM_HEIGHT`. */
  function RowY(n: nat, i: nat): int {
    StartY(n) + i * ItemHeight
  }

  /** Up to five rows fit in the box, centred exactly: the space above the
      first row equals the space below the last. */
  lemma RowsFitTheBox(n: nat)
    requires n <= NumTokens
    ensures ItemHeight == 140
    ensures StartY(n) >= BoxTop
    ensures StartY(n) + ItemHeight * n <= BoxTop + BoxHeight
    ensures StartY(n) - BoxTop == (BoxTop + BoxHeight) - (StartY(n) + ItemHeight * n)
  {
  }

  /** Each row ends where the next begins: rows go down the box and never
      overlap. */
  lemma RowsDoNotOverlap(n: nat, i: nat, j: nat)
    requires i < j
    ensures RowY(n, i) + ItemHeight <= RowY(n, j)
  {
    assert j * ItemHeight >= (i + 1) * ItemHeight;
  }

  /** The name column starts past the token image. */
  lemma NameRightOfImage()
    ensures NameX == 292 && NameX > ImageX + ImageSize
  {
  }

  /** The unit the market cap is shown in. */
  datatype Magnitude = Millions | Thousands | Units

  /** `>= 1e6` is millions, `>= 1e3` thousands, anything else (`NaN`
      included) plain. */
  function CapMagnitude(cap: Option<real>): (m: Magnitude)
    ensures m == Millions <==> cap.Some? && cap.value >= 1000000.0
    ensures m == Thousands <==> cap.Some? && 1000.0 <= cap.value < 1000000.0
    ensures m == Units <==> cap.None? || cap.value < 1000.0
  {
    if cap.Some? && cap.value >= 1000000.0 then Millions
    else if cap.Some? && cap.value >= 1000.0 then Thousands
    else Units
  }

  function Rank(m: Magnitude): nat {
    match m
    case Units => 0
    case Thousands => 1
    case Millions => 2
  }

  /** A larger cap never shows in a smaller unit. */
  lemma MagnitudeMonotone(a: real, b: real)
    requires a <= b
    ensures Rank(CapMagnitude(Some(a))) <= Rank(CapMagnitude(Some(b)))
  {
  }

  /** Every drawn token passed the first filter, so its cap is over 100000
      and shows in thousands or millions. */
  lemma EligibleCapsAreLarge(cap: Option<real>)
    requires Exceeds(cap, MinMarketCap)
    ensures CapMagnitude(cap) != Units
  {
  }

  /** One drawn row. */
  datatype Row = Row(token: PoolInfo, y: int, cap: Magnitude)

  function Layout(valid: seq<PoolInfo>, toNumber: string -> Option<real>): (rows: seq<Row>)
    ensures |rows| == |valid|
    ensures forall i | 0 <= i < |rows| ::
      rows[i].token == valid[i] && rows[i].y == RowY(|valid|, i)
      && rows[i].cap == CapMagnitude(toNumber(valid[i].marketCap))
  {
    seq(|valid|, i requires 0 <= i < |valid| =>
      Row(valid[i], RowY(|valid|, i), CapMagnitude(toNumber(valid[i].marketCap))))
  }

  /** The rows are placed inside the box, in order, without overlap. */
  predicate Placed(rows: seq<Row>) {
    && (forall i | 0 <= i < |rows| :: BoxTop <= rows[i].y && rows[i].y + ItemHeight <= BoxTop + BoxHeight)
    && (forall i, j | 0 <= i < j < |rows| :: rows[i].y + ItemHeight <= rows[j].y)
  }

  /** Laying out at most five tokens places every row. */
  lemma LayoutIsPlaced(valid: seq<PoolInfo>, toNumber: string -> Option<real>)
    requires |valid| <= NumTokens
    ensures Placed(Layout(valid, toNumber))
  {
    var rows := Layout(valid, toNumber);
    var n := |valid|;
    RowsFitTheBox(n);
    forall i | 0 <= i < n
      ensures BoxTop <= rows[i].y && rows[i].y + ItemHeight <= BoxTop + BoxHeight
    {
      RowsDoNotOverlap(n, i, n);
    }
    forall i, j | 0 <= i < j < n
      ensures rows[i].y + ItemHeight <= rows[j].y
    {
      RowsDoNotOverlap(n, i, j);
    }
  }

  /** The tokens that are drawn. */
  function Selected(pools: seq<PoolInfo>, toNumber: string -> Option<real>, loads: string -> bool): seq<PoolInfo> {
    Take(Filter(Candidates(pools, toNumber), t => Loads(t, loads)), NumTokens)
  }

  /** At most five drawn tokens, each from the feed, eligible, loading, and
      with a name no other drawn token has. */
  lemma SelectedTokens(pools: seq<PoolInfo>, toNumber: string -> Option<real>, loads: string -> bool)
    ensures var valid := Selected(pools, toNumber, loads);
      && |valid| <= NumTokens
      && (forall t | t in valid :: t in pools && Eligible(t, toNumber) && Loads(t, loads))
      && DistinctNames(valid)
  {
    var candidates := Candidates(pools, toNumber);
    var all := Filter(candidates, t => Loads(t, loads));
    var valid := Take(all, NumTokens);
    CollectedTokens(candidates, loads);
    FilterKeepsDistinct(candidates, t => Loads(t, loads));
    assert forall k | 0 <= k < |valid| :: valid[k] == all[k];
  }

  /** What the picture shows: at most five rows, placed in the box, each
      an eligible token of the feed whose image loads, no two with the same
      name. */
  predicate Drawable(rows: seq<Row>, feed: seq<PoolInfo>, toNumber: string -> Option<real>, loads: string -> bool) {
    && |rows| <= NumTokens
    && Placed(rows)
    && (forall i | 0 <= i < |rows| ::
          rows[i].token in feed && Eligible(rows[i].token, toNumber) && Loads(rows[i].token, loads))
    && (forall i, j | 0 <= i < j < |rows| :: NameKey(rows[i].token) != NameKey(rows[j].token))
  }

  lemma SelectionIsDrawable(feed: seq<PoolInfo>, toNumber: string -> Option<real>, loads: string -> bool)
    ensures Drawable(Layout(Selected(feed, toNumber, loads), toNumber), feed, toNumber, loads)
  {
    var valid := Selected(feed, toNumber, loads);
    SelectedTokens(feed, toNumber, loads);
    LayoutIsPlaced(valid, toNumber);
    var rows := Layout(valid, toNumber);
    assert forall i | 0 <= i < |rows| :: rows[i].token == valid[i] && valid[i] in valid;
  }

  /** `drawTrendingTokensImage()` up to rendering: a failed token feed is
      rethrown; otherwise the rows drawn are the selected tokens, in order. */
  method DrawTrendingTokensImage(feed: Result<seq<PoolInfo>, string>, toNumber: string -> Option<real>, loads: string -> bool)
    returns (r: Result<seq<Row>, string>)
    ensures feed.Err? ==> r == Err(feed.error)
    ensures feed.Ok? ==> r.Ok? && Drawable(r.value, feed.value, toNumber, loads)
    ensures feed.Ok? ==>
      |r.value| == Min(NumTokens, |Filter(Candidates(feed.value, toNumber), t => Loads(t, loads))|)
    ensures feed.Ok? ==> r.value == Layout(Selected(feed.value, toNumber, loads), toNumber)
  {
    if feed.Err? {
      return Err(feed.error);
    }
    var candidates := Candidates(feed.value, toNumber);
    var valid := CollectLoadable(candidates, loads);
    SelectionIsDrawable(feed.value, toNumber, loads);
    return Ok(Layout(valid, toNumber));
  }
}
