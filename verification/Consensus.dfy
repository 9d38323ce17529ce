/** Difficulty schedule, chain work and median-time-past (src/chain/consensus.ts). */
module Consensus {
  import opened Binary
  import opened Genesis
  import opened Asert

  const SANDGLASS_ANCHOR_TARGET: nat := TWO_256 / SANDGLASS_ANCHOR_ATTEMPTS

  /** The last `n` elements, or all of them. */
  function Last<T>(s: seq<T>, n: nat): (r: seq<T>)
    ensures |r| == if |s| < n then |s| else n
  {
    if |s| <= n then s else s[|s| - n..]
  }

  function Min(a: int, b: int): int {
    if a < b then a else b
  }

  // ---- Difficulty ----

  /** Both the candidate and its parent took more than six block times; genesis is never the grandparent. */
  predicate Emergency(previous: seq<Header>, candidateTimestamp: Option<nat>) {
    && candidateTimestamp.Some?
    && |previous| >= 2
    && var parent, grand := previous[|previous| - 1], previous[|previous| - 2];
    && grand.height > 0
    && parent.timestamp - grand.timestamp > EMERGENCY_DROP_MULT * TARGET_BLOCK_TIME_S
    && candidateTimestamp.value - parent.timestamp > EMERGENCY_DROP_MULT * TARGET_BLOCK_TIME_S
  }

  /** The settling band of fork #2: within a factor of four of the reset. */
  function Fork2Band(nextHeight: nat, target: nat): nat {
    var hardest, easiest := SANDGLASS_ANCHOR_TARGET / 4, SANDGLASS_ANCHOR_TARGET * 4;
    if nextHeight > SANDGLASS_FORK_HEIGHT + SANDGLASS_ANCHOR_CLAMP_BLOCKS then target
    else if target < hardest then hardest
    else if target > easiest then easiest
    else target
  }

  /** ASERT from one of the three anchors. `None` stands for the thrown missing-anchor error. */
  function ScheduledTarget(nextHeight: nat, parent: Header, anchor: Option<Header>): Option<nat> {
    if nextHeight > SANDGLASS2_ANCHOR_HEIGHT then
      if anchor.None? || anchor.value.height != SANDGLASS2_ANCHOR_HEIGHT then None
      else Some(AsertTarget(parent.height, parent.timestamp, anchor.value.height, anchor.value.timestamp,
                            CompactToTarget(anchor.value.difficulty)))
    else if nextHeight > SANDGLASS_FORK_HEIGHT then
      Some(Fork2Band(nextHeight, AsertTarget(parent.height, parent.timestamp,
                                             SANDGLASS_FORK_HEIGHT, SANDGLASS_ANCHOR_TIMESTAMP, SANDGLASS_ANCHOR_TARGET)))
    else
      Some(AsertTarget(parent.height, parent.timestamp, 0, GENESIS_TIMESTAMP, FLOOR_TARGET))
  }

  /** The compact difficulty the block at `nextHeight` must carry; `None` where the code throws. */
  function NextDifficulty(nextHeight: nat, previous: seq<Header>, candidateTimestamp: Option<nat>, anchor: Option<Header>): Option<int> {
    if nextHeight == 0 then Some(GENESIS_DIFFICULTY_COMPACT)
    else if nextHeight == SANDGLASS_FORK_HEIGHT then Some(Compact(SANDGLASS_ANCHOR_TARGET))
    else if previous == [] then None
    else
      var parent := previous[|previous| - 1];
      if Emergency(previous, candidateTimestamp) then
        Some(Compact(Min(2 * CompactToTarget(parent.difficulty), FLOOR_TARGET)))
      else
        var t := ScheduledTarget(nextHeight, parent, anchor);
        if t.None? then None else Some(Compact(t.value))
  }

  /** Only the last two headers matter to difficulty: any window of at least two gives the same answer. */
  lemma NextDifficultyWindow(nextHeight: nat, chain: seq<Header>, n: nat, ts: Option<nat>, anchor: Option<Header>)
    requires n >= 2
    ensures NextDifficulty(nextHeight, Last(chain, n), ts, anchor) == NextDifficulty(nextHeight, chain, ts, anchor)
  {
    hide Compact, CompactToTarget, ScheduledTarget;
  }

  /** A usable difficulty: in canonical form, for a target the floor allows. */
  predicate Scheduled(difficulty: int) {
    Canonical(difficulty) && 1 <= CompactToTarget(difficulty) <= FLOOR_TARGET
  }

  lemma CompactScheduled(t: int)
    requires 1 <= t <= FLOOR_TARGET
    ensures Scheduled(Compact(t))
  {
    hide Compact, CompactToTarget;
    CompactIdempotent(t);
    CompactRoundsDown(t);
  }

  lemma NextDifficultyScheduled(nextHeight: nat, previous: seq<Header>, ts: Option<nat>, anchor: Option<Header>)
    requires previous != [] ==> CompactToTarget(previous[|previous| - 1].difficulty) >= 1
    ensures var d := NextDifficulty(nextHeight, previous, ts, anchor); d.Some? ==> Scheduled(d.value)
  {
    hide Scheduled;
    CompactScheduled(SANDGLASS_ANCHOR_TARGET);
    FloorIsGenesisTarget();
    GenesisScheduled();
    if previous != [] {
      hide Compact, CompactToTarget, AsertTarget;
      var parent := previous[|previous| - 1];
      CompactScheduled(Min(2 * CompactToTarget(parent.difficulty), FLOOR_TARGET));
      var t := ScheduledTarget(nextHeight, parent, anchor);
      if t.Some? {
        CompactScheduled(t.value);
      }
    }
  }

  lemma GenesisScheduled()
    ensures Scheduled(GENESIS_DIFFICULTY_COMPACT)
  {
    FloorIsGenesisTarget();
    hide CompactToTarget, Normalize, ShiftLeft;
    NormalizeExact(29, 0x2_0000);
    assert Pack(32, 0x2_0000) == GENESIS_DIFFICULTY_COMPACT;
    hide Pack;
    assert Compact(FLOOR_TARGET) == GENESIS_DIFFICULTY_COMPACT;
  }

  /** Expected attempts to find a block at a compact difficulty. */
  function BlockWork(difficulty: int): nat {
    var target := CompactToTarget(difficulty);
    if target <= 0 then 0 else TWO_256 / (target + 1)
  }

  lemma WorkPositive(difficulty: int)
    requires 1 <= CompactToTarget(difficulty) <= FLOOR_TARGET
    ensures BlockWork(difficulty) > 0
  {
    hide CompactToTarget;
    var d := CompactToTarget(difficulty) + 1;
    assert TWO_256 / d >= 1 by {
      DivAtLeastOne(TWO_256, d);
    }
  }

  lemma DivAtLeastOne(a: nat, d: nat)
    requires 0 < d <= a
    ensures a / d >= 1
  {
  }

  // ---- Median-time-past ----

  ghost predicate Ascending(s: seq<int>) {
    forall i, j :: 0 <= i <= j < |s| ==> s[i] <= s[j]
  }

  /** How many elements are at least `m`. */
  function CountAtLeast(s: seq<int>, m: int): nat {
    if s == [] then 0 else (if s[0] >= m then 1 else 0) + CountAtLeast(s[1..], m)
  }

  function Insert(x: int, s: seq<int>): seq<int> {
    if s == [] || x <= s[0] then [x] + s else [s[0]] + Insert(x, s[1..])
  }

  /** Ascending sort: the library call `ts.sort((a, b) => a - b)`. */
  function Sort(s: seq<int>): seq<int> {
    if s == [] then [] else Insert(s[0], Sort(s[1..]))
  }

  lemma {:induction false} InsertContents(x: int, s: seq<int>)
    ensures multiset(Insert(x, s)) == multiset(s) + multiset{x} && |Insert(x, s)| == |s| + 1
  {
    if s != [] && x > s[0] {
      InsertContents(x, s[1..]);
      assert s == [s[0]] + s[1..];
    }
  }

  lemma {:induction false} InsertAscends(x: int, s: seq<int>)
    requires Ascending(s)
    ensures Ascending(Insert(x, s))
    ensures forall k :: 0 <= k < |Insert(x, s)| ==> Insert(x, s)[k] >= x || Insert(x, s)[k] >= s[0]
  {
    if s != [] && x > s[0] {
      var rest := Insert(x, s[1..]);
      InsertAscends(x, s[1..]);
      hide Insert;
      assert Insert(x, s) == [s[0]] + rest by { InsertStep(x, s); }
    }
  }

  lemma InsertStep(x: int, s: seq<int>)
    requires s != [] && x > s[0]
    ensures Insert(x, s) == [s[0]] + Insert(x, s[1..])
  {
  }

  lemma {:induction false} InsertCounts(x: int, s: seq<int>, m: int)
    ensures CountAtLeast(Insert(x, s), m) == (if x >= m then 1 else 0) + CountAtLeast(s, m)
  {
    if s == [] || x <= s[0] {
      assert ([x] + s)[1..] == s;
    } else {
      InsertCounts(x, s[1..], m);
      assert Insert(x, s)[1..] == Insert(x, s[1..]);
    }
  }

  lemma {:induction false} SortSorts(s: seq<int>, m: int)
    ensures Ascending(Sort(s)) && |Sort(s)| == |s| && multiset(Sort(s)) == multiset(s)
    ensures CountAtLeast(Sort(s), m) == CountAtLeast(s, m)
  {
    if s != [] {
      SortSorts(s[1..], m);
      InsertContents(s[0], Sort(s[1..]));
      InsertAscends(s[0], Sort(s[1..]));
      InsertCounts(s[0], Sort(s[1..]), m);
      hide Insert, Ascending;
      assert s == [s[0]] + s[1..];
    }
  }

  /** In sorted order the element at rank `k` reaches `m` exactly when enough elements do. */
  lemma {:induction false} RankByCount(s: seq<int>, k: nat, m: int)
    requires Ascending(s) && k < |s|
    ensures s[k] >= m <==> CountAtLeast(s, m) >= |s| - k
  {
    if s[0] >= m {
      AllAtLeast(s, m);
    } else if k > 0 {
      RankByCount(s[1..], k - 1, m);
    } else {
      CountBounded(s[1..], m);
    }
  }

  lemma {:induction false} AllAtLeast(s: seq<int>, m: int)
    requires forall i :: 0 <= i < |s| ==> s[i] >= m
    ensures CountAtLeast(s, m) == |s|
  {
    if s != [] {
      AllAtLeast(s[1..], m);
    }
  }

  lemma {:induction false} CountBounded(s: seq<int>, m: int)
    ensures CountAtLeast(s, m) <= |s|
  {
    if s != [] {
      CountBounded(s[1..], m);
    }
  }

  lemma {:induction false} CountAppend(s: seq<int>, t: seq<int>, m: int)
    ensures CountAtLeast(s + t, m) == CountAtLeast(s, m) + CountAtLeast(t, m)
  {
    if s == [] {
      assert s + t == t;
    } else {
      CountAppend(s[1..], t, m);
      assert (s + t)[1..] == s[1..] + t;
    }
  }

  function Median(s: seq<int>): int
    requires s != []
  {
    SortSorts(s, 0);
    Sort(s)[|s| / 2]
  }

  /** The median reaches `m` exactly when more than the lower half does. */
  lemma MedianByCount(s: seq<int>, m: int)
    requires s != []
    ensures Median(s) >= m <==> CountAtLeast(s, m) >= |s| - |s| / 2
  {
    SortSorts(s, m);
    RankByCount(Sort(s), |s| / 2, m);
  }

  function Timestamps(headers: seq<Header>): (ts: seq<int>)
    ensures |ts| == |headers|
  {
    seq(|headers|, i requires 0 <= i < |headers| => headers[i].timestamp)
  }

  /** The median timestamp of the last eleven headers, or of all if there are fewer. */
  function MedianTimePast(headers: seq<Header>): int {
    if headers == [] then 0 else Median(Timestamps(Last(headers, MTP_WINDOW)))
  }

  /** `mtpUpTo` as written: collect the window, sort it, take the middle. */
  method MtpUpTo(headers: seq<Header>, endIdx: nat) returns (mtp: int)
    requires endIdx < |headers|
    ensures mtp == MedianTimePast(headers[..endIdx + 1])
  {
    var start := if endIdx + 1 < MTP_WINDOW then 0 else endIdx - MTP_WINDOW + 1;
    var ts: seq<int> := [];
    var i := start;
    while i <= endIdx
      invariant start <= i <= endIdx + 1
      invariant ts == Timestamps(headers[start..i])
    {
      ts := ts + [headers[i].timestamp];
      i := i + 1;
    }
    assert headers[start..i] == Last(headers[..endIdx + 1], MTP_WINDOW);
    SortSorts(ts, 0);
    var sorted := Sort(ts);
    mtp := sorted[|ts| / 2];
  }

  /** A longer window gives the same median-time-past. */
  lemma MtpWindow(chain: seq<Header>, n: nat)
    requires n >= MTP_WINDOW
    ensures MedianTimePast(Last(chain, n)) == MedianTimePast(chain)
  {
    assert Last(Last(chain, n), MTP_WINDOW) == Last(chain, MTP_WINDOW);
  }

  /** A block at or above median-time-past cannot pull it down, full window or not. */
  lemma MtpNeverFalls(chain: seq<Header>, h: Header)
    requires chain != [] && h.timestamp >= MedianTimePast(chain)
    ensures MedianTimePast(chain + [h]) >= MedianTimePast(chain)
  {
    var m := MedianTimePast(chain);
    var w, w' := Timestamps(Last(chain, MTP_WINDOW)), Timestamps(Last(chain + [h], MTP_WINDOW));
    MedianByCount(w, m);
    MedianByCount(w', m);
    if |chain| < MTP_WINDOW {
      assert w' == w + [h.timestamp as int];
      CountAppend(w, [h.timestamp], m);
    } else {
      assert w == [w[0]] + w[1..];
      assert w' == w[1..] + [h.timestamp as int];
      CountAppend([w[0]], w[1..], m);
      CountAppend(w[1..], [h.timestamp], m);
    }
  }
}
