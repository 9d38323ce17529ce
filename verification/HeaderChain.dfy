/**
 * Branches of headers, genesis first, and the header rules every block passes before its
 * transactions are looked at (src/chain/blockchain.ts, src/chain/consensus.ts).
 */
module HeaderChain {
  import opened Binary
  import opened Genesis
  import opened Asert
  import opened Consensus

  datatype HeaderVerdict = HeaderOk | BadHeight | MissingAnchor | BadDifficulty | TooFarInFuture | NotAboveMtp

  /** The fork-#3 anchor on a branch: its header at the anchor height, if the branch is that long. */
  function AnchorOf(branch: seq<Header>): Option<Header> {
    if |branch| <= SANDGLASS2_ANCHOR_HEIGHT then None else Some(branch[SANDGLASS2_ANCHOR_HEIGHT])
  }

  /** The header rules, in the order a full block is checked, for a child of the last header. */
  function CheckHeader(branch: seq<Header>, h: Header, now: int): HeaderVerdict
    requires branch != []
  {
    var expected := NextDifficulty(h.height, Last(branch, RETARGET_LOOKBACK), Some(h.timestamp), AnchorOf(branch));
    var mtp := MedianTimePast(Last(branch, MTP_WINDOW));
    if h.height != branch[|branch| - 1].height + 1 then BadHeight
    else if expected.None? then MissingAnchor
    else if h.difficulty != expected.value then BadDifficulty
    else if h.timestamp > now + MAX_FUTURE_TIME_S then TooFarInFuture
    else if mtp > 0 && h.timestamp <= mtp then NotAboveMtp
    else HeaderOk
  }

  /** Accepted by some clock: the rules of a header except the one that looks at the wall clock. */
  ghost predicate Extends(branch: seq<Header>, h: Header)
    requires branch != []
  {
    exists now :: CheckHeader(branch, h, now) == HeaderOk
  }

  /** A branch from genesis on which every header was accepted when it arrived. */
  ghost predicate ValidBranch(branch: seq<Header>) {
    && branch != []
    && branch[0] == GENESIS_HEADER
    && forall i :: 1 <= i < |branch| ==> Extends(branch[..i], branch[i])
  }

  lemma StartsAtGenesis(branch: seq<Header>)
    requires ValidBranch(branch)
    ensures branch != [] && branch[0] == GENESIS_HEADER
  {
    hide Extends;
  }

  lemma ValidSnoc(branch: seq<Header>, h: Header)
    requires ValidBranch(branch) && Extends(branch, h)
    ensures ValidBranch(branch + [h])
  {
    hide Extends;
    forall i | 1 <= i < |branch| + 1
      ensures Extends((branch + [h])[..i], (branch + [h])[i])
    {
      assert (branch + [h])[..i] == branch[..i];
      assert branch[..|branch|] == branch;
    }
  }

  lemma {:induction false} HeightIsIndex(branch: seq<Header>, i: nat)
    requires ValidBranch(branch) && i < |branch|
    ensures branch[i].height == i
  {
    if i > 0 {
      HeightIsIndex(branch, i - 1);
      assert Extends(branch[..i], branch[i]);
      hide NextDifficulty, MedianTimePast;
    }
  }

  lemma ExtendsScheduled(before: seq<Header>, h: Header)
    requires before != [] && CompactToTarget(before[|before| - 1].difficulty) >= 1 && Extends(before, h)
    ensures Scheduled(h.difficulty)
  {
    hide NextDifficulty, MedianTimePast, CompactToTarget, Scheduled;
    var window := Last(before, RETARGET_LOOKBACK);
    assert window[|window| - 1] == before[|before| - 1];
    NextDifficultyScheduled(h.height, window, Some(h.timestamp), AnchorOf(before));
  }

  /** Every difficulty on a valid branch is canonical, for a target in [1, floor]; so every block adds work. */
  lemma {:induction false} DifficultyScheduled(branch: seq<Header>, i: nat)
    requires ValidBranch(branch) && i < |branch|
    ensures Scheduled(branch[i].difficulty) && BlockWork(branch[i].difficulty) > 0
  {
    hide Canonical, BlockWork, Extends, CompactToTarget;
    if i == 0 {
      GenesisScheduled();
    } else {
      DifficultyScheduled(branch, i - 1);
      assert Extends(branch[..i], branch[i]);
      ExtendsScheduled(branch[..i], branch[i]);
    }
    WorkPositive(branch[i].difficulty);
  }

  lemma ScheduleAnswers(nextHeight: nat, previous: seq<Header>, ts: Option<nat>, anchor: Option<Header>)
    requires previous != []
    requires nextHeight > SANDGLASS2_ANCHOR_HEIGHT ==> anchor.Some? && anchor.value.height == SANDGLASS2_ANCHOR_HEIGHT
    ensures NextDifficulty(nextHeight, previous, ts, anchor).Some?
  {
    hide Emergency, Compact, CompactToTarget, AsertTarget, Fork2Band;
  }

  /** The missing-anchor error is unreachable: past the anchor height the branch contains the anchor. */
  lemma AnchorNeverMissing(branch: seq<Header>, h: Header, now: int)
    requires ValidBranch(branch)
    ensures CheckHeader(branch, h, now) != MissingAnchor
  {
    hide ValidBranch, NextDifficulty, MedianTimePast;
    StartsAtGenesis(branch);
    HeightIsIndex(branch, |branch| - 1);
    if |branch| > SANDGLASS2_ANCHOR_HEIGHT {
      HeightIsIndex(branch, SANDGLASS2_ANCHOR_HEIGHT);
    }
    if h.height == branch[|branch| - 1].height + 1 {
      ScheduleAnswers(h.height, Last(branch, RETARGET_LOOKBACK), Some(h.timestamp), AnchorOf(branch));
    }
  }

  lemma AnchorIsFixedPoint(anchor: Header)
    requires anchor.height == SANDGLASS2_ANCHOR_HEIGHT && Scheduled(anchor.difficulty)
    ensures ScheduledTarget(SANDGLASS2_ANCHOR_HEIGHT + 1, anchor, Some(anchor)) == Some(CompactToTarget(anchor.difficulty))
  {
    hide CompactToTarget, AsertTarget, Canonical, Fork2Band;
    AsertZeroDrift(anchor.height, anchor.timestamp, anchor.height, anchor.timestamp, CompactToTarget(anchor.difficulty));
  }

  /** Outside the emergency branch, the first block above the anchor carries its difficulty bit for bit. */
  lemma AnchorDifficultyCarries(branch: seq<Header>, h: Header)
    requires ValidBranch(branch) && |branch| == SANDGLASS2_ANCHOR_HEIGHT + 1
    requires Extends(branch, h)
    requires !Emergency(branch, Some(h.timestamp))
    ensures h.difficulty == branch[SANDGLASS2_ANCHOR_HEIGHT].difficulty
  {
    hide Compact, CompactToTarget, MedianTimePast, Emergency, ScheduledTarget;
    var anchor := branch[SANDGLASS2_ANCHOR_HEIGHT];
    HeightIsIndex(branch, SANDGLASS2_ANCHOR_HEIGHT);
    assert Scheduled(anchor.difficulty) by {
      hide BlockWork;
      DifficultyScheduled(branch, SANDGLASS2_ANCHOR_HEIGHT);
    }
    AnchorIsFixedPoint(anchor);
    NextDifficultyWindow(h.height, branch, RETARGET_LOOKBACK, Some(h.timestamp), Some(anchor));
  }

  // ---- Median-time-past along a branch ----

  lemma MtpOfGenesis()
    ensures MedianTimePast([GENESIS_HEADER]) == GENESIS_TIMESTAMP
  {
    var w := Timestamps(Last([GENESIS_HEADER], MTP_WINDOW));
    assert w == [GENESIS_TIMESTAMP];
    SortSorts(w, 0);
    assert Sort(w) == w;
  }

  lemma ExtendsAboveMtp(branch: seq<Header>, h: Header)
    requires branch != [] && Extends(branch, h) && MedianTimePast(branch) > 0
    ensures h.timestamp > MedianTimePast(branch)
  {
    hide NextDifficulty, MedianTimePast;
    MtpWindow(branch, MTP_WINDOW);
  }

  lemma MtpStep(branch: seq<Header>, j: nat)
    requires ValidBranch(branch) && 1 <= j < |branch| && MedianTimePast(branch[..j]) > 0
    ensures MedianTimePast(branch[..j]) <= MedianTimePast(branch[..j + 1])
  {
    hide Extends, MedianTimePast;
    assert branch[..j + 1] == branch[..j] + [branch[j]];
    ExtendsAboveMtp(branch[..j], branch[j]);
    MtpNeverFalls(branch[..j], branch[j]);
  }

  /** Median-time-past never decreases along a branch, also while the window is still filling. */
  lemma {:induction false} MtpMonotone(branch: seq<Header>, i: nat, j: nat)
    requires ValidBranch(branch) && 1 <= i <= j <= |branch|
    ensures GENESIS_TIMESTAMP <= MedianTimePast(branch[..i]) <= MedianTimePast(branch[..j])
    decreases j
  {
    hide MedianTimePast, ValidBranch;
    if j == 1 {
      assert branch[..1] == [GENESIS_HEADER] by { StartsAtGenesis(branch); }
      MtpOfGenesis();
    } else {
      MtpMonotone(branch, if i < j then i else j - 1, j - 1);
      MtpStep(branch, j - 1);
    }
  }

  /** Once script transactions are active for a block, they are for every descendant. */
  lemma ScriptsStayActive(branch: seq<Header>, i: nat, j: nat)
    requires ValidBranch(branch) && 1 <= i <= j <= |branch|
    requires ScriptsActive(MedianTimePast(branch[..i]))
    ensures ScriptsActive(MedianTimePast(branch[..j]))
  {
    MtpMonotone(branch, i, j);
  }
}
