/** The difficulty schedule as targets, era by era, and what a difficulty is worth (src/chain/consensus.ts). */
module DifficultyRules {
  import opened Binary
  import opened Genesis
  import opened Asert
  import opened Consensus

  /** The compact stands for `target`, rounded down by less than one part in 2^15. */
  ghost predicate StandsFor(compact: int, target: int) {
    var r := CompactToTarget(compact);
    0 < r <= target && (target - r) * 0x8000 < target
  }

  lemma CompactStandsFor(target: int)
    requires 0 < target <= FLOOR_TARGET
    ensures StandsFor(Compact(target), target)
  {
    hide Compact, CompactToTarget;
    CompactRoundsDown(target);
  }

  /** The target of the Sandglass fork: an expected five million attempts. */
  const RESET: nat := TWO_256 / 5_000_000

  /** Both the parent and the candidate took more than fifteen minutes, and the grandparent is not genesis. */
  predicate TwoSlowBlocks(previous: seq<Header>, timestamp: nat) {
    && |previous| >= 2
    && previous[|previous| - 2].height > 0
    && previous[|previous| - 1].timestamp - previous[|previous| - 2].timestamp > 900
    && timestamp - previous[|previous| - 1].timestamp > 900
  }

  /** After two slow blocks the target is twice the parent's, but no easier than the floor. */
  lemma EmergencyDoubles(height: nat, previous: seq<Header>, timestamp: nat, anchor: Option<Header>)
    requires height > 0 && height != 33_550 && TwoSlowBlocks(previous, timestamp)
    requires CompactToTarget(previous[|previous| - 1].difficulty) > 0
    ensures var d, parent := NextDifficulty(height, previous, Some(timestamp), anchor), previous[|previous| - 1];
      var twice := 2 * CompactToTarget(parent.difficulty);
      d.Some? && StandsFor(d.value, if twice < FLOOR_TARGET then twice else FLOOR_TARGET)
  {
    hide CompactToTarget, Compact, StandsFor;
    var twice := 2 * CompactToTarget(previous[|previous| - 1].difficulty);
    CompactStandsFor(Min(twice, FLOOR_TARGET));
  }

  /** The ASERT target an ordinary block is held to, in each of the three eras. */
  function EraTarget(height: nat, parent: Header, anchor: Header): int {
    if height > 35_550 then
      AsertTarget(parent.height, parent.timestamp, 35_550, anchor.timestamp, CompactToTarget(anchor.difficulty))
    else if height > 33_550 then
      var t := AsertTarget(parent.height, parent.timestamp, 33_550, 1_784_721_600, RESET);
      if 4 * RESET < t then 4 * RESET else if t < RESET / 4 then RESET / 4 else t
    else AsertTarget(parent.height, parent.timestamp, 0, 1_779_700_000, FLOOR_TARGET)
  }

  lemma EraTargetInRange(height: nat, parent: Header, anchor: Header)
    ensures 0 < EraTarget(height, parent, anchor) <= FLOOR_TARGET
  {
    hide Scaled, CompactToTarget;
  }

  /**
   * Any other block carries its era's target: from genesis before the Sandglass fork, which itself carries the
   * reset, then from the reset within a factor of four, then from the branch's own block 35,550.
   */
  lemma ScheduleByEra(height: nat, previous: seq<Header>, timestamp: nat, anchor: Header)
    requires previous != [] && height > 0 && anchor.height == 35_550
    ensures var d := NextDifficulty(height, previous, Some(timestamp), Some(anchor));
      && d.Some?
      && (height == 33_550 ==> StandsFor(d.value, RESET))
      && (height != 33_550 && !TwoSlowBlocks(previous, timestamp) ==>
            StandsFor(d.value, EraTarget(height, previous[|previous| - 1], anchor)))
  {
    hide CompactToTarget, Compact, StandsFor, AsertTarget;
    EraTargetInRange(height, previous[|previous| - 1], anchor);
    CompactStandsFor(RESET);
    CompactStandsFor(EraTarget(height, previous[|previous| - 1], anchor));
  }

  /** Before the anchor exists, and only then, nobody needs it. */
  lemma AnchorNeeded(height: nat, previous: seq<Header>, timestamp: nat, anchor: Option<Header>)
    requires previous != [] && height > 0 && !TwoSlowBlocks(previous, timestamp)
    ensures NextDifficulty(height, previous, Some(timestamp), anchor).None?
       <==> height > 35_550 && (anchor.None? || anchor.value.height != 35_550)
  {
    hide CompactToTarget, Compact, AsertTarget;
  }

  /** The work of a block is the number of attempts its target takes, rounded down. */
  lemma WorkIsExpectedAttempts(difficulty: int)
    requires CompactToTarget(difficulty) > 0
    ensures var t, w := CompactToTarget(difficulty), BlockWork(difficulty);
      w * (t + 1) <= TWO_256 < (w + 1) * (t + 1)
  {
    hide CompactToTarget;
    QuotientLaw(TWO_256, CompactToTarget(difficulty) + 1);
  }

  lemma QuotientLaw(n: nat, d: nat)
    requires d > 0
    ensures (n / d) * d <= n < (n / d + 1) * d
  {
    assert n == d * (n / d) + n % d;
  }

  // ---- Clocks ----

  /** Median-time-past reaches `m` exactly when at least six of the last eleven blocks do. */
  lemma SixOfEleven(headers: seq<Header>, m: int)
    requires |headers| >= 11
    ensures MedianTimePast(headers) >= m <==> CountAtLeast(Timestamps(headers[|headers| - 11..]), m) >= 6
  {
    hide Median, CountAtLeast;
    MedianByCount(Timestamps(Last(headers, MTP_WINDOW)), m);
  }

  /** Scripts wait for median-time-past, not for a height. */
  lemma ActivationTime(mtp: int)
    ensures ScriptsActive(mtp) <==> mtp >= 1_783_267_200
  {
  }
}
