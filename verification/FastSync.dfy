/** Headers-first sync: the rolling-window header verifier (src/net/fastSync.ts). */
module FastSync {
  import opened Genesis
  import opened Consensus
  import opened HeaderChain

  /** Why verification stopped, and at which index. */
  datatype SyncVerdict =
    | Accepted
    | HeightBroken(at: nat)
    | LinkBroken(at: nat)
    | ScheduleViolated(at: nat)
    | BelowMtp(at: nat)
    | TooFarAhead(at: nat)

  /** The branch a full node would hold before looking at header `i`. */
  function BranchBefore(headers: seq<Header>, i: nat): (branch: seq<Header>)
    requires i <= |headers|
    ensures |branch| == i + 1
  {
    [GENESIS_HEADER] + headers[..i]
  }

  /** Full validation of header `i` as a child of the one before it. */
  ghost predicate Passes(headers: seq<Header>, i: nat, now: int, hash: Header -> Bytes)
    requires i < |headers|
  {
    var branch := BranchBefore(headers, i);
    headers[i].prevHash == hash(branch[i]) && CheckHeader(branch, headers[i], now) == HeaderOk
  }

  ghost predicate AllPass(headers: seq<Header>, n: nat, now: int, hash: Header -> Bytes)
    requires n <= |headers|
  {
    forall i :: 0 <= i < n ==> Passes(headers, i, now, hash)
  }

  lemma PassingIsValid(headers: seq<Header>, n: nat, now: int, hash: Header -> Bytes)
    requires n <= |headers| && AllPass(headers, n, now, hash)
    ensures ValidBranch(BranchBefore(headers, n))
    ensures BranchBefore(headers, n)[n].height == n
  {
    hide CheckHeader;
    var branch := BranchBefore(headers, n);
    forall i | 1 <= i < |branch|
      ensures Extends(branch[..i], branch[i])
    {
      assert branch[..i] == BranchBefore(headers, i - 1);
      assert Passes(headers, i - 1, now, hash);
    }
    HeightIsIndex(branch, n);
  }

  /** Eleven headers and the captured anchor decide a header exactly as the full lookback does. */
  lemma WindowDecides(branch: seq<Header>, h: Header, now: int)
    requires ValidBranch(branch)
    ensures var window := Last(branch, MTP_WINDOW);
            var expected := NextDifficulty(h.height, window, Some(h.timestamp), AnchorOf(branch));
            var mtp := MedianTimePast(window);
      CheckHeader(branch, h, now) == HeaderOk <==>
        && h.height == branch[|branch| - 1].height + 1
        && expected == Some(h.difficulty)
        && !(mtp > 0 && h.timestamp <= mtp)
        && h.timestamp <= now + MAX_FUTURE_TIME_S
  {
    hide NextDifficulty, MedianTimePast, ValidBranch;
    NextDifficultyWindow(h.height, branch, RETARGET_LOOKBACK, Some(h.timestamp), AnchorOf(branch));
    NextDifficultyWindow(h.height, branch, MTP_WINDOW, Some(h.timestamp), AnchorOf(branch));
  }

  /** The schedule has an answer at the next height of a valid branch. */
  lemma NeverThrows(branch: seq<Header>, h: Header)
    requires ValidBranch(branch) && h.height == branch[|branch| - 1].height + 1
    ensures NextDifficulty(h.height, Last(branch, MTP_WINDOW), Some(h.timestamp), AnchorOf(branch)).Some?
  {
    hide NextDifficulty, MedianTimePast, ValidBranch;
    AnchorNeverMissing(branch, h, 0);
    NextDifficultyWindow(h.height, branch, RETARGET_LOOKBACK, Some(h.timestamp), AnchorOf(branch));
    NextDifficultyWindow(h.height, branch, MTP_WINDOW, Some(h.timestamp), AnchorOf(branch));
  }

  /** The window after one more header: append, then drop the oldest if it overflowed. */
  lemma WindowAdvances(branch: seq<Header>, h: Header)
    ensures var w := Last(branch, MTP_WINDOW) + [h];
      Last(branch + [h], MTP_WINDOW) == if |w| > MTP_WINDOW then w[1..] else w
  {
  }

  /**
   * The verification loop of fast sync. It accepts exactly the header sequences full validation
   * accepts one by one, and otherwise stops at the first header full validation rejects.
   */
  method VerifyHeaders(headers: seq<Header>, now: int, hash: Header -> Bytes)
    returns (verdict: SyncVerdict, hashes: seq<Bytes>)
    ensures verdict.Accepted? <==> AllPass(headers, |headers|, now, hash)
    ensures verdict.Accepted? ==> hashes == seq(|headers|, i requires 0 <= i < |headers| => hash(headers[i]))
    ensures !verdict.Accepted? ==>
      && verdict.at < |headers|
      && AllPass(headers, verdict.at, now, hash)
      && !Passes(headers, verdict.at, now, hash)
  {
    hide NextDifficulty, MedianTimePast, CheckHeader, ValidBranch;
    hashes := [];
    var prevHash := hash(GENESIS_HEADER);
    var window := [GENESIS_HEADER];
    var anchor: Option<Header> := None;
    var i := 0;
    while i < |headers|
      invariant 0 <= i <= |headers|
      invariant AllPass(headers, i, now, hash)
      invariant prevHash == hash(BranchBefore(headers, i)[i])
      invariant window == Last(BranchBefore(headers, i), MTP_WINDOW)
      invariant anchor == AnchorOf(BranchBefore(headers, i))
      invariant hashes == seq(i, k requires 0 <= k < i => hash(headers[k]))
    {
      var h := headers[i];
      ghost var branch := BranchBefore(headers, i);
      PassingIsValid(headers, i, now, hash);
      WindowDecides(branch, h, now);
      assert Passes(headers, i, now, hash) <==> h.prevHash == prevHash && CheckHeader(branch, h, now) == HeaderOk;
      if h.height != i + 1 {
        return HeightBroken(i), hashes;
      }
      if h.prevHash != prevHash {
        return LinkBroken(i), hashes;
      }
      var expected := NextDifficulty(h.height, window, Some(h.timestamp), anchor);
      NeverThrows(branch, h);
      if h.difficulty != expected.value {
        return ScheduleViolated(i), hashes;
      }
      var mtp := MedianTimePast(window);
      if mtp > 0 && h.timestamp <= mtp {
        return BelowMtp(i), hashes;
      }
      if h.timestamp > now + MAX_FUTURE_TIME_S {
        return TooFarAhead(i), hashes;
      }
      if h.height == SANDGLASS2_ANCHOR_HEIGHT {
        anchor := Some(h);
      }
      WindowAdvances(branch, h);
      assert BranchBefore(headers, i + 1) == branch + [h];
      prevHash := hash(h);
      hashes := hashes + [prevHash];
      window := window + [h];
      if |window| > MTP_WINDOW {
        window := window[1..];
      }
      i := i + 1;
    }
    verdict := Accepted;
  }
}
