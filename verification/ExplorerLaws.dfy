/** The incrementally maintained index equals the index rebuilt from genesis, or is marked stale. */
module ExplorerLaws {
  import opened Genesis
  import opened Transactions
  import opened Explorer

  // ---- What a rebuilt index contains ----

  lemma {:induction false} EffectsToOfBlock(b: Shown, n: nat)
    requires n <= |b.block.transactions|
    ensures OfBlock(EffectsTo(b, n), b.hash)
  {
    if n > 0 {
      EffectsToOfBlock(b, n - 1);
      assert OfBlock(TxEffects(b, n - 1), b.hash);
    }
  }

  /** Every address has history, and all of it points into the listed blocks at no more than a height. */
  ghost predicate RefsInto(m: map<Bytes, AddressStats>, hashes: set<Bytes>, height: int) {
    forall a :: a in m ==> m[a].refs != [] && forall i :: 0 <= i < |m[a].refs| ==>
      m[a].refs[i].blockHash in hashes && m[a].refs[i].height <= height
  }

  ghost predicate Ascending(refs: seq<TxRef>) {
    forall i, j :: 0 <= i <= j < |refs| ==> refs[i].height <= refs[j].height
  }

  ghost predicate AllAscending(m: map<Bytes, AddressStats>) {
    forall a :: a in m ==> Ascending(m[a].refs)
  }

  lemma {:induction false} DoAllRefs(m: map<Bytes, AddressStats>, es: seq<Effect>, hashes: set<Bytes>, hash: Bytes, height: nat)
    requires RefsInto(m, hashes, height) && AllAscending(m) && hash in hashes
    requires forall i :: 0 <= i < |es| ==> es[i].ref.blockHash == hash && es[i].ref.height == height
    ensures RefsInto(DoAll(m, es), hashes, height) && AllAscending(DoAll(m, es))
    decreases |es|
  {
    if es != [] {
      var m1 := Do(m, es[0]);
      forall a | a in m1
        ensures m1[a].refs != [] && Ascending(m1[a].refs)
        ensures forall i :: 0 <= i < |m1[a].refs| ==> m1[a].refs[i].blockHash in hashes && m1[a].refs[i].height <= height
      {
        if a in m {
          assert Ascending(m[a].refs);
        }
      }
      DoAllRefs(m1, es[1..], hashes, hash, height);
    }
  }

  lemma {:induction false} EffectsRefs(b: Shown, n: nat)
    requires n <= |b.block.transactions|
    ensures forall i :: 0 <= i < |EffectsTo(b, n)| ==>
      EffectsTo(b, n)[i].ref.blockHash == b.hash && EffectsTo(b, n)[i].ref.height == b.block.header.height
  {
    if n > 0 {
      EffectsRefs(b, n - 1);
    }
  }

  ghost predicate Carries(b: Shown, txHash: Transaction -> Bytes, k: Bytes) {
    b.hasBody && exists p :: 0 <= p < |b.block.transactions| && txHash(b.block.transactions[p]) == k
  }

  /** A branch to index, newest first: heights down to 0, block hashes apart, and no transaction in two of its blocks. */
  ghost predicate BranchOk(line: seq<Shown>, txHash: Transaction -> Bytes) {
    && (forall i :: 0 <= i < |line| ==> line[i].block.header.height == |line| - 1 - i)
    && (forall i, j :: 0 <= i < j < |line| ==> line[i].hash != line[j].hash)
    && TxsApart(line, txHash)
  }

  ghost predicate TxsApart(line: seq<Shown>, txHash: Transaction -> Bytes) {
    forall i, j, k :: 0 <= i < j < |line| && Carries(line[i], txHash, k) ==> !Carries(line[j], txHash, k)
  }

  lemma BranchOkRest(line: seq<Shown>, txHash: Transaction -> Bytes)
    requires BranchOk(line, txHash) && line != []
    ensures BranchOk(line[1..], txHash) && line[0].block.header.height == |line| - 1
  {
    hide Carries;
  }

  ghost function HashesOf(branch: seq<Shown>): set<Bytes> {
    set i | 0 <= i < |branch| :: branch[i].hash
  }

  lemma {:induction false} LocateKeys(m: map<Bytes, TxLocation>, b: Shown, txHash: Transaction -> Bytes, n: nat)
    requires n <= |b.block.transactions|
    ensures forall k :: k in LocateAll(m, b, txHash, n) <==> k in m || exists p :: 0 <= p < n && txHash(b.block.transactions[p]) == k
  {
    if n > 0 {
      LocateKeys(m, b, txHash, n - 1);
    }
  }

  /** The invariant of a rebuilt index. */
  ghost predicate Describes(x: Index, line: seq<Shown>, txHash: Transaction -> Bytes) {
    && RefsInto(x.byAddress, HashesOf(line), |line| - 1)
    && AllAscending(x.byAddress)
    && (forall h :: h in x.heightToHash <==> 1 <= h < |line|)
    && (forall k :: k in x.txLoc ==> exists i :: 0 <= i < |line| && Carries(line[i], txHash, k))
  }

  lemma {:induction false} BuildDescribes(line: seq<Shown>, txHash: Transaction -> Bytes)
    requires BranchOk(line, txHash)
    ensures Describes(Build(line, txHash), line, txHash)
  {
    if line != [] {
      BranchOkRest(line, txHash);
      BuildDescribes(line[1..], txHash);
      hide BranchOk;
      DescribesNext(Build(line[1..], txHash), line[1..], line[0], txHash);
      assert [line[0]] + line[1..] == line;
    }
  }

  lemma RefsIntoMore(m: map<Bytes, AddressStats>, hashes: set<Bytes>, hashes': set<Bytes>, height: int, height': int)
    requires RefsInto(m, hashes, height) && hashes <= hashes' && height <= height'
    ensures RefsInto(m, hashes', height')
  {
  }

  lemma DescribesNext(x: Index, rest: seq<Shown>, b: Shown, txHash: Transaction -> Bytes)
    requires Describes(x, rest, txHash) && b.block.header.height == |rest|
    ensures Describes(IndexBlock(x, b, txHash), [b] + rest, txHash)
  {
    var n, line := |rest|, [b] + rest;
    var x' := IndexBlock(x, b, txHash);
    assert HashesOf(rest) <= HashesOf(line) by {
      forall h | h in HashesOf(rest)
        ensures h in HashesOf(line)
      {
        var i :| 0 <= i < |rest| && rest[i].hash == h;
        assert line[i + 1].hash == h;
      }
    }
    RefsIntoMore(x.byAddress, HashesOf(rest), HashesOf(line), n - 1, n);
    if n > 0 && b.hasBody {
      assert line[0].hash in HashesOf(line);
      EffectsRefs(b, |b.block.transactions|);
      DoAllRefs(x.byAddress, Effects(b), HashesOf(line), b.hash, n);
      LocateKeys(x.txLoc, b, txHash, |b.block.transactions|);
    }
    hide DoAll, Effects, RefsInto, AllAscending, HashesOf, LocateAll;
    forall k | k in x'.txLoc
      ensures exists i :: 0 <= i < |line| && Carries(line[i], txHash, k)
    {
      if k in x.txLoc {
        var i :| 0 <= i < |rest| && Carries(rest[i], txHash, k);
        assert line[i + 1] == rest[i];
      } else {
        assert Carries(line[0], txHash, k);
      }
    }
  }

  // ---- What lookups answer ----

  /** The location names a block of the branch and the place in it of a transaction with this hash. */
  ghost predicate Located(line: seq<Shown>, txHash: Transaction -> Bytes, k: Bytes, loc: TxLocation) {
    exists i {:trigger line[i]} :: 0 <= i < |line| && line[i].hash == loc.blockHash && line[i].block.header.height == loc.height
      && line[i].hasBody && loc.txIndex < |line[i].block.transactions| && txHash(line[i].block.transactions[loc.txIndex]) == k
  }

  ghost predicate Lookups(x: Index, line: seq<Shown>, txHash: Transaction -> Bytes) {
    && (forall h :: h in x.heightToHash ==> h < |line| && x.heightToHash[h] == line[|line| - 1 - h].hash)
    && (forall k :: k in x.txLoc ==> Located(line, txHash, k, x.txLoc[k]))
    && (forall i, k :: 0 <= i < |line| - 1 && Carries(line[i], txHash, k) ==> k in x.txLoc)
  }

  lemma {:induction false} LocateValues(m: map<Bytes, TxLocation>, b: Shown, txHash: Transaction -> Bytes, n: nat, k: Bytes)
    requires n <= |b.block.transactions| && k in LocateAll(m, b, txHash, n)
    ensures var loc := LocateAll(m, b, txHash, n)[k];
      || (k in m && loc == m[k])
      || (loc.blockHash == b.hash && loc.height == b.block.header.height
          && loc.txIndex < n && txHash(b.block.transactions[loc.txIndex]) == k)
  {
    if n > 0 && k != txHash(b.block.transactions[n - 1]) {
      LocateValues(m, b, txHash, n - 1, k);
    }
  }

  lemma LocatedMore(line: seq<Shown>, b: Shown, txHash: Transaction -> Bytes, k: Bytes, loc: TxLocation)
    requires Located(line, txHash, k, loc)
    ensures Located([b] + line, txHash, k, loc)
  {
    var i :| 0 <= i < |line| && line[i].hash == loc.blockHash && line[i].block.header.height == loc.height
      && line[i].hasBody && loc.txIndex < |line[i].block.transactions| && txHash(line[i].block.transactions[loc.txIndex]) == k;
    assert ([b] + line)[i + 1] == line[i];
  }

  lemma LookupsNext(x: Index, rest: seq<Shown>, b: Shown, txHash: Transaction -> Bytes)
    requires Lookups(x, rest, txHash) && b.block.header.height == |rest|
    ensures Lookups(IndexBlock(x, b, txHash), [b] + rest, txHash)
  {
    var line, x' := [b] + rest, IndexBlock(x, b, txHash);
    var n := |b.block.transactions|;
    LocateKeys(x.txLoc, b, txHash, n);
    hide DoAll, Effects, Located, LocateAll;
    forall h | h in x'.heightToHash
      ensures h < |line| && x'.heightToHash[h] == line[|line| - 1 - h].hash
    {
      assert h < |rest| ==> line[|line| - 1 - h] == rest[|rest| - 1 - h];
    }
    forall k | k in x'.txLoc
      ensures Located(line, txHash, k, x'.txLoc[k])
    {
      LocatedNext(x, rest, b, txHash, k);
    }
    forall i, k | 0 <= i < |line| - 1 && Carries(line[i], txHash, k)
      ensures k in x'.txLoc
    {
      assert i > 0 ==> line[i] == rest[i - 1];
    }
  }

  lemma LocatedNext(x: Index, rest: seq<Shown>, b: Shown, txHash: Transaction -> Bytes, k: Bytes)
    requires Lookups(x, rest, txHash) && b.block.header.height == |rest| && k in IndexBlock(x, b, txHash).txLoc
    ensures Located([b] + rest, txHash, k, IndexBlock(x, b, txHash).txLoc[k])
  {
    hide DoAll, Effects, LocateAll;
    var loc := IndexBlock(x, b, txHash).txLoc[k];
    if |rest| > 0 && b.hasBody {
      LocateValues(x.txLoc, b, txHash, |b.block.transactions|, k);
    }
    if k in x.txLoc && loc == x.txLoc[k] {
      LocatedMore(rest, b, txHash, k, loc);
    } else {
      assert ([b] + rest)[0] == b;
    }
  }

  /** By height: the branch's block there. By transaction hash: where the branch has it, if above genesis. */
  lemma {:induction false} LookupsExact(line: seq<Shown>, txHash: Transaction -> Bytes)
    requires BranchOk(line, txHash)
    ensures Lookups(Build(line, txHash), line, txHash)
  {
    if line != [] {
      BranchOkRest(line, txHash);
      LookupsExact(line[1..], txHash);
      hide BranchOk, Lookups;
      LookupsNext(Build(line[1..], txHash), line[1..], line[0], txHash);
      assert [line[0]] + line[1..] == line;
    }
  }

  // ---- Unindexing inverts indexing ----

  /** Nothing in the index speaks of the block yet. */
  ghost predicate FreshFor(x: Index, b: Shown, txHash: Transaction -> Bytes) {
    && b.block.header.height !in x.heightToHash
    && AllLive(x.byAddress, b.hash)
    && forall k :: Carries(b, txHash, k) ==> k !in x.txLoc
  }

  lemma {:induction false} UnlocateFresh(m: map<Bytes, TxLocation>, b: Shown, txHash: Transaction -> Bytes, n: nat)
    requires n <= |b.block.transactions|
    requires forall p :: 0 <= p < |b.block.transactions| ==> txHash(b.block.transactions[p]) !in m
    ensures UnlocateAll(LocateAll(m, b, txHash, |b.block.transactions|), b, txHash, n)
         == LocateAll(m, b, txHash, |b.block.transactions|) - (set p | 0 <= p < n :: txHash(b.block.transactions[p]))
  {
    if n > 0 {
      UnlocateFresh(m, b, txHash, n - 1);
    }
  }

  lemma LocateUnlocate(m: map<Bytes, TxLocation>, b: Shown, txHash: Transaction -> Bytes)
    requires forall p :: 0 <= p < |b.block.transactions| ==> txHash(b.block.transactions[p]) !in m
    ensures UnlocateAll(LocateAll(m, b, txHash, |b.block.transactions|), b, txHash, |b.block.transactions|) == m
  {
    var n := |b.block.transactions|;
    UnlocateFresh(m, b, txHash, n);
    LocateKeys(m, b, txHash, n);
    LocateKeeps(m, b, txHash, n);
  }

  lemma {:induction false} LocateKeeps(m: map<Bytes, TxLocation>, b: Shown, txHash: Transaction -> Bytes, n: nat)
    requires n <= |b.block.transactions|
    requires forall p :: 0 <= p < |b.block.transactions| ==> txHash(b.block.transactions[p]) !in m
    ensures forall k :: k in m ==> k in LocateAll(m, b, txHash, n) && LocateAll(m, b, txHash, n)[k] == m[k]
  {
    if n > 0 {
      LocateKeeps(m, b, txHash, n - 1);
    }
  }

  /** Exact inverse, also when miner, senders and recipients coincide. */
  lemma UnindexInvertsIndex(x: Index, b: Shown, txHash: Transaction -> Bytes)
    requires FreshFor(x, b, txHash)
    ensures UnindexBlock(IndexBlock(x, b, txHash), b, txHash) == x
  {
    var h := b.block.header.height;
    if h > 0 {
      assert x.heightToHash[h := b.hash] - {h} == x.heightToHash;
      if b.hasBody {
        EffectsToOfBlock(b, |b.block.transactions|);
        UndoneEverywhere(x.byAddress, Effects(b), b.hash);
        forall p | 0 <= p < |b.block.transactions|
          ensures txHash(b.block.transactions[p]) !in x.txLoc
        {
          assert Carries(b, txHash, txHash(b.block.transactions[p]));
        }
        LocateUnlocate(x.txLoc, b, txHash);
        hide DoAll, UndoAll, Effects, LocateAll, UnlocateAll;
      }
    }
  }

  /** On a branch, the newest block's contribution comes off cleanly. */
  lemma UnindexNewest(line: seq<Shown>, txHash: Transaction -> Bytes)
    requires BranchOk(line, txHash) && line != []
    ensures UnindexBlock(Build(line, txHash), line[0], txHash) == Build(line[1..], txHash)
  {
    var x := Build(line[1..], txHash);
    BranchOkRest(line, txHash);
    BuildDescribes(line[1..], txHash);
    FreshOnBranch(x, line, txHash);
    hide FreshFor, IndexBlock, UnindexBlock, Describes, BranchOk;
    UnindexInvertsIndex(x, line[0], txHash);
  }

  lemma FreshOnBranch(x: Index, line: seq<Shown>, txHash: Transaction -> Bytes)
    requires BranchOk(line, txHash) && line != [] && Describes(x, line[1..], txHash)
    ensures FreshFor(x, line[0], txHash)
  {
    var rest, b := line[1..], line[0];
    forall a | a in x.byAddress
      ensures x.byAddress[a].refs != [] && NoneInto(x.byAddress[a].refs, b.hash)
    {
      forall i | 0 <= i < |x.byAddress[a].refs|
        ensures x.byAddress[a].refs[i].blockHash != b.hash
      {
        var j :| 0 <= j < |rest| && rest[j].hash == x.byAddress[a].refs[i].blockHash;
        assert line[j + 1] == rest[j];
      }
    }
    forall k | k in x.txLoc
      ensures !Carries(b, txHash, k)
    {
      var i :| 0 <= i < |rest| && Carries(rest[i], txHash, k);
      assert line[i + 1] == rest[i];
    }
    hide Carries, Ascending;
  }

  /** Unwinding the newest `n` blocks leaves the index of the rest. */
  lemma {:induction false} UnwindExact(line: seq<Shown>, txHash: Transaction -> Bytes, n: nat)
    requires BranchOk(line, txHash) && n <= |line|
    ensures UnindexMany(Build(line, txHash), line[..n], txHash) == Build(line[n..], txHash)
    decreases n
  {
    if n == 0 {
      assert line[0..] == line;
    } else {
      UnindexNewest(line, txHash);
      BranchOkRest(line, txHash);
      hide BranchOk, Build, UnindexBlock;
      UnwindExact(line[1..], txHash, n - 1);
      assert line[..n][1..] == line[1..][..n - 1] && line[1..][n - 1..] == line[n..];
    }
  }

  lemma {:induction false} WindExact(rest: seq<Shown>, bs: seq<Shown>, txHash: Transaction -> Bytes)
    ensures IndexMany(Build(rest, txHash), bs, txHash) == Build(bs + rest, txHash)
  {
    if bs == [] {
      assert bs + rest == rest;
    } else {
      WindExact(rest, bs[1..], txHash);
      assert (bs + rest)[1..] == bs[1..] + rest;
    }
  }
}
