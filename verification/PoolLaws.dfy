/** What admission, replacement, eviction and pruning keep, and where pruning falls short. */
module PoolLaws {
  import opened Genesis
  import opened Transactions
  import opened Ledger
  import opened Pool
  import opened Selection

  // ---- Deletion ----

  ghost predicate Apart(pool: seq<PoolEntry>) {
    forall i, j :: 0 <= i < j < |pool| ==> pool[i].hash != pool[j].hash && !Rivals(pool[i].tx, pool[j].tx)
  }

  lemma {:induction false} RetainLaws(es: seq<PoolEntry>, keep: PoolEntry -> bool)
    ensures |Retain(es, keep)| <= |es|
    ensures forall e :: e in Retain(es, keep) <==> e in es && keep(e)
    ensures Apart(es) ==> Apart(Retain(es, keep))
  {
    if es != [] {
      RetainLaws(es[1..], keep);
      assert es == [es[0]] + es[1..];
      var rest, r := Retain(es[1..], keep), Retain(es, keep);
      if Apart(es) && keep(es[0]) {
        assert Apart(es[1..]);
        ApartCons(es, rest);
      } else if Apart(es) {
        assert Apart(es[1..]);
      }
    }
  }

  lemma ApartCons(es: seq<PoolEntry>, rest: seq<PoolEntry>)
    requires es != [] && Apart(es) && Apart(rest) && forall e :: e in rest ==> e in es[1..]
    ensures Apart([es[0]] + rest)
  {
    hide Rivals;
    forall j | 0 <= j < |rest|
      ensures es[0].hash != rest[j].hash && !Rivals(es[0].tx, rest[j].tx)
    {
      assert rest[j] in rest;
      var k :| 0 <= k < |es[1..]| && es[1..][k] == rest[j];
      assert es[k + 1] == rest[j];
    }
  }

  lemma {:induction false} DeleteIsRetain(pool: seq<PoolEntry>, hash: Bytes)
    ensures Delete(pool, hash) == Retain(pool, (e: PoolEntry) => e.hash != hash)
  {
    if pool != [] {
      DeleteIsRetain(pool[1..], hash);
    }
  }

  /** Deleting an entry of the pool by its hash takes out that entry and nothing else. */
  lemma DeleteExact(pool: seq<PoolEntry>, e: PoolEntry)
    requires Apart(pool) && e in pool
    ensures Apart(Delete(pool, e.hash)) && |Delete(pool, e.hash)| == |pool| - 1
    ensures forall x :: x in Delete(pool, e.hash) <==> x in pool && x != e
  {
    var keep := (x: PoolEntry) => x.hash != e.hash;
    DeleteIsRetain(pool, e.hash);
    RetainLaws(pool, keep);
    DeleteShrinks(pool, e);
    hide Delete, Retain, Rivals;
    forall x | x in pool && x.hash == e.hash
      ensures x == e
    {
      var i :| 0 <= i < |pool| && pool[i] == x;
      var j :| 0 <= j < |pool| && pool[j] == e;
    }
  }

  lemma {:induction false} DeleteShrinks(pool: seq<PoolEntry>, e: PoolEntry)
    requires Apart(pool) && e in pool
    ensures |Delete(pool, e.hash)| == |pool| - 1
  {
    hide Rivals;
    assert pool == [pool[0]] + pool[1..];
    assert Apart(pool[1..]);
    if pool[0].hash == e.hash {
      DeleteAbsent(pool[1..], e.hash);
    } else {
      DeleteShrinks(pool[1..], e);
    }
  }

  lemma {:induction false} DeleteAbsent(pool: seq<PoolEntry>, hash: Bytes)
    requires forall i :: 0 <= i < |pool| ==> pool[i].hash != hash
    ensures Delete(pool, hash) == pool
  {
    if pool != [] {
      DeleteAbsent(pool[1..], hash);
    }
  }

  // ---- Admission ----

  /** The part of the invariant that survives any deletion. */
  lemma PoolOkFrom(o: Oracle, pool: seq<PoolEntry>, rest: seq<PoolEntry>)
    requires PoolOk(o, pool) && Apart(rest) && |rest| <= |pool| && forall e :: e in rest ==> e in pool
    ensures PoolOk(o, rest)
  {
    hide Rivals, EntryOk;
    forall i | 0 <= i < |rest|
      ensures EntryOk(o, rest[i])
    {
      assert rest[i] in rest;
      var k :| 0 <= k < |pool| && pool[k] == rest[i];
    }
  }

  /** Making room costs nothing, or exactly the cheapest entry, which pays strictly less than the newcomer. */
  lemma RoomIsFair(o: Oracle, pool: seq<PoolEntry>, rate: int)
    requires PoolOk(o, pool) && MakeRoom(pool, rate).Some?
    ensures var r := MakeRoom(pool, rate).value;
      && PoolOk(o, r) && |r| < MAX_MEMPOOL_TXS
      && (forall e :: e in r ==> e in pool)
      && (forall e :: e in pool && e !in r ==> |pool| == MAX_MEMPOOL_TXS && e.rate < rate && forall x :: x in pool ==> e.rate <= x.rate)
  {
    if |pool| >= MAX_MEMPOOL_TXS {
      var w := Worst(pool);
      hide Rivals, Delete, Worst, EntryOk;
      DeleteExact(pool, w);
      PoolOkFrom(o, pool, Delete(pool, w.hash));
      forall x | x in pool
        ensures w.rate <= x.rate
      {
        var k :| 0 <= k < |pool| && pool[k] == x;
      }
    }
  }

  /** What placing an entry may and may not do. */
  ghost predicate PlacedFairly(o: Oracle, pool: seq<PoolEntry>, e: PoolEntry, r: Added) {
    && PoolOk(o, r.pool)
    && (r.error.Some? ==> r.pool == pool)
    && (r.error.None? ==> e in r.pool)
    && (forall x :: x in r.pool ==> x == e || x in pool)
    && (forall x :: x in pool && x !in r.pool ==> x.rate < e.rate)
  }

  lemma PlaceIsFair(o: Oracle, pool: seq<PoolEntry>, e: PoolEntry)
    requires PoolOk(o, pool) && EntryOk(o, e) && !Has(pool, e.hash)
    ensures PlacedFairly(o, pool, e, Place(pool, e))
  {
    hide Rivals, Delete, Worst, EntryOk, MakeRoom, FirstRival, PoolOk;
    var rival := FirstRival(pool, e.tx);
    if rival.None? {
      PlaceNew(o, pool, e);
    } else if e.rate > rival.value.rate {
      PlaceOver(o, pool, e, rival.value);
    }
  }

  lemma AppendApart(o: Oracle, pool: seq<PoolEntry>, e: PoolEntry)
    requires PoolOk(o, pool) && EntryOk(o, e) && |pool| < MAX_MEMPOOL_TXS
    requires forall x :: x in pool ==> x.hash != e.hash && !Rivals(x.tx, e.tx)
    ensures PoolOk(o, pool + [e])
  {
    hide EntryOk, Rivals;
  }

  lemma RivalsSymmetric(a: Transaction, b: Transaction)
    ensures Rivals(a, b) <==> Rivals(b, a)
  {
  }

  lemma PlaceNew(o: Oracle, pool: seq<PoolEntry>, e: PoolEntry)
    requires PoolOk(o, pool) && EntryOk(o, e) && !Has(pool, e.hash) && FirstRival(pool, e.tx).None?
    ensures PlacedFairly(o, pool, e, Place(pool, e))
  {
    var room := MakeRoom(pool, e.rate);
    hide Rivals, EntryOk, MakeRoom;
    if room.Some? {
      RoomIsFair(o, pool, e.rate);
      forall x | x in room.value
        ensures x.hash != e.hash && !Rivals(x.tx, e.tx)
      {
        var k :| 0 <= k < |pool| && pool[k] == x;
        RivalsSymmetric(x.tx, e.tx);
      }
      hide PoolOk;
      AppendApart(o, room.value, e);
    }
  }

  lemma PlaceOver(o: Oracle, pool: seq<PoolEntry>, e: PoolEntry, rival: PoolEntry)
    requires PoolOk(o, pool) && EntryOk(o, e) && !Has(pool, e.hash)
    requires FirstRival(pool, e.tx) == Some(rival) && e.rate > rival.rate
    ensures PlacedFairly(o, pool, e, Place(pool, e))
  {
    hide Rivals, EntryOk, Delete, FirstRival;
    var rest := Delete(pool, rival.hash);
    DeleteExact(pool, rival);
    PoolOkFrom(o, pool, rest);
    assert MakeRoom(rest, e.rate) == Some(rest);
    hide MakeRoom;
    forall x | x in rest
      ensures x.hash != e.hash && !Rivals(x.tx, e.tx)
    {
      var k :| 0 <= k < |pool| && pool[k] == x;
      var j :| 0 <= j < |pool| && pool[j] == rival;
      OneRival(pool[k].tx, pool[j].tx, e.tx);
      RivalsSymmetric(x.tx, e.tx);
      RivalsSymmetric(pool[k].tx, pool[j].tx);
    }
    hide PoolOk;
    AppendApart(o, rest, e);
  }

  /** Rivalry is an equivalence: two rivals of one transaction rival each other. */
  lemma OneRival(a: Transaction, b: Transaction, c: Transaction)
    ensures Rivals(c, a) && Rivals(c, b) ==> Rivals(a, b)
  {
  }

  /**
   * Any submission keeps the pool well formed; a refused one leaves it untouched; an admitted one is in,
   * and whatever it displaced paid a strictly lower rate.
   */
  lemma AddIsFair(o: Oracle, signed: Transaction -> bool, pool: seq<PoolEntry>, tx: Transaction, s: State, now: int)
    requires PoolOk(o, pool)
    ensures var r := Add(o, signed, pool, tx, s, now);
      && PoolOk(o, r.pool)
      && (r.error.Some? ==> r.pool == pool)
      && (r.error.None? ==> Has(r.pool, o.txHash(tx)))
      && (forall x :: x in pool && x !in r.pool ==> x.rate < Rate(tx))
  {
    var e := PoolEntry(tx, o.txHash(tx), Rate(tx), now);
    hide Rate, Place, StateError, Rivals, PoolOk;
    if StructureOk(tx, signed) && Rate(tx) >= MIN_FEE_PER_BYTE && !Has(pool, e.hash) && StateError(o, s, tx).None? {
      assert EntryOk(o, e);
      hide StructureOk, EntryOk;
      PlaceIsFair(o, pool, e);
      var r := Place(pool, e);
      if r.error.None? {
        var k :| 0 <= k < |r.pool| && r.pool[k] == e;
      }
    }
  }

  // ---- Pruning ----

  lemma PruneKeepsPoolOk(o: Oracle, s: State, pool: seq<PoolEntry>, now: int)
    requires PoolOk(o, pool)
    ensures PoolOk(o, Prune(s, pool, now))
  {
    hide Rivals, EntryOk, Evicted;
    RetainLaws(pool, e => !Evicted(s, pool, now, e));
    PoolOkFrom(o, pool, Prune(s, pool, now));
  }

  lemma {:induction false} FromIsRetain(pool: seq<PoolEntry>, a: Bytes)
    ensures From(pool, a) == Retain(pool, e => Mine(e, a))
  {
    if pool != [] {
      FromIsRetain(pool[1..], a);
    }
  }

  lemma {:induction false} CountAtMostOne(es: seq<PoolEntry>, x: PoolEntry)
    requires Apart(es)
    ensures multiset(es)[x] <= 1
  {
    hide Rivals;
    if es != [] {
      assert es == [es[0]] + es[1..];
      assert Apart(es[1..]);
      CountAtMostOne(es[1..], x);
      forall y | y in es[1..]
        ensures y != es[0]
      {
        var k :| 0 <= k < |es[1..]| && es[1..][k] == y;
        assert es[k + 1] == y;
      }
      assert x !in es[1..] ==> multiset(es[1..])[x] == 0;
    }
  }

  /** A sender's entries are split: each is in the mineable prefix or beyond it, not both. */
  lemma PrefixOrRest(o: Oracle, s: State, pool: seq<PoolEntry>, e: PoolEntry)
    requires PoolOk(o, pool) && e in pool && e.tx.DebitsAccount()
    ensures e in Unreached(s, pool, e.tx.from) <==> e !in MineablePrefix(s, pool, e.tx.from)
  {
    hide Rivals, EntryOk, From, Payable, Retain, GetAccount, SortBy, Weak, Sorted;
    var a := e.tx.from;
    var from := From(pool, a);
    var sorted := SortBy(from, ByNonce());
    OrdersAreWeak();
    FromIsRetain(pool, a);
    RetainLaws(pool, x => Mine(x, a));
    SortSorted(from, ByNonce());
    SortMember(from, ByNonce(), e);
    CountAtMostOne(from, e);
    hide Apart, PoolOk, ByNonce;
    var pre, rest := MineablePrefix(s, pool, a), Unreached(s, pool, a);
    assert sorted == pre + rest;
    assert multiset(sorted)[e] == multiset(pre)[e] + multiset(rest)[e];
    assert e in multiset(pre) <==> e in pre;
    assert e in multiset(rest) <==> e in rest;
  }

  /** Between the grace and the TTL, a debiting entry survives exactly when it is in its sender's mineable prefix. */
  lemma PrunedExactly(o: Oracle, s: State, pool: seq<PoolEntry>, now: int, e: PoolEntry)
    requires PoolOk(o, pool) && e in pool && e.tx.DebitsAccount()
    requires UNMINABLE_GRACE_MS <= now - e.receivedAt < MEMPOOL_TX_TTL_MS
    ensures e in Prune(s, pool, now) <==> e in MineablePrefix(s, pool, e.tx.from)
  {
    hide Rivals, EntryOk;
    RetainLaws(pool, x => !Evicted(s, pool, now, x));
    PrefixOrRest(o, s, pool, e);
    hide Retain, MineablePrefix, Unreached, PoolOk;
  }

  // ---- Runs ----

  datatype PoolOp =
    | Submit(tx: Transaction, s: State, now: int)
    | Confirm(txs: seq<Transaction>)
    | TipMoved(s: State, now: int)

  function PoolStep(o: Oracle, signed: Transaction -> bool, pool: seq<PoolEntry>, op: PoolOp): seq<PoolEntry> {
    match op
    case Submit(tx, s, now) => Add(o, signed, pool, tx, s, now).pool
    case Confirm(txs) => DeleteAll(pool, o, txs)
    case TipMoved(s, now) => Prune(s, pool, now)
  }

  function PoolAfter(o: Oracle, signed: Transaction -> bool, ops: seq<PoolOp>): seq<PoolEntry> {
    if ops == [] then [] else PoolStep(o, signed, PoolAfter(o, signed, ops[..|ops| - 1]), ops[|ops| - 1])
  }

  lemma {:induction false} DeleteAllKeepsPoolOk(o: Oracle, pool: seq<PoolEntry>, txs: seq<Transaction>)
    requires PoolOk(o, pool)
    ensures PoolOk(o, DeleteAll(pool, o, txs))
    decreases |txs|
  {
    if txs != [] {
      var keep := (e: PoolEntry) => e.hash != o.txHash(txs[0]);
      DeleteIsRetain(pool, o.txHash(txs[0]));
      RetainLaws(pool, keep);
      PoolOkFrom(o, pool, Delete(pool, o.txHash(txs[0])));
      hide PoolOk;
      DeleteAllKeepsPoolOk(o, Delete(pool, o.txHash(txs[0])), txs[1..]);
    }
  }

  /**
   * After any submissions, confirmations and prunings: at most one entry per sender and nonce, at most one
   * redeem per lock, distinct hashes, honest rates, and never more than the limit.
   */
  lemma {:induction false} PoolStaysOk(o: Oracle, signed: Transaction -> bool, ops: seq<PoolOp>)
    ensures PoolOk(o, PoolAfter(o, signed, ops))
    decreases |ops|
  {
    if ops != [] {
      var pool := PoolAfter(o, signed, ops[..|ops| - 1]);
      PoolStaysOk(o, signed, ops[..|ops| - 1]);
      hide PoolOk, Add, DeleteAll, Prune;
      match ops[|ops| - 1] {
        case Submit(tx, s, now) => AddIsFair(o, signed, pool, tx, s, now);
        case Confirm(txs) => DeleteAllKeepsPoolOk(o, pool, txs);
        case TipMoved(s, now) => PruneKeepsPoolOk(o, s, pool, now);
      }
    }
  }

  // ---- A spent nonce hides the run behind it ----

  /** The entries whose nonce is not spent yet. */
  function Unspent(s: State, pool: seq<PoolEntry>): seq<PoolEntry> {
    Retain(pool, (e: PoolEntry) => e.tx.DebitsAccount() ==> e.tx.nonce >= GetAccount(s, e.tx.from).nonce)
  }

  lemma {:induction false} FromUnspent(s: State, pool: seq<PoolEntry>, a: Bytes)
    ensures From(Unspent(s, pool), a) == Retain(From(pool, a), (e: PoolEntry) => e.tx.nonce >= GetAccount(s, a).nonce)
  {
    if pool != [] {
      FromUnspent(s, pool[1..], a);
    }
    hide GetAccount;
  }

  lemma {:induction false} RetainAll(es: seq<PoolEntry>, keep: PoolEntry -> bool)
    requires forall e :: e in es ==> keep(e)
    ensures Retain(es, keep) == es
  {
    if es != [] {
      RetainAll(es[1..], keep);
    }
  }

  /** A sender's run is computed as if its spent entries were not there exactly when it has none, or no run anyway. */
  lemma RunUnlessSpent(s: State, pool: seq<PoolEntry>, a: Bytes)
    ensures MineablePrefix(s, pool, a) == MineablePrefix(s, Unspent(s, pool), a)
       <==> ((forall e :: e in From(pool, a) ==> e.tx.nonce >= GetAccount(s, a).nonce)
             || MineablePrefix(s, Unspent(s, pool), a) == [])
  {
    hide SortBy, Unspent, Retain, GetAccount, Weak;
    var n := GetAccount(s, a).nonce;
    FromUnspent(s, pool, a);
    if forall e :: e in From(pool, a) ==> e.tx.nonce >= n {
      RetainAll(From(pool, a), (e: PoolEntry) => e.tx.nonce >= n);
    } else {
      var e :| e in From(pool, a) && e.tx.nonce < n;
      StopsAtSpent(s, pool, a, e);
    }
  }

  /** The entry with the account's own nonce, if the balance covers it. */
  predicate StartsRun(s: State, e: PoolEntry) {
    var acct := GetAccount(s, e.tx.from);
    e.tx.nonce == acct.nonce && e.tx.amount + e.tx.fee <= acct.balance
  }

  /** Two pooled entries of one sender and nonce are one. */
  lemma SlotIsUnique(o: Oracle, pool: seq<PoolEntry>, e: PoolEntry, f: PoolEntry)
    requires PoolOk(o, pool) && e in pool && f in pool
    requires e.tx.DebitsAccount() && f.tx.DebitsAccount() && e.tx.from == f.tx.from && e.tx.nonce == f.tx.nonce
    ensures e == f
  {
    hide EntryOk;
    var i :| 0 <= i < |pool| && pool[i] == e;
    var j :| 0 <= j < |pool| && pool[j] == f;
    assert Rivals(pool[i].tx, pool[j].tx) && Rivals(pool[j].tx, pool[i].tx);
  }

  lemma UnspentMember(s: State, pool: seq<PoolEntry>, a: Bytes, e: PoolEntry)
    ensures e in From(Unspent(s, pool), a) <==> e in From(pool, a) && e.tx.nonce >= GetAccount(s, a).nonce
    ensures e in From(pool, a) <==> e in pool && e.tx.DebitsAccount() && e.tx.from == a
  {
    hide GetAccount, Unspent, From, Retain;
    FromUnspent(s, pool, a);
    RetainLaws(From(pool, a), (x: PoolEntry) => x.tx.nonce >= GetAccount(s, a).nonce);
    FromMember(pool, a, e);
  }

  /** Without the spent entries there is a run exactly if some entry starts it. */
  lemma RunStarts(o: Oracle, s: State, pool: seq<PoolEntry>, a: Bytes)
    requires PoolOk(o, pool)
    ensures MineablePrefix(s, Unspent(s, pool), a) == [] <==> forall e :: e in From(pool, a) ==> !StartsRun(s, e)
  {
    hide PoolOk, SortBy, Unspent, From, GetAccount, Weak;
    var u := From(Unspent(s, pool), a);
    var sorted := SortBy(u, ByNonce());
    OrdersAreWeak();
    SortSorted(u, ByNonce());
    if u != [] {
      SortMember(u, ByNonce(), sorted[0]);
      UnspentMember(s, pool, a, sorted[0]);
    }
    forall e | e in From(pool, a) && StartsRun(s, e)
      ensures sorted != [] && e == sorted[0]
    {
      UnspentMember(s, pool, a, e);
      SortMember(u, ByNonce(), e);
      var k :| 0 <= k < |sorted| && sorted[k] == e;
      assert k > 0 ==> !ByNonce()(sorted[k], sorted[0]);
      SlotIsUnique(o, pool, e, sorted[0]);
    }
  }

  /**
   * A sender's run is computed as if its spent entries were not there exactly when it has none, or when no
   * pooled entry has the account's nonce and is covered by its balance, so that there is nothing to hide.
   */
  lemma SpentNonceHidesRun(o: Oracle, s: State, pool: seq<PoolEntry>, a: Bytes)
    requires PoolOk(o, pool)
    ensures MineablePrefix(s, pool, a) == MineablePrefix(s, Unspent(s, pool), a)
       <==> ((forall e :: e in From(pool, a) ==> e.tx.nonce >= GetAccount(s, a).nonce)
             || forall e :: e in From(pool, a) ==> !StartsRun(s, e))
  {
    hide MineablePrefix, PoolOk, Unspent, From, GetAccount, StartsRun;
    RunUnlessSpent(s, pool, a);
    RunStarts(o, s, pool, a);
  }

  lemma StopsAtSpent(s: State, pool: seq<PoolEntry>, a: Bytes, e: PoolEntry)
    requires e in From(pool, a) && e.tx.nonce < GetAccount(s, a).nonce
    ensures MineablePrefix(s, pool, a) == []
  {
    OrdersAreWeak();
    var sorted := SortBy(From(pool, a), ByNonce());
    SortSorted(From(pool, a), ByNonce());
    SortMember(From(pool, a), ByNonce(), e);
    hide SortBy, From, GetAccount, Weak;
    var k :| 0 <= k < |sorted| && sorted[k] == e;
    assert k > 0 ==> !ByNonce()(sorted[k], sorted[0]);
  }

  // ---- A selection that does not replay ----

  /** Alone in the pool, two transfers of one sender where the later pays the higher rate come out swapped. */
  lemma SwappedPair(o: Oracle, s: State, ctx: Context, e: PoolEntry, f: PoolEntry)
    requires e.tx.kind.Transfer? && f.tx.kind.Transfer? && e.tx.from == f.tx.from && e.rate < f.rate
    requires var acct := GetAccount(s, e.tx.from);
      && e.tx.nonce == acct.nonce && f.tx.nonce == acct.nonce + 1
      && acct.balance >= e.tx.amount + e.tx.fee + f.tx.amount + f.tx.fee && f.tx.amount + f.tx.fee >= 0
    ensures Ranked(o, s, [e, f], ctx) == [f, e]
  {
    hide GetAccount, Keep, KeepAll, Redeemable, SortBy, Senders, From;
    var pool := [e, f];
    PairKept(s, e, f, ctx.scriptsActive);
    PairSenders(e, f);
    PairKeptAll(s, pool, e.tx.from, ctx.scriptsActive);
    PairNoRedeem(o, s, ctx, e, f);
    assert Eligible(o, s, pool, ctx) == pool + [] == pool;
    PairSwapped(e, f);
  }

  lemma PairKept(s: State, e: PoolEntry, f: PoolEntry, active: bool)
    requires e.tx.kind.Transfer? && f.tx.kind.Transfer? && e.tx.from == f.tx.from
    requires var acct := GetAccount(s, e.tx.from);
      && e.tx.nonce == acct.nonce && f.tx.nonce == acct.nonce + 1
      && acct.balance >= e.tx.amount + e.tx.fee + f.tx.amount + f.tx.fee && f.tx.amount + f.tx.fee >= 0
    ensures Keep(s, [e, f], e.tx.from, active) == [e, f]
  {
    var a := e.tx.from;
    hide GetAccount, From, SortBy, Payable, BeforeLock;
    PairFrom(e, f, a);
    SortOfSorted([e, f], ByNonce());
    PairPayable(e, f, GetAccount(s, a).nonce, GetAccount(s, a).balance);
    PairNoLock(e, f);
  }

  lemma PairKeptAll(s: State, pool: seq<PoolEntry>, a: Bytes, active: bool)
    ensures KeepAll(s, pool, [a], active) == Keep(s, pool, a, active)
  {
    hide Keep;
    var none: seq<Bytes> := [];
    assert [a][..0] == none && KeepAll(s, pool, none, active) == [];
  }

  lemma PairFrom(e: PoolEntry, f: PoolEntry, a: Bytes)
    requires Mine(e, a) && Mine(f, a)
    ensures From([e, f], a) == [e, f] && Sorted([e, f], ByNonce()) == !(f.tx.nonce < e.tx.nonce)
  {
    FromMine([e, f], a, a);
    hide From;
  }

  lemma PairPayable(e: PoolEntry, f: PoolEntry, nonce: int, balance: int)
    requires e.tx.nonce == nonce && f.tx.nonce == nonce + 1
    requires balance >= e.tx.amount + e.tx.fee + f.tx.amount + f.tx.fee && balance >= e.tx.amount + e.tx.fee
    ensures Payable([e, f], nonce, balance) == 2
  {
    assert [e, f][1..] == [f] && [f][1..] == [];
    assert Payable([f], nonce + 1, balance - e.tx.amount - e.tx.fee) == 1;
  }

  lemma PairNoLock(e: PoolEntry, f: PoolEntry)
    requires e.tx.kind.Transfer? && f.tx.kind.Transfer?
    ensures BeforeLock([e, f]) == [e, f]
  {
    assert [e, f][1..] == [f] && [f][1..] == [];
    assert BeforeLock([f]) == [f];
  }

  lemma PairSenders(e: PoolEntry, f: PoolEntry)
    requires e.tx.DebitsAccount() && f.tx.DebitsAccount() && e.tx.from == f.tx.from
    ensures Senders([e, f]) == [e.tx.from]
  {
    assert [e, f][..1] == [e] && [e][..0] == [];
    assert Senders([e]) == [] + [e.tx.from] == [e.tx.from];
  }

  lemma PairNoRedeem(o: Oracle, s: State, ctx: Context, e: PoolEntry, f: PoolEntry)
    requires e.tx.kind.Transfer? && f.tx.kind.Transfer?
    ensures Redeemable(o, s, [e, f], ctx) == []
  {
    hide RedeemError;
    assert [e, f][1..] == [f] && [f][1..] == [];
    assert Redeemable(o, s, [], ctx) == [];
    assert Redeemable(o, s, [f], ctx) == Redeemable(o, s, [f][1..], ctx);
  }

  lemma PairSwapped(e: PoolEntry, f: PoolEntry)
    requires e.rate < f.rate
    ensures SortBy([e, f], ByRate()) == [f, e]
  {
    assert [e, f][..1] == [e] && [e][..0] == [];
    assert SortBy([e], ByRate()) == [e];
    assert InsertBy([e], f, ByRate()) == InsertBy([e][..0], f, ByRate()) + [e];
  }

  function Payment(nonce: nat, fee: nat): Transaction {
    Transaction(Transfer, Zeros(32), seq(32, _ => 1), 1, fee, nonce, Zeros(64), [], [], [], [])
  }

  lemma PaymentSize(nonce: nat, fee: nat)
    ensures SizeOf(Payment(nonce, fee)) == 152
  {
  }

  function Funded(nonce: nat): State {
    State(map[Zeros(32) := Account(1000, nonce)], map[])
  }

  function Pending(o: Oracle, nonce: nat, fee: nat): PoolEntry {
    PoolEntry(Payment(nonce, fee), o.txHash(Payment(nonce, fee)), fee / 152, 0)
  }

  lemma PaymentOk(signed: Transaction -> bool, nonce: nat, fee: nat)
    requires signed(Payment(nonce, fee)) && fee <= 304
    ensures StructureOk(Payment(nonce, fee), signed) && Rate(Payment(nonce, fee)) == fee / 152
    ensures Zeros(32) != seq(32, _ => 1)
  {
    assert seq(32, _ => 1)[0] != Zeros(32)[0];
    PaymentSize(nonce, fee);
    hide SizeOf;
  }

  /** Submitting two payments of one account, nonces 0 and 1, to an empty pool puts both in. */
  lemma PairSubmitted(o: Oracle, signed: Transaction -> bool, feeA: nat, feeB: nat)
    requires 152 <= feeA <= 304 && 152 <= feeB <= 304
    requires signed(Payment(0, feeA)) && signed(Payment(1, feeB)) && o.txHash(Payment(0, feeA)) != o.txHash(Payment(1, feeB))
    ensures PoolAfter(o, signed, [Submit(Payment(0, feeA), Funded(0), 0), Submit(Payment(1, feeB), Funded(0), 0)])
         == [Pending(o, 0, feeA), Pending(o, 1, feeB)]
  {
    var a, b := Submit(Payment(0, feeA), Funded(0), 0), Submit(Payment(1, feeB), Funded(0), 0);
    PaymentOk(signed, 0, feeA);
    PaymentOk(signed, 1, feeB);
    hide StructureOk, Rate;
    assert [a, b][..1] == [a] && [a][..0] == [];
    assert PoolAfter(o, signed, []) == [];
    FirstSubmitted(o, signed, feeA);
    SecondSubmitted(o, signed, feeA, feeB);
    hide Add;
    assert PoolAfter(o, signed, [a]) == Add(o, signed, [], Payment(0, feeA), Funded(0), 0).pool;
  }

  lemma FirstSubmitted(o: Oracle, signed: Transaction -> bool, fee: nat)
    requires 152 <= fee <= 304 && StructureOk(Payment(0, fee), signed) && Rate(Payment(0, fee)) == fee / 152
    ensures Add(o, signed, [], Payment(0, fee), Funded(0), 0).pool == [Pending(o, 0, fee)]
  {
    hide StructureOk, Rate;
    assert [] + [Pending(o, 0, fee)] == [Pending(o, 0, fee)];
  }

  lemma SecondSubmitted(o: Oracle, signed: Transaction -> bool, feeA: nat, feeB: nat)
    requires 152 <= feeA <= 304 && 152 <= feeB <= 304
    requires StructureOk(Payment(1, feeB), signed) && Rate(Payment(1, feeB)) == feeB / 152
    requires o.txHash(Payment(0, feeA)) != o.txHash(Payment(1, feeB))
    ensures Add(o, signed, [Pending(o, 0, feeA)], Payment(1, feeB), Funded(0), 0).pool == [Pending(o, 0, feeA), Pending(o, 1, feeB)]
  {
    hide StructureOk, Rate;
    var e := Pending(o, 0, feeA);
    assert [e][1..] == [];
    assert FirstRival([e], Payment(1, feeB)) == FirstRival([], Payment(1, feeB));
  }

  /**
   * Two submitted payments of one account that holds enough, the later with the higher rate: the selection
   * puts it first, and the ledger refuses the list with a bad nonce.
   */
  lemma RisingRateBreaksSelection(o: Oracle, signed: Transaction -> bool, ctx: Context)
    requires signed(Payment(0, 152)) && signed(Payment(1, 304)) && o.txHash(Payment(0, 152)) != o.txHash(Payment(1, 304))
    ensures var pool := PoolAfter(o, signed, [Submit(Payment(0, 152), Funded(0), 0), Submit(Payment(1, 304), Funded(0), 0)]);
      && Txs(Select(o, Funded(0), pool, MAX_BLOCK_BYTES, ctx)) == [Payment(1, 304), Payment(0, 152)]
      && ApplyTxs(o, Funded(0), {}, [Payment(1, 304), Payment(0, 152)], ctx) == Rejected(BadNonce)
  {
    var e, f := Pending(o, 0, 152), Pending(o, 1, 304);
    PairSubmitted(o, signed, 152, 304);
    PaymentSize(0, 152);
    PaymentSize(1, 304);
    hide SizeOf, PoolAfter;
    SwappedPair(o, Funded(0), ctx, e, f);
    hide Ranked;
    PackPair(f, e);
  }

  lemma PackPair(e: PoolEntry, f: PoolEntry)
    requires !e.tx.kind.Redeem? && !f.tx.kind.Redeem? && SizeOf(e.tx) == SizeOf(f.tx) == 152
    ensures Pack([e, f], {}, 0, MAX_BLOCK_BYTES) == [e, f]
  {
    hide SizeOf;
    assert [e, f][1..] == [f] && [f][1..] == [];
    assert Pack([f], {}, 152, MAX_BLOCK_BYTES) == [f] + [];
  }

  // ---- A mineable payment that is evicted ----

  lemma NothingRetained(es: seq<PoolEntry>, keep: PoolEntry -> bool)
    requires |es| == 2 && !keep(es[0]) && !keep(es[1])
    ensures Retain(es, keep) == []
  {
    assert es[1..][0] == es[1];
    assert Retain(es[1..][1..], keep) == [];
  }

  lemma DeleteOther(e: PoolEntry, f: PoolEntry, hash: Bytes)
    requires e.hash != hash && f.hash != hash
    ensures Delete([e, f], hash) == [e, f]
  {
    assert [e, f][1..] == [f] && [f][1..] == [];
    assert Delete([f], hash) == [f];
  }

  /** With the lower nonce spent, the scan stops at once and reaches neither entry. */
  lemma BothUnreached(e: PoolEntry, f: PoolEntry, s: State, a: Bytes)
    requires Mine(e, a) && Mine(f, a) && e.tx.nonce < f.tx.nonce && e.tx.nonce < GetAccount(s, a).nonce
    ensures e in Unreached(s, [e, f], a) && f in Unreached(s, [e, f], a)
  {
    hide GetAccount;
    PairFrom(e, f, a);
    SortOfSorted([e, f], ByNonce());
    hide SortBy, From;
  }

  /** The ops of the scenario: two payments, then a block spends nonce 0 with another transaction. */
  function SpentElsewhere(other: Transaction): seq<PoolOp> {
    [Submit(Payment(0, 152), Funded(0), 0), Submit(Payment(1, 152), Funded(0), 0), Confirm([other]),
     TipMoved(Funded(1), UNMINABLE_GRACE_MS)]
  }

  /** After the grace the second payment is evicted although the ledger would take it in the very next block. */
  lemma MineablePaymentEvicted(o: Oracle, signed: Transaction -> bool, other: Transaction, ctx: Context)
    requires signed(Payment(0, 152)) && signed(Payment(1, 152)) && o.txHash(Payment(0, 152)) != o.txHash(Payment(1, 152))
    requires o.txHash(other) != o.txHash(Payment(0, 152)) && o.txHash(other) != o.txHash(Payment(1, 152))
    ensures PoolAfter(o, signed, SpentElsewhere(other)) == []
    ensures ApplyTxs(o, Funded(1), {}, [Payment(1, 152)], ctx).Applied?
  {
    var e, f := Pending(o, 0, 152), Pending(o, 1, 152);
    hide PoolAfter, ApplyTxs, Delete, DeleteAll, Prune, Pending;
    AlonePays(o, ctx);
    PairSubmitted(o, signed, 152, 152);
    PairEvicted(o);
    ConfirmedOther(o, other);
    var first := [Submit(Payment(0, 152), Funded(0), 0), Submit(Payment(1, 152), Funded(0), 0)];
    AfterOne(o, signed, first, Confirm([other]));
    AfterOne(o, signed, first + [Confirm([other])], TipMoved(Funded(1), UNMINABLE_GRACE_MS));
    assert SpentElsewhere(other) == first + [Confirm([other])] + [TipMoved(Funded(1), UNMINABLE_GRACE_MS)];
  }

  lemma AfterOne(o: Oracle, signed: Transaction -> bool, ops: seq<PoolOp>, op: PoolOp)
    ensures PoolAfter(o, signed, ops + [op]) == PoolStep(o, signed, PoolAfter(o, signed, ops), op)
  {
    hide PoolStep;
    assert (ops + [op])[..|ops|] == ops;
  }

  lemma ConfirmedOther(o: Oracle, other: Transaction)
    requires o.txHash(other) != o.txHash(Payment(0, 152)) && o.txHash(other) != o.txHash(Payment(1, 152))
    ensures DeleteAll([Pending(o, 0, 152), Pending(o, 1, 152)], o, [other]) == [Pending(o, 0, 152), Pending(o, 1, 152)]
  {
    var pool := [Pending(o, 0, 152), Pending(o, 1, 152)];
    DeleteOther(pool[0], pool[1], o.txHash(other));
    hide Delete;
    assert [other][1..] == [];
    assert DeleteAll(pool, o, []) == pool;
  }

  lemma PairEvicted(o: Oracle)
    ensures Prune(Funded(1), [Pending(o, 0, 152), Pending(o, 1, 152)], UNMINABLE_GRACE_MS) == []
  {
    var e, f := Pending(o, 0, 152), Pending(o, 1, 152);
    BothUnreached(e, f, Funded(1), Zeros(32));
    hide Unreached, Retain;
    NothingRetained([e, f], x => !Evicted(Funded(1), [e, f], UNMINABLE_GRACE_MS, x));
  }

  lemma AlonePays(o: Oracle, ctx: Context)
    ensures ApplyTxs(o, Funded(1), {}, [Payment(1, 152)], ctx).Applied?
  {
    var tx := Payment(1, 152);
    assert [tx][1..] == [];
    assert ApplyTx(o, Funded(1), {}, tx, ctx).Applied?;
    hide ApplyTx;
  }
}
