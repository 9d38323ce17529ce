/** The mutable pool: each method proved equal to the value model (src/chain/mempool.ts). */
module Mempool {
  import opened Genesis
  import opened Transactions
  import opened Ledger
  import opened Pool
  import opened Selection
  import opened PoolLaws

  // ---- Specifications of the small operations ----

  function RedeemsOf(es: seq<PoolEntry>): seq<PoolEntry> {
    if es == [] then []
    else if es[0].tx.kind.Redeem? then [es[0]] + RedeemsOf(es[1..])
    else RedeemsOf(es[1..])
  }

  lemma {:induction false} RedeemsSnoc(es: seq<PoolEntry>, e: PoolEntry)
    ensures RedeemsOf(es + [e]) == RedeemsOf(es) + if e.tx.kind.Redeem? then [e] else []
  {
    if es == [] {
      assert [] + [e] == [e];
    } else {
      assert (es + [e])[1..] == es[1..] + [e];
      RedeemsSnoc(es[1..], e);
    }
  }

  lemma {:induction false} RedeemableRedeems(o: Oracle, s: State, es: seq<PoolEntry>, ctx: Context)
    ensures Redeemable(o, s, RedeemsOf(es), ctx) == Redeemable(o, s, es, ctx)
  {
    hide RedeemError;
    if es != [] {
      RedeemableRedeems(o, s, es[1..], ctx);
      if es[0].tx.kind.Redeem? {
        assert RedeemsOf(es)[1..] == RedeemsOf(es[1..]);
      }
    }
  }

  lemma SendersSnoc(es: seq<PoolEntry>, e: PoolEntry)
    ensures Senders(es + [e]) == if e.tx.DebitsAccount() && e.tx.from !in Senders(es) then Senders(es) + [e.tx.from] else Senders(es)
  {
    assert (es + [e])[..|es|] == es;
  }

  lemma NothingGrouped()
    ensures Senders([]) == [] && RedeemsOf([]) == [] && forall a :: From([], a) == []
  {
  }

  /** The pool without some of its entries. */
  function Minus(pool: seq<PoolEntry>, gone: set<PoolEntry>): seq<PoolEntry> {
    Retain(pool, (e: PoolEntry) => e !in gone)
  }

  /** Deleting one more entry by its hash. */
  lemma {:induction false} MinusOne(pool: seq<PoolEntry>, gone: set<PoolEntry>, e: PoolEntry)
    requires forall x :: x in pool && x.hash == e.hash ==> x == e
    ensures Delete(Minus(pool, gone), e.hash) == Minus(pool, gone + {e})
  {
    if pool != [] {
      assert forall x :: x in pool[1..] ==> x in pool;
      MinusOne(pool[1..], gone, e);
    }
  }

  lemma {:induction false} MinusNone(pool: seq<PoolEntry>)
    ensures Minus(pool, {}) == pool
  {
    if pool != [] {
      MinusNone(pool[1..]);
    }
  }

  lemma {:induction false} MinusIsRetain(pool: seq<PoolEntry>, gone: set<PoolEntry>, keep: PoolEntry -> bool)
    requires forall x :: x in pool ==> (x !in gone <==> keep(x))
    ensures Minus(pool, gone) == Retain(pool, keep)
  {
    if pool != [] {
      MinusIsRetain(pool[1..], gone, keep);
    }
  }

  lemma HashIsKey(pool: seq<PoolEntry>, e: PoolEntry)
    requires Apart(pool) && e in pool
    ensures forall x :: x in pool && x.hash == e.hash ==> x == e
  {
    hide Rivals;
    var j :| 0 <= j < |pool| && pool[j] == e;
    forall x | x in pool && x.hash == e.hash
      ensures x == e
    {
      var i :| 0 <= i < |pool| && pool[i] == x;
    }
  }

  /** Bookkeeping of an eviction pass: what is gone from the pool, and how many. */
  ghost predicate Thinned(pool: seq<PoolEntry>, gone: set<PoolEntry>, entries: seq<PoolEntry>, removed: nat) {
    && Apart(pool) && entries == Minus(pool, gone) && removed == |pool| - |entries|
    && forall x :: x in gone ==> x in pool
  }

  lemma ThinnedOne(pool: seq<PoolEntry>, gone: set<PoolEntry>, entries: seq<PoolEntry>, removed: nat, e: PoolEntry)
    requires Thinned(pool, gone, entries, removed) && e in pool && e !in gone
    ensures Thinned(pool, gone + {e}, Delete(entries, e.hash), removed + 1)
  {
    HashIsKey(pool, e);
    MinusOne(pool, gone, e);
    RetainLaws(pool, (x: PoolEntry) => x !in gone);
    hide Apart, Retain, Delete;
    assert e in entries;
    DeleteExact(entries, e);
  }

  lemma SenderListed(pool: seq<PoolEntry>, e: PoolEntry)
    requires e in pool && e.tx.DebitsAccount()
    ensures e.tx.from in Senders(pool)
  {
    SendersDistinct(pool);
    FromMember(pool, e.tx.from, e);
  }

  /** A sender's unreached entries are its own pool entries, each once. */
  lemma UnreachedOnce(s: State, pool: seq<PoolEntry>, a: Bytes)
    requires Apart(pool)
    ensures var d := Unreached(s, pool, a);
      && (forall i :: 0 <= i < |d| ==> d[i] in pool && Mine(d[i], a))
      && (forall i, j :: 0 <= i < j < |d| ==> d[i] != d[j])
  {
    hide Apart, From, SortBy, Payable, GetAccount, Retain, Weak, Sorted;
    OrdersAreWeak();
    var from := From(pool, a);
    var sorted := SortBy(from, ByNonce());
    FromIsRetain(pool, a);
    RetainLaws(pool, e => Mine(e, a));
    SortSorted(from, ByNonce());
    var acct := GetAccount(s, a);
    var n := Payable(sorted, acct.nonce, acct.balance);
    var d := Unreached(s, pool, a);
    forall i | 0 <= i < |d|
      ensures d[i] in pool && Mine(d[i], a)
    {
      assert d[i] == sorted[n + i];
      SortMember(from, ByNonce(), sorted[n + i]);
      FromMember(pool, a, sorted[n + i]);
    }
    forall i, j | 0 <= i < j < |d|
      ensures d[i] != d[j]
    {
      CountAtMostOne(from, d[i]);
      hide ByNonce;
      OnceInSeq(sorted, n + i, n + j);
    }
  }

  lemma OnceInSeq(es: seq<PoolEntry>, i: nat, j: nat)
    requires i < j < |es| && multiset(es)[es[i]] <= 1
    ensures es[i] != es[j]
  {
    assert es == es[..j] + [es[j]] + es[j + 1..];
    assert es[..j][i] == es[i];
    assert es[i] in multiset(es[..j]);
  }

  class Mempool {
    const o: Oracle
    const signed: Transaction -> bool
    var entries: seq<PoolEntry>

    constructor (o: Oracle, signed: Transaction -> bool)
      ensures this.o == o && this.signed == signed && entries == []
    {
      this.o, this.signed, entries := o, signed, [];
    }

    method HasHash(hash: Bytes) returns (found: bool)
      ensures found == Has(entries, hash)
    {
      for i := 0 to |entries|
        invariant forall j :: 0 <= j < i ==> entries[j].hash != hash
      {
        if entries[i].hash == hash {
          return true;
        }
      }
      return false;
    }

    /** Try to admit a transaction. */
    method Submit(tx: Transaction, s: State, now: int) returns (err: Option<PoolError>)
      modifies this
      ensures Added(entries, err) == Add(o, signed, old(entries), tx, s, now)
    {
      hide Place, Delete, FirstRival, MakeRoom, StructureOk, Rate;
      if !StructureOk(tx, signed) {
        return Some(BadStructure);
      }
      var rate, hash := Rate(tx), o.txHash(tx);
      if rate < MIN_FEE_PER_BYTE {
        return Some(FeeTooLow);
      }
      var known := HasHash(hash);
      if known {
        return None;
      }
      if tx.kind.Redeem? {
        if tx.lockId !in s.locks {
          return Some(LockUnknown);
        }
        var lock := s.locks[tx.lockId];
        if o.scriptHash(tx.redeemScript) != lock.scriptHash {
          return Some(WrongScript);
        }
        if tx.amount != lock.amount {
          return Some(WrongAmount);
        }
        if tx.fee > lock.amount {
          return Some(FeeAboveLock);
        }
      } else {
        var sender := GetAccount(s, tx.from);
        if sender.balance < tx.amount + tx.fee {
          return Some(CannotPay);
        }
        if tx.nonce < sender.nonce {
          return Some(NonceTooLow);
        }
        if tx.nonce > sender.nonce + MAX_NONCE_AHEAD {
          return Some(NonceTooFar);
        }
      }
      err := Insert(PoolEntry(tx, hash, rate, now));
    }

    /** Replace by fee, make room, store. */
    method Insert(e: PoolEntry) returns (err: Option<PoolError>)
      modifies this
      ensures Added(entries, err) == Place(old(entries), e)
    {
      hide Delete, MakeRoom;
      var i := 0;
      while i < |entries|
        invariant 0 <= i <= |entries| && entries == old(entries)
        invariant FirstRival(entries, e.tx) == FirstRival(entries[i..], e.tx)
      {
        assert entries[i..][1..] == entries[i + 1..];
        if Rivals(e.tx, entries[i].tx) {
          if e.rate <= entries[i].rate {
            return Some(SlotTaken);
          }
          entries := Delete(entries, entries[i].hash);
          break;
        }
        i := i + 1;
      }
      err := EvictForRoom(e.rate);
      if err.None? {
        entries := entries + [e];
      }
    }

    /** Evict the cheapest entry of a full pool, unless the newcomer does not outbid it. */
    method EvictForRoom(rate: int) returns (full: Option<PoolError>)
      modifies this
      ensures var room := MakeRoom(old(entries), rate);
        if room.None? then full == Some(PoolFull) && entries == old(entries) else full.None? && entries == room.value
    {
      hide Worst, Delete;
      if |entries| < MAX_MEMPOOL_TXS {
        return None;
      }
      var worst := FindWorst();
      if worst.rate >= rate {
        return Some(PoolFull);
      }
      entries := Delete(entries, worst.hash);
      return None;
    }

    method FindWorst() returns (worst: PoolEntry)
      requires entries != []
      ensures worst == Worst(entries)
    {
      hide Worst;
      worst := entries[0];
      var i := 1;
      WorstOfOne(entries[0]);
      assert entries[..1] == [entries[0]];
      while i < |entries|
        invariant 1 <= i <= |entries|
        invariant worst == Worst(entries[..i])
      {
        WorstSnoc(entries[..i], entries[i]);
        assert entries[..i + 1] == entries[..i] + [entries[i]];
        if entries[i].rate < worst.rate {
          worst := entries[i];
        }
        i := i + 1;
      }
      assert entries[..|entries|] == entries;
    }

    lemma WorstOfOne(e: PoolEntry)
      ensures Worst([e]) == e
    {
    }

    lemma WorstSnoc(es: seq<PoolEntry>, e: PoolEntry)
      requires es != []
      ensures Worst(es + [e]) == if e.rate < Worst(es).rate then e else Worst(es)
    {
      assert (es + [e])[..|es|] == es;
    }

    /** Drop what a block confirmed. */
    method RemoveMany(txs: seq<Transaction>)
      modifies this
      ensures entries == DeleteAll(old(entries), o, txs)
    {
      for i := 0 to |txs|
        invariant DeleteAll(entries, o, txs[i..]) == DeleteAll(old(entries), o, txs)
      {
        assert txs[i..][1..] == txs[i + 1..];
        entries := Delete(entries, o.txHash(txs[i]));
      }
    }

    /** The least nonce above everything the sender has pending, and not below the chain's. */
    method NextNonceFor(a: Bytes, onChainNonce: int) returns (next: int)
      ensures next >= onChainNonce
      ensures forall i :: 0 <= i < |entries| && Mine(entries[i], a) ==> entries[i].tx.nonce < next
      ensures next == onChainNonce || exists i :: 0 <= i < |entries| && Mine(entries[i], a) && entries[i].tx.nonce == next - 1
    {
      next := onChainNonce;
      for k := 0 to |entries|
        invariant next >= onChainNonce
        invariant forall i :: 0 <= i < k && Mine(entries[i], a) ==> entries[i].tx.nonce < next
        invariant next == onChainNonce || exists i :: 0 <= i < k && Mine(entries[i], a) && entries[i].tx.nonce == next - 1
      {
        var tx := entries[k].tx;
        if tx.DebitsAccount() && tx.from == a && tx.nonce >= next {
          next := tx.nonce + 1;
          assert Mine(entries[k], a);
        }
      }
    }

    /** Split a sender's entries into the run that can be mined and the rest. */
    method Split(s: State, a: Bytes, list: seq<PoolEntry>, ghost pool: seq<PoolEntry>)
      returns (keep: seq<PoolEntry>, drop: seq<PoolEntry>)
      requires list == From(pool, a)
      ensures keep == MineablePrefix(s, pool, a) && drop == Unreached(s, pool, a)
    {
      hide SortBy, From;
      var sorted := SortBy(list, ByNonce());
      var acct := GetAccount(s, a);
      var expected, balance, i := acct.nonce, acct.balance, 0;
      while i < |sorted|
        invariant 0 <= i <= |sorted|
        invariant i + Payable(sorted[i..], expected, balance) == Payable(sorted, acct.nonce, acct.balance)
      {
        var tx := sorted[i].tx;
        if tx.nonce != expected || balance < tx.amount + tx.fee {
          break;
        }
        assert sorted[i..][1..] == sorted[i + 1..];
        balance := balance - (tx.amount + tx.fee);
        expected := expected + 1;
        i := i + 1;
      }
      keep, drop := sorted[..i], sorted[i..];
    }

    /** Group the debiting entries by sender, in order of first appearance, and set the redeems aside. */
    method GroupBySender() returns (order: seq<Bytes>, lists: map<Bytes, seq<PoolEntry>>, redeems: seq<PoolEntry>)
      ensures order == Senders(entries) && redeems == RedeemsOf(entries)
      ensures forall a :: a in lists <==> a in order
      ensures forall a :: a in lists ==> lists[a] == From(entries, a)
    {
      hide From, Senders, RedeemsOf;
      NothingGrouped();
      order, lists, redeems := [], map[], [];
      assert entries[..0] == [];
      for i := 0 to |entries|
        invariant order == Senders(entries[..i]) && redeems == RedeemsOf(entries[..i])
        invariant forall a :: a in lists <==> a in order
        invariant forall a :: From(entries[..i], a) == if a in lists then lists[a] else []
      {
        var e := entries[i];
        assert entries[..i + 1] == entries[..i] + [e];
        SendersSnoc(entries[..i], e);
        RedeemsSnoc(entries[..i], e);
        forall a
          ensures From(entries[..i + 1], a) == From(entries[..i], a) + if Mine(e, a) then [e] else []
        {
          FromSnoc(entries[..i], e, a);
        }
        if e.tx.kind.Redeem? {
          redeems := redeems + [e];
        } else {
          if e.tx.from !in lists {
            order, lists := order + [e.tx.from], lists[e.tx.from := []];
          }
          lists := lists[e.tx.from := lists[e.tx.from] + [e]];
        }
      }
      assert entries[..|entries|] == entries;
    }

    /** Pick the transactions of the next block. */
    method SelectForBlock(s: State, maxBytes: int, ctx: Context) returns (picked: seq<Transaction>)
      ensures picked == Txs(Select(o, s, entries, maxBytes, ctx))
    {
      hide Keep, MineablePrefix, SortBy, Payable, From, Senders, RedeemsOf, Pack, BeforeLock, Unreached, Redeemable;
      var order, lists, redeems := GroupBySender();
      var eligible: seq<PoolEntry> := [];
      for i := 0 to |order|
        invariant eligible == KeepAll(s, entries, order[..i], ctx.scriptsActive)
      {
        assert order[..i + 1][..i] == order[..i] && order[..i + 1][i] == order[i];
        var keep := KeepOf(s, order[i], lists[order[i]], ctx.scriptsActive);
        eligible := eligible + keep;
      }
      assert order[..|order|] == order;
      if ctx.scriptsActive {
        var open := OpenRedeems(s, redeems, ctx);
        RedeemableRedeems(o, s, entries, ctx);
        eligible := eligible + open;
      } else {
        assert eligible + [] == eligible;
      }
      picked := PackTxs(SortBy(eligible, ByRate()), maxBytes);
    }

    method KeepOf(s: State, a: Bytes, list: seq<PoolEntry>, active: bool) returns (keep: seq<PoolEntry>)
      requires list == From(entries, a)
      ensures keep == Keep(s, entries, a, active)
    {
      hide MineablePrefix, Unreached, BeforeLock, From;
      var drop;
      keep, drop := Split(s, a, list, entries);
      if !active {
        keep := CutAtLock(keep);
      }
    }

    method CutAtLock(es: seq<PoolEntry>) returns (r: seq<PoolEntry>)
      ensures r == BeforeLock(es)
    {
      var i := 0;
      while i < |es| && !es[i].tx.kind.Lock?
        invariant 0 <= i <= |es|
        invariant BeforeLock(es) == es[..i] + BeforeLock(es[i..])
      {
        assert es[i..][1..] == es[i + 1..];
        i := i + 1;
      }
      r := es[..i];
    }

    method OpenRedeems(s: State, redeems: seq<PoolEntry>, ctx: Context) returns (open: seq<PoolEntry>)
      requires redeems == RedeemsOf(entries)
      ensures open == Redeemable(o, s, redeems, ctx)
    {
      AllRedeems(entries);
      open := [];
      for i := 0 to |redeems|
        invariant Redeemable(o, s, redeems, ctx) == open + Redeemable(o, s, redeems[i..], ctx)
      {
        assert redeems[i..][1..] == redeems[i + 1..];
        var tx := redeems[i].tx;
        if tx.lockId !in s.locks {
          continue;
        }
        var lock := s.locks[tx.lockId];
        if o.scriptHash(tx.redeemScript) != lock.scriptHash || tx.amount != lock.amount || tx.fee > lock.amount {
          continue;
        }
        if o.authorizes(tx, ctx.height, ctx.mtp) {
          open := open + [redeems[i]];
        }
      }
    }

    lemma {:induction false} AllRedeems(es: seq<PoolEntry>)
      ensures forall i :: 0 <= i < |RedeemsOf(es)| ==> RedeemsOf(es)[i].tx.kind.Redeem?
    {
      if es != [] {
        AllRedeems(es[1..]);
      }
    }

    method PackTxs(ranked: seq<PoolEntry>, maxBytes: int) returns (picked: seq<Transaction>)
      ensures picked == Txs(Pack(ranked, {}, 0, maxBytes))
    {
      hide SizeOf;
      picked := [];
      var usedLocks: set<Bytes>, bytesUsed: nat := {}, 0;
      for i := 0 to |ranked|
        invariant Txs(Pack(ranked, {}, 0, maxBytes)) == picked + Txs(Pack(ranked[i..], usedLocks, bytesUsed, maxBytes))
      {
        assert ranked[i..][1..] == ranked[i + 1..];
        ghost var rest := Pack(ranked[i..], usedLocks, bytesUsed, maxBytes);
        var tx := ranked[i].tx;
        if tx.kind.Redeem? {
          if tx.lockId in usedLocks {
            continue;
          }
        }
        var sz := SizeOf(tx);
        if bytesUsed + sz > maxBytes {
          return;
        }
        if tx.kind.Redeem? {
          usedLocks := usedLocks + {tx.lockId};
        }
        picked := picked + [tx];
        bytesUsed := bytesUsed + sz;
        assert rest == [ranked[i]] + Pack(ranked[i + 1..], usedLocks, bytesUsed, maxBytes);
        assert Txs(rest) == [tx] + Txs(rest[1..]);
      }
    }

    // ---- Pruning ----

    /** Drop what can no longer be mined against the new tip; the number removed. */
    method PruneUnminable(s: State, now: int) returns (removed: nat)
      requires PoolOk(o, entries)
      modifies this
      ensures entries == Prune(s, old(entries), now)
      ensures removed == |old(entries)| - |entries|
    {
      ghost var pool := entries;
      ghost var gone: set<PoolEntry> := {};
      MinusNone(pool);
      hide Minus, Prune, Apart;
      removed, gone := PruneAccounts(s, now);
      var more: nat;
      more, gone := PruneWhere(e => LockGone(s, now, e), pool, gone, removed);
      removed := removed + more;
      more, gone := PruneWhere(e => TooOld(now, e), pool, gone, removed);
      removed := removed + more;
      PassesTogether(s, pool, now, gone);
    }

    lemma PassesTogether(s: State, pool: seq<PoolEntry>, now: int, gone: set<PoolEntry>)
      requires forall x :: x in gone <==> x in pool && (Stuck(s, pool, now, x) || LockGone(s, now, x) || TooOld(now, x))
      ensures Minus(pool, gone) == Prune(s, pool, now)
    {
      hide Stuck, LockGone, TooOld;
      MinusIsRetain(pool, gone, e => !Evicted(s, pool, now, e));
    }

    /** One pass over what is left, deleting what meets a condition of its own. */
    method PruneWhere(cond: PoolEntry -> bool, ghost pool: seq<PoolEntry>, ghost gone: set<PoolEntry>, ghost before: nat)
      returns (removed: nat, ghost gone': set<PoolEntry>)
      requires Thinned(pool, gone, entries, before)
      modifies this
      ensures Thinned(pool, gone', entries, before + removed)
      ensures forall x :: x in gone' <==> x in gone || (x in pool && cond(x))
    {
      var left := entries;
      RetainLaws(pool, (x: PoolEntry) => x !in gone);
      assert forall x :: x in left <==> x in pool && x !in gone;
      LeftOnce(pool, gone, left, before);
      hide Thinned;
      removed, gone' := 0, gone;
      for i := 0 to |left|
        invariant Thinned(pool, gone', entries, before + removed)
        invariant forall x :: x in gone' <==> x in gone || (x in left[..i] && cond(x))
      {
        assert left[..i + 1] == left[..i] + [left[i]];
        if cond(left[i]) {
          assert left[i] !in left[..i];
          ThinnedOne(pool, gone', entries, before + removed, left[i]);
          entries := Delete(entries, left[i].hash);
          removed, gone' := removed + 1, gone' + {left[i]};
        }
      }
      assert left[..|left|] == left;
    }

    lemma LeftOnce(pool: seq<PoolEntry>, gone: set<PoolEntry>, left: seq<PoolEntry>, n: nat)
      requires Thinned(pool, gone, left, n)
      ensures forall i, j :: 0 <= i < j < |left| ==> left[i] != left[j]
    {
      RetainLaws(pool, (x: PoolEntry) => x !in gone);
      assert Apart(left);
    }

    /** Gone after the first senders of the list: their stuck entries. */
    ghost predicate GoneUpTo(s: State, pool: seq<PoolEntry>, now: int, order: seq<Bytes>, gone: set<PoolEntry>) {
      forall x :: x in gone <==> x in pool && x.tx.from in order && Stuck(s, pool, now, x)
    }

    lemma NextSender(s: State, pool: seq<PoolEntry>, now: int, order: seq<Bytes>, a: Bytes, gone: set<PoolEntry>, gone': set<PoolEntry>)
      requires GoneUpTo(s, pool, now, order, gone)
      requires forall x :: x in gone' <==> x in gone || (x in pool && Mine(x, a) && Stuck(s, pool, now, x))
      ensures GoneUpTo(s, pool, now, order + [a], gone')
    {
      hide Unreached, Hopeless;
    }

    lemma AllSenders(s: State, pool: seq<PoolEntry>, now: int, gone: set<PoolEntry>)
      requires GoneUpTo(s, pool, now, Senders(pool), gone)
      ensures forall x :: x in gone <==> x in pool && Stuck(s, pool, now, x)
    {
      hide Unreached, Hopeless, Senders;
      forall x | x in pool && Stuck(s, pool, now, x)
        ensures x.tx.from in Senders(pool)
      {
        SenderListed(pool, x);
      }
    }

    lemma NothingGone(s: State, now: int)
      requires PoolOk(o, entries)
      ensures Thinned(entries, {}, entries, 0) && GoneUpTo(s, entries, now, Senders(entries)[..0], {})
    {
      hide Rivals, Stuck, Senders;
      MinusNone(entries);
    }

    lemma NotYetGone(s: State, pool: seq<PoolEntry>, now: int, i: nat, gone: set<PoolEntry>)
      requires i < |Senders(pool)| && GoneUpTo(s, pool, now, Senders(pool)[..i], gone)
      ensures forall x :: x in gone ==> !Mine(x, Senders(pool)[i])
    {
      hide Stuck;
      SendersDistinct(pool);
      hide Senders;
    }

    method PruneAccounts(s: State, now: int) returns (removed: nat, ghost gone: set<PoolEntry>)
      requires PoolOk(o, entries)
      modifies this
      ensures Thinned(old(entries), gone, entries, removed)
      ensures forall x :: x in gone <==> x in old(entries) && Stuck(s, old(entries), now, x)
    {
      hide GetAccount, Unreached, MineablePrefix, Stuck, Senders, From, RedeemsOf, PoolOk, Thinned, GoneUpTo;
      ghost var pool := entries;
      NothingGone(s, now);
      var order, lists, redeems := GroupBySender();
      removed, gone := 0, {};
      for i := 0 to |order|
        invariant Thinned(pool, gone, entries, removed)
        invariant GoneUpTo(s, pool, now, order[..i], gone)
      {
        assert order[..i + 1] == order[..i] + [order[i]];
        NotYetGone(s, pool, now, i, gone);
        var keep, drop := Split(s, order[i], lists[order[i]], pool);
        var more;
        ghost var gone' := gone;
        more, gone := EvictDropped(s, order[i], drop, now, pool, gone, removed);
        removed := removed + more;
        NextSender(s, pool, now, order[..i], order[i], gone', gone);
      }
      assert order[..|order|] == order;
      AllSenders(s, pool, now, gone);
    }

    method EvictDropped(s: State, a: Bytes, drop: seq<PoolEntry>, now: int, ghost pool: seq<PoolEntry>, ghost gone: set<PoolEntry>,
                        ghost before: nat)
      returns (removed: nat, ghost gone': set<PoolEntry>)
      requires Thinned(pool, gone, entries, before) && drop == Unreached(s, pool, a)
      requires forall x :: x in gone ==> !Mine(x, a)
      modifies this
      ensures Thinned(pool, gone', entries, before + removed)
      ensures forall x :: x in gone' <==> x in gone || (x in pool && Mine(x, a) && Stuck(s, pool, now, x))
    {
      UnreachedOnce(s, pool, a);
      hide Unreached, Thinned, GetAccount;
      var senderNonce := GetAccount(s, a).nonce;
      removed, gone' := 0, gone;
      for i := 0 to |drop|
        invariant Thinned(pool, gone', entries, before + removed)
        invariant forall x :: x in gone' <==> x in gone || (x in drop[..i] && Hopeless(s, now, x))
      {
        var e := drop[i];
        assert drop[..i + 1] == drop[..i] + [e];
        var dead := e.tx.nonce < senderNonce;
        assert Mine(e, a) && e !in drop[..i];
        if dead || now - e.receivedAt >= UNMINABLE_GRACE_MS {
          ThinnedOne(pool, gone', entries, before + removed, e);
          entries := Delete(entries, e.hash);
          removed, gone' := removed + 1, gone' + {e};
        }
      }
      assert drop[..|drop|] == drop;
    }
  }
}
