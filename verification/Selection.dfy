/** What block selection guarantees, and exactly when the selected list replays. */
module Selection {
  import opened Genesis
  import opened Transactions
  import opened Ledger
  import opened Balances
  import opened Conservation
  import opened OnceOnly
  import opened Pool

  // ---- Stable sorting ----

  /** "Comes before" as a strict weak order. */
  ghost predicate Weak(before: (PoolEntry, PoolEntry) -> bool) {
    && (forall a, b :: before(a, b) ==> !before(b, a))
    && (forall a, b, c :: before(a, c) ==> before(a, b) || before(b, c))
  }

  lemma OrdersAreWeak()
    ensures Weak(ByNonce()) && Weak(ByRate())
  {
  }

  ghost predicate Sorted(es: seq<PoolEntry>, before: (PoolEntry, PoolEntry) -> bool) {
    forall i, j :: 0 <= i < j < |es| ==> !before(es[j], es[i])
  }

  lemma {:induction false} InsertSorted(es: seq<PoolEntry>, e: PoolEntry, before: (PoolEntry, PoolEntry) -> bool)
    requires Weak(before) && Sorted(es, before)
    ensures Sorted(InsertBy(es, e, before), before)
    ensures multiset(InsertBy(es, e, before)) == multiset(es) + multiset{e}
  {
    if es != [] {
      var front, last := es[..|es| - 1], es[|es| - 1];
      assert es == front + [last];
      if before(e, last) {
        InsertSorted(front, e, before);
        var r := InsertBy(front, e, before);
        forall i | 0 <= i < |r|
          ensures !before(last, r[i])
        {
          assert r[i] in multiset(r);
          if r[i] != e {
            assert r[i] in multiset(front);
          }
        }
      } else {
        forall i | 0 <= i < |es|
          ensures !before(e, es[i])
        {
          assert i < |es| - 1 ==> !before(last, es[i]);
        }
      }
    }
  }

  lemma {:induction false} SortSorted(es: seq<PoolEntry>, before: (PoolEntry, PoolEntry) -> bool)
    requires Weak(before)
    ensures Sorted(SortBy(es, before), before)
    ensures multiset(SortBy(es, before)) == multiset(es)
  {
    if es != [] {
      var front := es[..|es| - 1];
      assert es == front + [es[|es| - 1]];
      hide Weak, Sorted;
      SortSorted(front, before);
      InsertSorted(SortBy(front, before), es[|es| - 1], before);
    } else {
      assert Sorted([], before);
    }
  }

  lemma {:induction false} SortOfSorted(es: seq<PoolEntry>, before: (PoolEntry, PoolEntry) -> bool)
    requires Sorted(es, before)
    ensures SortBy(es, before) == es
  {
    if es != [] {
      var front, last := es[..|es| - 1], es[|es| - 1];
      assert es == front + [last];
      SortOfSorted(front, before);
      assert front != [] ==> !before(last, front[|front| - 1]);
    }
  }

  lemma SortMember(es: seq<PoolEntry>, before: (PoolEntry, PoolEntry) -> bool, e: PoolEntry)
    requires Weak(before)
    ensures e in SortBy(es, before) <==> e in es
  {
    SortSorted(es, before);
    hide Weak, Sorted, SortBy;
    assert e in SortBy(es, before) <==> e in multiset(SortBy(es, before));
    assert e in es <==> e in multiset(es);
  }

  // ---- One sender's entries ----

  predicate Mine(e: PoolEntry, a: Bytes) {
    e.tx.DebitsAccount() && e.tx.from == a
  }

  lemma {:induction false} FromAppend(xs: seq<PoolEntry>, ys: seq<PoolEntry>, a: Bytes)
    ensures From(xs + ys, a) == From(xs, a) + From(ys, a)
  {
    if xs == [] {
      assert xs + ys == ys;
    } else {
      assert (xs + ys)[1..] == xs[1..] + ys;
      FromAppend(xs[1..], ys, a);
    }
  }

  lemma FromSnoc(xs: seq<PoolEntry>, e: PoolEntry, a: Bytes)
    ensures From(xs + [e], a) == From(xs, a) + if Mine(e, a) then [e] else []
  {
    FromAppend(xs, [e], a);
    assert [e][1..] == [];
  }

  lemma {:induction false} FromMember(es: seq<PoolEntry>, a: Bytes, e: PoolEntry)
    ensures e in From(es, a) <==> e in es && Mine(e, a)
  {
    if es != [] {
      assert es == [es[0]] + es[1..];
      FromMember(es[1..], a, e);
    }
  }

  lemma {:induction false} FromInsert(es: seq<PoolEntry>, e: PoolEntry, before: (PoolEntry, PoolEntry) -> bool, a: Bytes)
    requires Weak(before) && Sorted(es, before)
    ensures From(InsertBy(es, e, before), a) == if Mine(e, a) then InsertBy(From(es, a), e, before) else From(es, a)
  {
    if es == [] {
      FromSnoc([], e, a);
      assert [] + [e] == [e];
    } else {
      var front, last := es[..|es| - 1], es[|es| - 1];
      assert es == front + [last];
      FromSnoc(front, last, a);
      if before(e, last) {
        FromInsert(front, e, before, a);
        FromSnoc(InsertBy(front, e, before), last, a);
        if Mine(last, a) {
          SnocParts(From(front, a), last);
        } else {
          assert From(es, a) == From(front, a);
          assert From(InsertBy(es, e, before), a) == From(InsertBy(front, e, before), a);
        }
        hide Weak, Sorted, From;
      } else {
        FromSnoc(es, e, a);
        if From(es, a) != [] {
          NotBeforeAny(es, e, before, a);
        }
      }
    }
  }

  lemma SnocParts(xs: seq<PoolEntry>, e: PoolEntry)
    ensures (xs + [e])[..|xs + [e]| - 1] == xs && (xs + [e])[|xs + [e]| - 1] == e
  {
  }

  lemma NotBeforeAny(es: seq<PoolEntry>, e: PoolEntry, before: (PoolEntry, PoolEntry) -> bool, a: Bytes)
    requires Weak(before) && Sorted(es, before) && From(es, a) != [] && es != [] && !before(e, es[|es| - 1])
    ensures !before(e, From(es, a)[|From(es, a)| - 1])
  {
    var last := From(es, a)[|From(es, a)| - 1];
    FromMember(es, a, last);
    hide From;
    var i :| 0 <= i < |es| && es[i] == last;
    assert i < |es| - 1 ==> !before(es[|es| - 1], es[i]);
  }

  /** Stable sorting commutes with picking out one sender. */
  lemma {:induction false} FromSort(es: seq<PoolEntry>, before: (PoolEntry, PoolEntry) -> bool, a: Bytes)
    requires Weak(before)
    ensures From(SortBy(es, before), a) == SortBy(From(es, a), before)
  {
    if es != [] {
      var front, last := es[..|es| - 1], es[|es| - 1];
      assert es == front + [last];
      SortSorted(front, before);
      FromInsert(SortBy(front, before), last, before, a);
      FromSort(front, before, a);
      FromSnoc(front, last, a);
      hide Weak, Sorted, From;
      if Mine(last, a) {
        SnocParts(From(front, a), last);
      } else {
        assert From(es, a) == From(front, a);
      }
    }
  }

  ghost predicate AllMine(es: seq<PoolEntry>, a: Bytes) {
    forall i :: 0 <= i < |es| ==> Mine(es[i], a)
  }

  lemma {:induction false} FromMine(es: seq<PoolEntry>, b: Bytes, a: Bytes)
    requires AllMine(es, b)
    ensures From(es, a) == if a == b then es else []
  {
    if es != [] {
      FromMine(es[1..], b, a);
    }
  }

  lemma {:induction false} FromNone(es: seq<PoolEntry>, a: Bytes)
    requires forall i :: 0 <= i < |es| ==> !Mine(es[i], a)
    ensures From(es, a) == []
  {
    if es != [] {
      FromNone(es[1..], a);
    }
  }

  // ---- Eligible entries ----

  lemma PrefixMine(s: State, pool: seq<PoolEntry>, a: Bytes, active: bool)
    ensures AllMine(Keep(s, pool, a, active), a)
  {
    OrdersAreWeak();
    var sorted := SortBy(From(pool, a), ByNonce());
    forall i | 0 <= i < |sorted|
      ensures Mine(sorted[i], a)
    {
      SortMember(From(pool, a), ByNonce(), sorted[i]);
    }
    hide SortBy, Payable, BeforeLock;
  }

  lemma {:induction false} SendersDistinct(es: seq<PoolEntry>)
    ensures forall i, j :: 0 <= i < j < |Senders(es)| ==> Senders(es)[i] != Senders(es)[j]
    ensures forall a :: a !in Senders(es) ==> From(es, a) == []
  {
    if es != [] {
      var front, last := es[..|es| - 1], es[|es| - 1];
      assert es == front + [last];
      SendersDistinct(front);
      forall a | a !in Senders(es)
        ensures From(es, a) == []
      {
        FromSnoc(front, last, a);
      }
    }
  }

  lemma KeepOfNone(s: State, pool: seq<PoolEntry>, a: Bytes, active: bool)
    requires From(pool, a) == []
    ensures Keep(s, pool, a, active) == []
  {
  }

  lemma {:induction false} FromKeepAll(s: State, pool: seq<PoolEntry>, senders: seq<Bytes>, active: bool, a: Bytes)
    requires forall i, j :: 0 <= i < j < |senders| ==> senders[i] != senders[j]
    ensures From(KeepAll(s, pool, senders, active), a) == if a in senders then Keep(s, pool, a, active) else []
  {
    hide Keep;
    if senders != [] {
      var n := |senders| - 1;
      var front, b := senders[..n], senders[n];
      assert senders == front + [b];
      FromKeepAll(s, pool, front, active, a);
      PrefixMine(s, pool, b, active);
      FromMine(Keep(s, pool, b, active), b, a);
      FromAppend(KeepAll(s, pool, front, active), Keep(s, pool, b, active), a);
    }
  }

  /** What is eligible of one sender is its mineable prefix, in nonce order. */
  lemma FromEligible(o: Oracle, s: State, pool: seq<PoolEntry>, ctx: Context, a: Bytes)
    ensures From(Eligible(o, s, pool, ctx), a) == Keep(s, pool, a, ctx.scriptsActive)
  {
    var redeems := if ctx.scriptsActive then Redeemable(o, s, pool, ctx) else [];
    SendersDistinct(pool);
    FromKeepAll(s, pool, Senders(pool), ctx.scriptsActive, a);
    FromNone(redeems, a);
    FromAppend(KeepAll(s, pool, Senders(pool), ctx.scriptsActive), redeems, a);
    if a !in Senders(pool) {
      KeepOfNone(s, pool, a, ctx.scriptsActive);
    }
    hide KeepAll, Keep, Redeemable, Senders, From;
  }

  /** In the ranked list, one sender's entries are its mineable prefix sorted by rate. */
  lemma FromRanked(o: Oracle, s: State, pool: seq<PoolEntry>, ctx: Context, a: Bytes)
    ensures From(Ranked(o, s, pool, ctx), a) == SortBy(Keep(s, pool, a, ctx.scriptsActive), ByRate())
  {
    OrdersAreWeak();
    FromSort(Eligible(o, s, pool, ctx), ByRate(), a);
    FromEligible(o, s, pool, ctx, a);
  }

  // ---- A list that replays ----

  /** One sender's entries continue its nonce and stay within its balance. */
  ghost predicate PaysFor(s: State, es: seq<PoolEntry>, a: Bytes) {
    Payable(From(es, a), GetAccount(s, a).nonce, GetAccount(s, a).balance) == |From(es, a)|
  }

  ghost predicate RedeemsOk(o: Oracle, s: State, created: set<Bytes>, es: seq<PoolEntry>, ctx: Context) {
    && (forall i :: 0 <= i < |es| && es[i].tx.kind.Redeem? ==> RedeemError(o, s, created, es[i].tx, ctx).None?)
    && (forall i, j :: 0 <= i < j < |es| && es[i].tx.kind.Redeem? && es[j].tx.kind.Redeem? ==> es[i].tx.lockId != es[j].tx.lockId)
  }

  /** No lock of the list has the id of a live lock or of another lock of the list. */
  ghost predicate LocksFresh(o: Oracle, s: State, es: seq<PoolEntry>) {
    && (forall i :: 0 <= i < |es| && es[i].tx.kind.Lock? ==> o.txHash(es[i].tx) !in s.locks)
    && (forall i, j :: 0 <= i < j < |es| && es[i].tx.kind.Lock? && es[j].tx.kind.Lock? ==> o.txHash(es[i].tx) != o.txHash(es[j].tx))
  }

  ghost predicate Plain(es: seq<PoolEntry>, ctx: Context) {
    forall i :: 0 <= i < |es| ==> NonNegative(es[i].tx) && (es[i].tx.kind.Transfer? || ctx.scriptsActive)
  }

  ghost predicate Replayable(o: Oracle, s: State, created: set<Bytes>, es: seq<PoolEntry>, ctx: Context) {
    && (forall a :: PaysFor(s, es, a))
    && RedeemsOk(o, s, created, es, ctx)
    && LocksFresh(o, s, es)
    && Plain(es, ctx)
  }

  lemma {:induction false} PayableMore(es: seq<PoolEntry>, nonce: int, b: int, b': int)
    requires b <= b' && Payable(es, nonce, b) == |es|
    ensures Payable(es, nonce, b') == |es|
  {
    if es != [] {
      PayableMore(es[1..], nonce + 1, b - es[0].tx.amount - es[0].tx.fee, b' - es[0].tx.amount - es[0].tx.fee);
    }
  }

  lemma FirstApplies(o: Oracle, s: State, created: set<Bytes>, es: seq<PoolEntry>, ctx: Context)
    requires es != [] && Replayable(o, s, created, es, ctx)
    ensures ApplyTx(o, s, created, es[0].tx, ctx).Applied?
  {
    var tx := es[0].tx;
    assert PaysFor(s, es, tx.from);
    assert tx.DebitsAccount() ==> From(es, tx.from)[0] == es[0];
    hide Debit, Credit, GetAccount;
  }

  lemma PaysForRest(o: Oracle, s: State, created: set<Bytes>, es: seq<PoolEntry>, ctx: Context, a: Bytes)
    requires es != [] && PaysFor(s, es, a) && NonNegative(es[0].tx) && ApplyTx(o, s, created, es[0].tx, ctx).Applied?
    ensures PaysFor(ApplyTx(o, s, created, es[0].tx, ctx).state, es[1..], a)
  {
    var tx, s' := es[0].tx, ApplyTx(o, s, created, es[0].tx, ctx).state;
    TxPays(o, s, created, tx, ctx, a);
    TxNonces(o, s, created, tx, ctx, a);
    hide ApplyTx, GetAccount;
    var rest, acct := From(es[1..], a), GetAccount(s, a);
    if Mine(es[0], a) {
      assert From(es, a)[1..] == rest;
      PayableMore(rest, acct.nonce + 1, acct.balance - tx.amount - tx.fee, GetAccount(s', a).balance);
    } else {
      PayableMore(rest, acct.nonce, acct.balance, GetAccount(s', a).balance);
    }
  }

  lemma LocksRest(o: Oracle, s: State, created: set<Bytes>, es: seq<PoolEntry>, ctx: Context)
    requires es != [] && RedeemsOk(o, s, created, es, ctx) && LocksFresh(o, s, es)
    requires ApplyTx(o, s, created, es[0].tx, ctx).Applied?
    ensures var r := ApplyTx(o, s, created, es[0].tx, ctx);
      RedeemsOk(o, r.state, r.created, es[1..], ctx) && LocksFresh(o, r.state, es[1..])
  {
    TxLocks(o, s, created, es[0].tx, ctx);
    hide ApplyTx;
  }

  /** Such a list applies to the end. */
  lemma {:induction false} ReplayableApplies(o: Oracle, s: State, created: set<Bytes>, es: seq<PoolEntry>, ctx: Context)
    requires Replayable(o, s, created, es, ctx)
    ensures ApplyTxs(o, s, created, Txs(es), ctx).Applied?
    decreases |es|
  {
    if es != [] {
      FirstApplies(o, s, created, es, ctx);
      LocksRest(o, s, created, es, ctx);
      var r := ApplyTx(o, s, created, es[0].tx, ctx);
      assert NonNegative(es[0].tx);
      forall a
        ensures PaysFor(r.state, es[1..], a)
      {
        assert PaysFor(s, es, a);
        PaysForRest(o, s, created, es, ctx, a);
      }
      hide ApplyTx, PaysFor, RedeemsOk, LocksFresh;
      ReplayableApplies(o, r.state, r.created, es[1..], ctx);
      assert Txs(es)[1..] == Txs(es[1..]);
    }
  }

  /** One sender's entries have consecutive nonces. */
  ghost predicate Sequential(es: seq<PoolEntry>, nonce: int) {
    forall i :: 0 <= i < |es| ==> es[i].tx.nonce == nonce + i
  }

  /** Conversely, a list that applies has every sender's nonces in sequence. */
  lemma {:induction false} AppliedIsSequential(o: Oracle, s: State, created: set<Bytes>, es: seq<PoolEntry>, ctx: Context, a: Bytes)
    requires ApplyTxs(o, s, created, Txs(es), ctx).Applied?
    ensures Sequential(From(es, a), GetAccount(s, a).nonce)
    decreases |es|
  {
    if es != [] {
      assert Txs(es)[1..] == Txs(es[1..]);
      TxNonces(o, s, created, es[0].tx, ctx, a);
      hide ApplyTx, GetAccount;
      var r := ApplyTx(o, s, created, es[0].tx, ctx);
      AppliedIsSequential(o, r.state, r.created, es[1..], ctx, a);
    }
  }

  // ---- Packing ----

  /** Packing takes a start of each sender's entries, never two redeems of a lock, and never too many bytes. */
  lemma {:induction false} PackFrom(es: seq<PoolEntry>, usedLocks: set<Bytes>, bytesUsed: nat, maxBytes: int, a: Bytes)
    ensures var p := From(Pack(es, usedLocks, bytesUsed, maxBytes), a);
      && |p| <= |From(es, a)| && p == From(es, a)[..|p|]
      && (bytesUsed + TotalSize(es) <= maxBytes ==> p == From(es, a))
    decreases |es|
  {
    hide SizeOf;
    if es != [] {
      var tx := es[0].tx;
      if tx.kind.Redeem? && tx.lockId in usedLocks {
        PackFrom(es[1..], usedLocks, bytesUsed, maxBytes, a);
      } else if bytesUsed + SizeOf(tx) <= maxBytes {
        PackFrom(es[1..], if tx.kind.Redeem? then usedLocks + {tx.lockId} else usedLocks, bytesUsed + SizeOf(tx), maxBytes, a);
      }
    }
  }

  lemma {:induction false} PackFits(es: seq<PoolEntry>, usedLocks: set<Bytes>, bytesUsed: nat, maxBytes: int)
    requires bytesUsed <= maxBytes
    ensures var p := Pack(es, usedLocks, bytesUsed, maxBytes);
      bytesUsed + TotalSize(p) <= maxBytes && forall i :: 0 <= i < |p| ==> p[i] in es
    decreases |es|
  {
    hide SizeOf;
    if es != [] {
      assert es == [es[0]] + es[1..];
      var tx := es[0].tx;
      if tx.kind.Redeem? && tx.lockId in usedLocks {
        PackFits(es[1..], usedLocks, bytesUsed, maxBytes);
      } else if bytesUsed + SizeOf(tx) <= maxBytes {
        PackFits(es[1..], if tx.kind.Redeem? then usedLocks + {tx.lockId} else usedLocks, bytesUsed + SizeOf(tx), maxBytes);
      }
    }
  }

  /** Redeems of unused locks, each lock once. */
  ghost predicate FreshRedeems(p: seq<PoolEntry>, usedLocks: set<Bytes>) {
    && (forall i :: 0 <= i < |p| && p[i].tx.kind.Redeem? ==> p[i].tx.lockId !in usedLocks)
    && (forall i, j :: 0 <= i < j < |p| && p[i].tx.kind.Redeem? && p[j].tx.kind.Redeem? ==> p[i].tx.lockId != p[j].tx.lockId)
  }

  lemma FreshCons(e: PoolEntry, p: seq<PoolEntry>, usedLocks: set<Bytes>)
    requires !(e.tx.kind.Redeem? && e.tx.lockId in usedLocks)
    requires FreshRedeems(p, if e.tx.kind.Redeem? then usedLocks + {e.tx.lockId} else usedLocks)
    ensures FreshRedeems([e] + p, usedLocks)
  {
  }

  lemma {:induction false} PackFresh(es: seq<PoolEntry>, usedLocks: set<Bytes>, bytesUsed: nat, maxBytes: int)
    ensures FreshRedeems(Pack(es, usedLocks, bytesUsed, maxBytes), usedLocks)
    decreases |es|
  {
    hide SizeOf;
    if es != [] {
      var tx := es[0].tx;
      if tx.kind.Redeem? && tx.lockId in usedLocks {
        hide FreshRedeems;
        PackFresh(es[1..], usedLocks, bytesUsed, maxBytes);
      } else if bytesUsed + SizeOf(tx) <= maxBytes {
        hide FreshRedeems;
        var used := if tx.kind.Redeem? then usedLocks + {tx.lockId} else usedLocks;
        PackFresh(es[1..], used, bytesUsed + SizeOf(tx), maxBytes);
        FreshCons(es[0], Pack(es[1..], used, bytesUsed + SizeOf(tx), maxBytes), usedLocks);
      }
    }
  }

  // ---- Prefixes ----

  lemma {:induction false} PayablePrefix(es: seq<PoolEntry>, nonce: int, balance: int, n: nat)
    requires n <= Payable(es, nonce, balance)
    ensures Payable(es[..n], nonce, balance) == n && Sequential(es[..n], nonce)
    decreases n
  {
    if n > 0 {
      PayablePrefix(es[1..], nonce + 1, balance - es[0].tx.amount - es[0].tx.fee, n - 1);
      assert es[..n][1..] == es[1..][..n - 1];
      assert es[..n] == [es[0]] + es[1..][..n - 1];
    }
  }

  /** A kept run, and any start of it, can be paid for in sequence. */
  lemma KeepIsPayable(s: State, pool: seq<PoolEntry>, a: Bytes, active: bool, n: nat)
    requires n <= |Keep(s, pool, a, active)|
    ensures var k, acct := Keep(s, pool, a, active), GetAccount(s, a);
      Payable(k[..n], acct.nonce, acct.balance) == n && Sequential(k[..n], acct.nonce)
  {
    var sorted, acct := SortBy(From(pool, a), ByNonce()), GetAccount(s, a);
    var m := MineablePrefix(s, pool, a);
    var k := Keep(s, pool, a, active);
    hide SortBy, From, Payable, BeforeLock, GetAccount;
    assert k[..n] == sorted[..n];
    PayablePrefix(sorted, acct.nonce, acct.balance, n);
  }

  lemma {:induction false} NoLockBefore(es: seq<PoolEntry>)
    ensures forall i :: 0 <= i < |BeforeLock(es)| ==> !BeforeLock(es)[i].tx.kind.Lock?
  {
    if es != [] {
      NoLockBefore(es[1..]);
    }
  }

  lemma KeepMember(s: State, pool: seq<PoolEntry>, a: Bytes, active: bool, e: PoolEntry)
    requires e in Keep(s, pool, a, active)
    ensures e in pool && (e.tx.kind.Lock? ==> active)
  {
    OrdersAreWeak();
    SortMember(From(pool, a), ByNonce(), e);
    FromMember(pool, a, e);
    NoLockBefore(MineablePrefix(s, pool, a));
    hide SortBy, From, Payable, BeforeLock, Weak;
  }

  lemma {:induction false} KeepAllDebits(s: State, pool: seq<PoolEntry>, senders: seq<Bytes>, active: bool, e: PoolEntry)
    requires e in KeepAll(s, pool, senders, active)
    ensures e.tx.DebitsAccount() && e in Keep(s, pool, e.tx.from, active)
  {
    hide Keep;
    if senders != [] {
      var n := |senders| - 1;
      if e in KeepAll(s, pool, senders[..n], active) {
        KeepAllDebits(s, pool, senders[..n], active, e);
      } else {
        PrefixMine(s, pool, senders[n], active);
      }
    }
  }

  /** Everything selected is in the pool and allowed in this context. */
  lemma RankedMember(o: Oracle, s: State, pool: seq<PoolEntry>, ctx: Context, e: PoolEntry)
    requires e in Ranked(o, s, pool, ctx)
    ensures e in pool && (!e.tx.kind.Transfer? ==> ctx.scriptsActive)
    ensures e.tx.kind.Redeem? ==> RedeemError(o, s, {}, e.tx, ctx).None?
  {
    OrdersAreWeak();
    SortMember(Eligible(o, s, pool, ctx), ByRate(), e);
    hide SortBy, Weak, RedeemError, KeepAll;
    if e in KeepAll(s, pool, Senders(pool), ctx.scriptsActive) {
      KeepAllDebits(s, pool, Senders(pool), ctx.scriptsActive, e);
      KeepMember(s, pool, e.tx.from, ctx.scriptsActive, e);
    }
  }

  // ---- When the selection replays ----

  /** A pooled lock whose nonce is not spent yet is not live. */
  ghost predicate LocksPending(s: State, pool: seq<PoolEntry>) {
    forall i :: 0 <= i < |pool| && pool[i].tx.kind.Lock? && pool[i].tx.nonce >= GetAccount(s, pool[i].tx.from).nonce ==>
      pool[i].hash !in s.locks
  }

  predicate RatesNeverRise(es: seq<PoolEntry>) {
    forall i, j :: 0 <= i < j < |es| ==> es[i].rate >= es[j].rate
  }

  /** The selected list applies, in its order, to the state it was selected against. */
  ghost predicate Applies(o: Oracle, s: State, pool: seq<PoolEntry>, maxBytes: int, ctx: Context) {
    ApplyTxs(o, s, {}, Txs(Select(o, s, pool, maxBytes, ctx)), ctx).Applied?
  }

  lemma SequentialSorted(es: seq<PoolEntry>, nonce: int)
    requires Sequential(es, nonce) && RatesNeverRise(es)
    ensures Sorted(es, ByRate())
  {
  }

  /** Sorting by rate keeps consecutive nonces in order only if the rates never rise. */
  lemma SortedSequential(es: seq<PoolEntry>, nonce: int)
    requires Sequential(es, nonce) && Sequential(SortBy(es, ByRate()), nonce)
    ensures RatesNeverRise(es)
  {
    OrdersAreWeak();
    var w := SortBy(es, ByRate());
    SortSorted(es, ByRate());
    forall i | 0 <= i < |es|
      ensures w[i] == es[i]
    {
      SortMember(es, ByRate(), w[i]);
      hide SortBy, Sorted, Weak;
      var k :| 0 <= k < |es| && es[k] == w[i];
      assert es[k].tx.nonce == nonce + k && w[i].tx.nonce == nonce + i;
    }
    hide SortBy, Weak;
    forall i, j | 0 <= i < j < |es|
      ensures es[i].rate >= es[j].rate
    {
      assert !ByRate()(w[j], w[i]);
    }
  }

  lemma {:induction false} SequentialOrder(es: seq<PoolEntry>, a: Bytes, nonce: int, i: nat, j: nat)
    requires i < j < |es| && Mine(es[i], a) && Mine(es[j], a) && Sequential(From(es, a), nonce)
    ensures nonce <= es[i].tx.nonce < es[j].tx.nonce
    decreases |es|
  {
    var rest := From(es[1..], a);
    if Mine(es[0], a) {
      assert From(es, a)[1..] == rest && From(es, a)[0] == es[0];
      assert Sequential(rest, nonce + 1) by {
        hide From;
        forall k | 0 <= k < |rest|
          ensures rest[k].tx.nonce == nonce + 1 + k
        {
          assert rest[k] == From(es, a)[k + 1];
        }
      }
      if i == 0 {
        SequentialAt(es[1..], a, nonce + 1, j - 1);
      } else {
        SequentialOrder(es[1..], a, nonce + 1, i - 1, j - 1);
      }
    } else {
      SequentialOrder(es[1..], a, nonce, i - 1, j - 1);
    }
  }

  lemma SequentialAt(es: seq<PoolEntry>, a: Bytes, nonce: int, j: nat)
    requires j < |es| && Mine(es[j], a) && Sequential(From(es, a), nonce)
    ensures es[j].tx.nonce >= nonce
  {
    FromMember(es, a, es[j]);
  }

  lemma SelectedPays(o: Oracle, s: State, pool: seq<PoolEntry>, maxBytes: int, ctx: Context, a: Bytes)
    requires RatesNeverRise(Keep(s, pool, a, ctx.scriptsActive))
    ensures var p := Select(o, s, pool, maxBytes, ctx);
      PaysFor(s, p, a) && Sequential(From(p, a), GetAccount(s, a).nonce)
  {
    hide RatesNeverRise, From, SortBy, Ranked, Pack, Keep, Sorted, Sequential, Payable;
    var k := Keep(s, pool, a, ctx.scriptsActive);
    KeepIsPayable(s, pool, a, ctx.scriptsActive, |k|);
    assert k[..|k|] == k;
    SequentialSorted(k, GetAccount(s, a).nonce);
    SortOfSorted(k, ByRate());
    FromRanked(o, s, pool, ctx, a);
    PackFrom(Ranked(o, s, pool, ctx), {}, 0, maxBytes, a);
    var p := From(Select(o, s, pool, maxBytes, ctx), a);
    KeepIsPayable(s, pool, a, ctx.scriptsActive, |p|);
  }

  lemma SelectedLocksFresh(o: Oracle, s: State, pool: seq<PoolEntry>, p: seq<PoolEntry>)
    requires PoolOk(o, pool) && LocksPending(s, pool)
    requires forall i :: 0 <= i < |p| ==> p[i] in pool
    requires forall a :: Sequential(From(p, a), GetAccount(s, a).nonce)
    ensures LocksFresh(o, s, p)
  {
    hide From, GetAccount, Sequential, Rivals;
    forall i | 0 <= i < |p|
      ensures EntryOk(o, p[i]) && (p[i].tx.kind.Lock? ==> p[i].hash !in s.locks)
    {
      var k :| 0 <= k < |pool| && pool[k] == p[i];
      assert EntryOk(o, pool[k]);
      if p[i].tx.kind.Lock? {
        SequentialAt(p, p[i].tx.from, GetAccount(s, p[i].tx.from).nonce, i);
      }
    }
    forall i, j | 0 <= i < j < |p| && p[i].tx.kind.Lock? && p[j].tx.kind.Lock?
      ensures o.txHash(p[i].tx) != o.txHash(p[j].tx)
    {
      var a := p[i].tx.from;
      if p[j].tx.from == a {
        SequentialOrder(p, a, GetAccount(s, a).nonce, i, j);
      }
      var k :| 0 <= k < |pool| && pool[k] == p[i];
      var l :| 0 <= l < |pool| && pool[l] == p[j];
      assert k != l;
      assert EntryOk(o, p[i]) && EntryOk(o, p[j]);
    }
  }

  /** Non-rising rates suffice, whatever the budget. */
  lemma SelectedApplies(o: Oracle, s: State, pool: seq<PoolEntry>, maxBytes: int, ctx: Context)
    requires PoolOk(o, pool) && LocksPending(s, pool)
    requires forall a :: RatesNeverRise(Keep(s, pool, a, ctx.scriptsActive))
    ensures Applies(o, s, pool, maxBytes, ctx)
  {
    hide PoolOk, RatesNeverRise, From, Keep, Ranked, PaysFor, RedeemError, Pack;
    var p := Select(o, s, pool, maxBytes, ctx);
    forall a
      ensures PaysFor(s, p, a) && Sequential(From(p, a), GetAccount(s, a).nonce)
    {
      SelectedPays(o, s, pool, maxBytes, ctx, a);
    }
    SelectedAllowed(o, s, pool, maxBytes, ctx);
    hide Sequential, GetAccount, LocksPending;
    SelectedLocksFresh(o, s, pool, p);
    ReplayableApplies(o, s, {}, p, ctx);
  }

  lemma NothingFits(es: seq<PoolEntry>, maxBytes: int)
    requires maxBytes < 0
    ensures Pack(es, {}, 0, maxBytes) == []
  {
    if es != [] {
      assert SizeOf(es[0].tx) > 0;
    }
  }

  lemma SelectedAllowed(o: Oracle, s: State, pool: seq<PoolEntry>, maxBytes: int, ctx: Context)
    requires PoolOk(o, pool)
    ensures var p := Select(o, s, pool, maxBytes, ctx);
      RedeemsOk(o, s, {}, p, ctx) && Plain(p, ctx) && forall i :: 0 <= i < |p| ==> p[i] in pool
  {
    hide Pack, Ranked, RedeemError, SizeOf;
    var p := Select(o, s, pool, maxBytes, ctx);
    if maxBytes >= 0 {
      PackFits(Ranked(o, s, pool, ctx), {}, 0, maxBytes);
      PackFresh(Ranked(o, s, pool, ctx), {}, 0, maxBytes);
    } else {
      NothingFits(Ranked(o, s, pool, ctx), maxBytes);
    }
    forall i | 0 <= i < |p|
      ensures p[i] in pool && (!p[i].tx.kind.Transfer? ==> ctx.scriptsActive) && NonNegative(p[i].tx)
      ensures p[i].tx.kind.Redeem? ==> RedeemError(o, s, {}, p[i].tx, ctx).None?
    {
      RankedMember(o, s, pool, ctx, p[i]);
      var k :| 0 <= k < |pool| && pool[k] == p[i];
      assert EntryOk(o, pool[k]);
    }
  }

  /**
   * The selection replays for every byte budget exactly when no sender's fee rate rises with its nonce
   * on the run it can mine; the comparator looks at the rate first.
   */
  lemma SelectionAppliesIff(o: Oracle, s: State, pool: seq<PoolEntry>, ctx: Context)
    requires PoolOk(o, pool) && LocksPending(s, pool)
    ensures (forall maxBytes :: Applies(o, s, pool, maxBytes, ctx))
       <==> (forall a :: RatesNeverRise(Keep(s, pool, a, ctx.scriptsActive)))
  {
    hide PoolOk, RatesNeverRise, Keep, Applies, LocksPending, Ranked, TotalSize;
    forall maxBytes
      ensures (forall a :: RatesNeverRise(Keep(s, pool, a, ctx.scriptsActive))) ==> Applies(o, s, pool, maxBytes, ctx)
    {
      OnlyIfApplies(o, s, pool, maxBytes, ctx);
    }
    RoomySelectionAppliesIff(o, s, pool, TotalSize(Ranked(o, s, pool, ctx)), ctx);
  }

  lemma AppliedRates(o: Oracle, s: State, pool: seq<PoolEntry>, maxBytes: int, ctx: Context, a: Bytes)
    requires maxBytes >= TotalSize(Ranked(o, s, pool, ctx)) && Applies(o, s, pool, maxBytes, ctx)
    ensures RatesNeverRise(Keep(s, pool, a, ctx.scriptsActive))
  {
    hide RatesNeverRise, From, SortBy, Ranked, Pack, Keep, Sequential, TotalSize;
    var z := Ranked(o, s, pool, ctx);
    var p := Select(o, s, pool, maxBytes, ctx);
    var k := Keep(s, pool, a, ctx.scriptsActive);
    AppliedIsSequential(o, s, {}, p, ctx, a);
    PackFrom(z, {}, 0, maxBytes, a);
    FromRanked(o, s, pool, ctx, a);
    KeepIsPayable(s, pool, a, ctx.scriptsActive, |k|);
    assert k[..|k|] == k;
    SortedSequential(k, GetAccount(s, a).nonce);
  }

  /** One call whose candidates all fit: its selection replays exactly when no sender's fee rate rises with its nonce. */
  lemma RoomySelectionAppliesIff(o: Oracle, s: State, pool: seq<PoolEntry>, maxBytes: int, ctx: Context)
    requires PoolOk(o, pool) && LocksPending(s, pool) && maxBytes >= TotalSize(Ranked(o, s, pool, ctx))
    ensures Applies(o, s, pool, maxBytes, ctx) <==> forall a :: RatesNeverRise(Keep(s, pool, a, ctx.scriptsActive))
  {
    hide PoolOk, RatesNeverRise, Keep, Applies, LocksPending, Ranked, TotalSize;
    if Applies(o, s, pool, maxBytes, ctx) {
      forall a
        ensures RatesNeverRise(Keep(s, pool, a, ctx.scriptsActive))
      {
        AppliedRates(o, s, pool, maxBytes, ctx, a);
      }
    } else {
      OnlyIfApplies(o, s, pool, maxBytes, ctx);
    }
  }

  lemma OnlyIfApplies(o: Oracle, s: State, pool: seq<PoolEntry>, maxBytes: int, ctx: Context)
    requires PoolOk(o, pool) && LocksPending(s, pool)
    ensures (forall a :: RatesNeverRise(Keep(s, pool, a, ctx.scriptsActive))) ==> Applies(o, s, pool, maxBytes, ctx)
  {
    hide PoolOk, RatesNeverRise, Keep, Applies, LocksPending;
    if forall a :: RatesNeverRise(Keep(s, pool, a, ctx.scriptsActive)) {
      SelectedApplies(o, s, pool, maxBytes, ctx);
    }
  }

  /** Within its budget, and no lock redeemed twice, whatever the rates. */
  lemma SelectionFits(o: Oracle, s: State, pool: seq<PoolEntry>, maxBytes: nat, ctx: Context)
    ensures var p := Select(o, s, pool, maxBytes, ctx);
      && TotalSize(p) <= maxBytes
      && forall i, j :: 0 <= i < j < |p| && p[i].tx.kind.Redeem? && p[j].tx.kind.Redeem? ==> p[i].tx.lockId != p[j].tx.lockId
  {
    hide Pack, Ranked, TotalSize;
    PackFits(Ranked(o, s, pool, ctx), {}, 0, maxBytes);
    PackFresh(Ranked(o, s, pool, ctx), {}, 0, maxBytes);
  }

  // ---- Against a chain's state ----

  function PendingEvents(pool: seq<PoolEntry>): (h: History)
    ensures |h| == |pool|
  {
    seq(|pool|, i requires 0 <= i < |pool| => Event(0, pool[i].tx))
  }

  /** On a chain, pending locks are not live, as long as lock ids commit to sender and nonce. */
  lemma PendingOnChain(o: Oracle, blocks: seq<LedgerBlock>, s: State, pool: seq<PoolEntry>)
    requires Replay(o, blocks) == Some(s) && PoolOk(o, pool)
    requires LockIdsCommit(o, Events(blocks) + PendingEvents(pool))
    ensures LocksPending(s, pool)
  {
    var h := Events(blocks);
    var all := h + PendingEvents(pool);
    assert LockIdsCommit(o, h) by {
      assert h == all[..|h|];
      hide SameSlot;
    }
    var created := ReplayInv(o, blocks, s);
    hide Replay, LockIdsCommit, NoncesSpent, LiveLocksCreated, SlotsDistinct, RedeemedOnce, RedeemsDistinct, PoolOk;
    LiveLocksSpent(o, s, h, |blocks|, created, pool);
  }

  lemma LiveLocksSpent(o: Oracle, s: State, h: History, height: nat, created: set<Bytes>, pool: seq<PoolEntry>)
    requires NoncesSpent(s, h) && LiveLocksCreated(o, s, h, height, created) && PoolOk(o, pool)
    requires LockIdsCommit(o, h + PendingEvents(pool))
    ensures LocksPending(s, pool)
  {
    var all := h + PendingEvents(pool);
    hide LockIdsCommit, PoolOk, GetAccount, NoncesSpent, LiveLocksCreated;
    forall i | 0 <= i < |pool| && pool[i].tx.kind.Lock? && pool[i].hash in s.locks
      ensures pool[i].tx.nonce < GetAccount(s, pool[i].tx.from).nonce
    {
      EntryAt(o, pool, i);
      var j := CreatorOf(o, s, h, height, created, pool[i].hash);
      assert all[j] == h[j] && all[|h| + i] == Event(0, pool[i].tx);
      LockSlots(o, all, j, |h| + i);
      NonceSpent(s, h, j);
    }
  }

  lemma EntryAt(o: Oracle, pool: seq<PoolEntry>, i: nat)
    requires PoolOk(o, pool) && i < |pool|
    ensures pool[i].hash == o.txHash(pool[i].tx)
  {
    assert EntryOk(o, pool[i]);
    hide Rivals;
  }

  lemma CreatorOf(o: Oracle, s: State, h: History, height: nat, created: set<Bytes>, id: Bytes) returns (j: nat)
    requires LiveLocksCreated(o, s, h, height, created) && id in s.locks
    ensures j < |h| && Creates(o, h[j], id)
  {
    j :| 0 <= j < |h| && Creates(o, h[j], id);
  }

  lemma NonceSpent(s: State, h: History, j: nat)
    requires NoncesSpent(s, h) && j < |h| && h[j].tx.DebitsAccount()
    ensures h[j].tx.nonce < GetAccount(s, h[j].tx.from).nonce
  {
  }

  lemma LockSlots(o: Oracle, h: History, i: nat, j: nat)
    requires LockIdsCommit(o, h) && i < |h| && j < |h| && h[i].tx.kind.Lock? && h[j].tx.kind.Lock?
    requires o.txHash(h[i].tx) == o.txHash(h[j].tx)
    ensures SameSlot(h[i].tx, h[j].tx)
  {
  }

  /** A template built on a chain's tip makes a block the ledger accepts, for every budget, iff the rates never rise. */
  lemma TemplateAppliesIff(o: Oracle, blocks: seq<LedgerBlock>, s: State, pool: seq<PoolEntry>, ctx: Context, miner: Bytes)
    requires Replay(o, blocks) == Some(s) && PoolOk(o, pool)
    requires LockIdsCommit(o, Events(blocks) + PendingEvents(pool))
    ensures (forall maxBytes :: ApplyBlock(o, s, miner, Txs(Select(o, s, pool, maxBytes, ctx)), ctx).Some?)
       <==> (forall a :: RatesNeverRise(Keep(s, pool, a, ctx.scriptsActive)))
  {
    PendingOnChain(o, blocks, s, pool);
    SelectionAppliesIff(o, s, pool, ctx);
    hide Select, RatesNeverRise, Keep, PoolOk, LocksPending, LockIdsCommit, Replay, ApplyTxs;
    forall maxBytes
      ensures ApplyBlock(o, s, miner, Txs(Select(o, s, pool, maxBytes, ctx)), ctx).Some? <==> Applies(o, s, pool, maxBytes, ctx)
    {
    }
  }

  // ---- The mineable prefix ----

  lemma {:induction false} PayableStops(es: seq<PoolEntry>, nonce: int, balance: int)
    requires Payable(es, nonce, balance) < |es|
    ensures var n := Payable(es, nonce, balance);
      es[n].tx.nonce != nonce + n || balance - Spent(es[..n]) < es[n].tx.amount + es[n].tx.fee
  {
    if Payable(es, nonce, balance) > 0 {
      PayableStops(es[1..], nonce + 1, balance - es[0].tx.amount - es[0].tx.fee);
      var n := Payable(es, nonce, balance);
      assert es[..n][1..] == es[1..][..n - 1];
    }
  }

  ghost predicate NoSelfSends(es: seq<PoolEntry>) {
    forall i :: 0 <= i < |es| && es[i].tx.kind.Transfer? ==> es[i].tx.from != es[i].tx.to
  }

  function Spent(es: seq<PoolEntry>): int {
    if es == [] then 0 else es[0].tx.amount + es[0].tx.fee + Spent(es[1..])
  }

  /** A sender's own entries, none to itself, cost it exactly what they spend. */
  lemma {:induction false} OwnCost(o: Oracle, s: State, created: set<Bytes>, es: seq<PoolEntry>, ctx: Context, a: Bytes)
    requires AllMine(es, a) && NoSelfSends(es)
    ensures var r := ApplyTxs(o, s, created, Txs(es), ctx);
      r.Applied? ==>
        && GetAccount(r.state, a).balance == GetAccount(s, a).balance - Spent(es)
        && GetAccount(r.state, a).nonce == GetAccount(s, a).nonce + |es|
    decreases |es|
  {
    hide ApplyTx, GetAccount;
    if es != [] {
      var r := ApplyTx(o, s, created, es[0].tx, ctx);
      TxPays(o, s, created, es[0].tx, ctx, a);
      TxNonces(o, s, created, es[0].tx, ctx, a);
      assert Mine(es[0], a);
      assert Txs(es)[1..] == Txs(es[1..]);
      if r.Applied? {
        OwnCost(o, r.state, r.created, es[1..], ctx, a);
      }
    }
  }

  /**
   * The mineable prefix is exactly as long as it can be: the next entry in nonce order, if any, does not
   * apply after it.
   */
  lemma PrefixIsMaximal(o: Oracle, s: State, pool: seq<PoolEntry>, a: Bytes, ctx: Context)
    requires PoolOk(o, pool)
    ensures var sorted := SortBy(From(pool, a), ByNonce());
      var n := |MineablePrefix(s, pool, a)|;
      n <= |sorted| && (n < |sorted| ==> ApplyTxs(o, s, {}, Txs(sorted[..n + 1]), ctx).Rejected?)
  {
    hide SortBy, From, Payable, ApplyTxs, PoolOk, GetAccount, ByNonce, Txs, AllMine, NoSelfSends;
    SortedMine(o, pool, a);
    var sorted := SortBy(From(pool, a), ByNonce());
    PrefixStops(o, s, sorted, ctx, a);
    assert |MineablePrefix(s, pool, a)| == Payable(sorted, GetAccount(s, a).nonce, GetAccount(s, a).balance);
  }

  lemma PrefixStops(o: Oracle, s: State, sorted: seq<PoolEntry>, ctx: Context, a: Bytes)
    requires AllMine(sorted, a)
    requires NoSelfSends(sorted)
    ensures var n := Payable(sorted, GetAccount(s, a).nonce, GetAccount(s, a).balance);
      n < |sorted| ==> ApplyTxs(o, s, {}, Txs(sorted[..n + 1]), ctx).Rejected?
  {
    hide GetAccount, ApplyTxs, Mine;
    var n := Payable(sorted, GetAccount(s, a).nonce, GetAccount(s, a).balance);
    if n < |sorted| {
      PayableStops(sorted, GetAccount(s, a).nonce, GetAccount(s, a).balance);
      hide Payable, Spent;
      NextFails(o, s, sorted[..n], sorted[n], ctx, a);
      assert sorted[..n + 1] == sorted[..n] + [sorted[n]];
    }
  }

  lemma SortedMine(o: Oracle, pool: seq<PoolEntry>, a: Bytes)
    requires PoolOk(o, pool)
    ensures var sorted := SortBy(From(pool, a), ByNonce());
      AllMine(sorted, a) && NoSelfSends(sorted)
  {
    OrdersAreWeak();
    var sorted := SortBy(From(pool, a), ByNonce());
    hide SortBy, From, Weak, Rivals;
    forall i | 0 <= i < |sorted|
      ensures Mine(sorted[i], a) && (sorted[i].tx.kind.Transfer? ==> sorted[i].tx.from != sorted[i].tx.to)
    {
      SortMember(From(pool, a), ByNonce(), sorted[i]);
      FromMember(pool, a, sorted[i]);
      var k :| 0 <= k < |pool| && pool[k] == sorted[i];
      assert EntryOk(o, pool[k]);
    }
  }

  lemma NextFails(o: Oracle, s: State, es: seq<PoolEntry>, e: PoolEntry, ctx: Context, a: Bytes)
    requires AllMine(es, a) && Mine(e, a)
    requires NoSelfSends(es)
    requires e.tx.nonce != GetAccount(s, a).nonce + |es| || GetAccount(s, a).balance - Spent(es) < e.tx.amount + e.tx.fee
    ensures ApplyTxs(o, s, {}, Txs(es + [e]), ctx).Rejected?
  {
    OwnCost(o, s, {}, es, ctx, a);
    assert Txs(es + [e]) == Txs(es) + [e.tx];
    ApplyTxsAppend(o, s, {}, Txs(es), [e.tx], ctx);
    var r := ApplyTxs(o, s, {}, Txs(es), ctx);
    hide GetAccount, ApplyTxs, Spent;
    if r.Applied? {
      ApplyTxsOne(o, r.state, r.created, e.tx, ctx);
    }
  }
}
