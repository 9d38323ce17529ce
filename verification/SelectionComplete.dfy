/** What block selection does not leave out (src/chain/mempool.ts). */
module SelectionComplete {
  import opened Genesis
  import opened Transactions
  import opened Ledger
  import opened Pool
  import opened Selection

  /** A pooled entry that could go into the block by itself: on its sender's kept run, or a redeem that applies. */
  ghost predicate Candidate(o: Oracle, s: State, pool: seq<PoolEntry>, ctx: Context, e: PoolEntry) {
    && e in pool
    && if e.tx.kind.Redeem? then ctx.scriptsActive && RedeemError(o, s, {}, e.tx, ctx).None?
       else e in Keep(s, pool, e.tx.from, ctx.scriptsActive)
  }

  lemma {:induction false} RedeemableIff(o: Oracle, s: State, pool: seq<PoolEntry>, ctx: Context, e: PoolEntry)
    ensures e in Redeemable(o, s, pool, ctx) <==> e in pool && e.tx.kind.Redeem? && RedeemError(o, s, {}, e.tx, ctx).None?
  {
    hide RedeemError;
    if pool != [] {
      RedeemableIff(o, s, pool[1..], ctx, e);
    }
  }

  /** The ranked list holds the candidates, all of them and no others. */
  lemma RankedIff(o: Oracle, s: State, pool: seq<PoolEntry>, ctx: Context, e: PoolEntry)
    ensures e in Ranked(o, s, pool, ctx) <==> Candidate(o, s, pool, ctx, e)
  {
    hide SortBy, Weak, RedeemError, Keep, KeepAll, Redeemable, Senders, From;
    OrdersAreWeak();
    SortMember(Eligible(o, s, pool, ctx), ByRate(), e);
    RedeemableIff(o, s, pool, ctx, e);
    FromEligible(o, s, pool, ctx, e.tx.from);
    FromMember(Eligible(o, s, pool, ctx), e.tx.from, e);
    if e in Keep(s, pool, e.tx.from, ctx.scriptsActive) {
      KeepMember(s, pool, e.tx.from, ctx.scriptsActive, e);
    }
    if e in KeepAll(s, pool, Senders(pool), ctx.scriptsActive) {
      KeepAllDebits(s, pool, Senders(pool), ctx.scriptsActive, e);
    }
  }

  // ---- Packing leaves out only what it must ----

  /** Another redeem of the same lock was picked, of a rate at least as high. */
  ghost predicate Taken(p: seq<PoolEntry>, e: PoolEntry) {
    e.tx.kind.Redeem? && exists f :: f in p && f.tx.kind.Redeem? && f.tx.lockId == e.tx.lockId && !ByRate()(e, f)
  }

  /** The picked entries stop before `g`, which ranks no later than `e` and does not fit behind them. */
  ghost predicate StopsAt(p: seq<PoolEntry>, bytesUsed: nat, maxBytes: int, e: PoolEntry, g: PoolEntry) {
    && !ByRate()(e, g) && bytesUsed + TotalSize(p) + SizeOf(g.tx) > maxBytes
    && forall f :: f in p ==> f != g && !ByRate()(g, f) && !(g.tx.kind.Redeem? && f.tx.kind.Redeem? && f.tx.lockId == g.tx.lockId)
  }

  ghost predicate Free(usedLocks: set<Bytes>, g: PoolEntry) {
    g.tx.kind.Redeem? ==> g.tx.lockId !in usedLocks
  }

  ghost predicate LeftOut(es: seq<PoolEntry>, p: seq<PoolEntry>, usedLocks: set<Bytes>, bytesUsed: nat, maxBytes: int, e: PoolEntry) {
    || !Free(usedLocks, e) || Taken(p, e)
    || exists g :: g in es && Free(usedLocks, g) && StopsAt(p, bytesUsed, maxBytes, e, g)
  }

  ghost predicate Distinct(es: seq<PoolEntry>) {
    forall i, j :: 0 <= i < j < |es| ==> es[i] != es[j]
  }

  lemma SortedRest(es: seq<PoolEntry>, e: PoolEntry)
    requires es != [] && Sorted(es, ByRate()) && e in es
    ensures Sorted(es[1..], ByRate()) && !ByRate()(e, es[0])
  {
    OrdersAreWeak();
    var i :| 0 <= i < |es| && es[i] == e;
  }

  lemma HeadApart(es: seq<PoolEntry>, g: PoolEntry)
    requires es != [] && Distinct(es) && g in es[1..]
    ensures g != es[0]
  {
    var i :| 0 <= i < |es[1..]| && es[1..][i] == g;
    assert es[i + 1] == g;
  }

  /** After taking the head, what was left out of the rest is left out of the whole for the same reason. */
  lemma LeftOutCons(es: seq<PoolEntry>, p: seq<PoolEntry>, usedLocks: set<Bytes>, bytesUsed: nat, maxBytes: int, e: PoolEntry)
    requires es != [] && Sorted(es, ByRate()) && Distinct(es) && e in es[1..] && Free(usedLocks, es[0])
    requires LeftOut(es[1..], p, if es[0].tx.kind.Redeem? then usedLocks + {es[0].tx.lockId} else usedLocks, bytesUsed + SizeOf(es[0].tx), maxBytes, e)
    ensures LeftOut(es, [es[0]] + p, usedLocks, bytesUsed, maxBytes, e)
  {
    hide ByRate, SizeOf;
    var used := if es[0].tx.kind.Redeem? then usedLocks + {es[0].tx.lockId} else usedLocks;
    var q := [es[0]] + p;
    SortedRest(es, e);
    assert es[0] in q && forall f :: f in q <==> f == es[0] || f in p;
    assert q[1..] == p && TotalSize(q) == SizeOf(es[0].tx) + TotalSize(p);
    if Free(used, e) && !Taken(p, e) {
      var g :| g in es[1..] && Free(used, g) && StopsAt(p, bytesUsed + SizeOf(es[0].tx), maxBytes, e, g);
      SortedRest(es, g);
      HeadApart(es, g);
      assert StopsAt(q, bytesUsed, maxBytes, e, g);
    }
  }

  lemma {:induction false} PackLeavesOut(es: seq<PoolEntry>, usedLocks: set<Bytes>, bytesUsed: nat, maxBytes: int, e: PoolEntry)
    requires Sorted(es, ByRate()) && Distinct(es) && e in es && e !in Pack(es, usedLocks, bytesUsed, maxBytes)
    ensures LeftOut(es, Pack(es, usedLocks, bytesUsed, maxBytes), usedLocks, bytesUsed, maxBytes, e)
    decreases |es|
  {
    hide ByRate, SizeOf;
    var tx := es[0].tx;
    SortedRest(es, e);
    if tx.kind.Redeem? && tx.lockId in usedLocks {
      if e != es[0] {
        PackLeavesOut(es[1..], usedLocks, bytesUsed, maxBytes, e);
      }
    } else if bytesUsed + SizeOf(tx) > maxBytes {
      assert TotalSize([]) == 0 && StopsAt([], bytesUsed, maxBytes, e, es[0]);
    } else {
      hide LeftOut;
      var used := if tx.kind.Redeem? then usedLocks + {tx.lockId} else usedLocks;
      PackLeavesOut(es[1..], used, bytesUsed + SizeOf(tx), maxBytes, e);
      LeftOutCons(es, Pack(es[1..], used, bytesUsed + SizeOf(tx), maxBytes), usedLocks, bytesUsed, maxBytes, e);
    }
  }

  lemma {:induction false} PackSorted(es: seq<PoolEntry>, usedLocks: set<Bytes>, bytesUsed: nat, maxBytes: int)
    requires Sorted(es, ByRate())
    ensures var p := Pack(es, usedLocks, bytesUsed, maxBytes);
      Sorted(p, ByRate()) && forall e :: e in p ==> e in es
    decreases |es|
  {
    hide ByRate, SizeOf;
    if es != [] {
      var tx := es[0].tx;
      SortedRest(es, es[0]);
      if tx.kind.Redeem? && tx.lockId in usedLocks {
        PackSorted(es[1..], usedLocks, bytesUsed, maxBytes);
      } else if bytesUsed + SizeOf(tx) <= maxBytes {
        var used := if tx.kind.Redeem? then usedLocks + {tx.lockId} else usedLocks;
        PackSorted(es[1..], used, bytesUsed + SizeOf(tx), maxBytes);
        var rest := Pack(es[1..], used, bytesUsed + SizeOf(tx), maxBytes);
        forall e | e in rest
          ensures !ByRate()(e, es[0])
        {
          SortedRest(es, e);
        }
      }
    }
  }

  lemma RankedSorted(o: Oracle, s: State, pool: seq<PoolEntry>, ctx: Context)
    ensures Sorted(Ranked(o, s, pool, ctx), ByRate())
  {
    hide Eligible;
    OrdersAreWeak();
    SortSorted(Eligible(o, s, pool, ctx), ByRate());
  }

  // ---- Nothing is selected twice ----

  lemma {:induction false} FromCount(es: seq<PoolEntry>, a: Bytes, e: PoolEntry)
    requires Mine(e, a)
    ensures multiset(From(es, a))[e] == multiset(es)[e]
  {
    if es != [] {
      assert es == [es[0]] + es[1..];
      FromCount(es[1..], a, e);
    }
  }

  lemma {:induction false} RedeemableCount(o: Oracle, s: State, pool: seq<PoolEntry>, ctx: Context, e: PoolEntry)
    ensures multiset(Redeemable(o, s, pool, ctx))[e] <= multiset(pool)[e]
  {
    hide RedeemError;
    if pool != [] {
      assert pool == [pool[0]] + pool[1..];
      RedeemableCount(o, s, pool[1..], ctx, e);
    }
  }

  lemma PrefixCount(es: seq<PoolEntry>, n: nat, e: PoolEntry)
    requires n <= |es|
    ensures multiset(es[..n])[e] <= multiset(es)[e]
  {
    assert es == es[..n] + es[n..];
  }

  lemma KeepCount(s: State, pool: seq<PoolEntry>, a: Bytes, active: bool, e: PoolEntry)
    requires Mine(e, a)
    ensures multiset(Keep(s, pool, a, active))[e] <= multiset(pool)[e]
  {
    hide SortBy, From, Payable, BeforeLock, Weak, Sorted, GetAccount;
    OrdersAreWeak();
    var sorted := SortBy(From(pool, a), ByNonce());
    var m, k := MineablePrefix(s, pool, a), Keep(s, pool, a, active);
    SortSorted(From(pool, a), ByNonce());
    FromCount(pool, a, e);
    PrefixCount(sorted, |m|, e);
    PrefixCount(m, |k|, e);
    assert k == m[..|k|];
  }

  lemma EligibleCount(o: Oracle, s: State, pool: seq<PoolEntry>, ctx: Context, e: PoolEntry)
    ensures multiset(Eligible(o, s, pool, ctx))[e] <= multiset(pool)[e]
  {
    hide Keep, KeepAll, Redeemable, Senders, From;
    if e.tx.DebitsAccount() {
      FromEligible(o, s, pool, ctx, e.tx.from);
      FromCount(Eligible(o, s, pool, ctx), e.tx.from, e);
      KeepCount(s, pool, e.tx.from, ctx.scriptsActive, e);
    } else {
      RedeemableCount(o, s, pool, ctx, e);
      if e in KeepAll(s, pool, Senders(pool), ctx.scriptsActive) {
        KeepAllDebits(s, pool, Senders(pool), ctx.scriptsActive, e);
      }
    }
  }

  lemma RankedWithin(o: Oracle, s: State, pool: seq<PoolEntry>, ctx: Context)
    ensures multiset(Ranked(o, s, pool, ctx)) <= multiset(pool)
  {
    hide Eligible, SortBy, Weak, Sorted;
    OrdersAreWeak();
    SortSorted(Eligible(o, s, pool, ctx), ByRate());
    forall e
      ensures multiset(Ranked(o, s, pool, ctx))[e] <= multiset(pool)[e]
    {
      EligibleCount(o, s, pool, ctx, e);
    }
  }

  lemma {:induction false} PackWithin(es: seq<PoolEntry>, usedLocks: set<Bytes>, bytesUsed: nat, maxBytes: int)
    ensures multiset(Pack(es, usedLocks, bytesUsed, maxBytes)) <= multiset(es)
    decreases |es|
  {
    hide SizeOf;
    if es != [] {
      assert es == [es[0]] + es[1..];
      var tx := es[0].tx;
      if tx.kind.Redeem? && tx.lockId in usedLocks {
        PackWithin(es[1..], usedLocks, bytesUsed, maxBytes);
      } else if bytesUsed + SizeOf(tx) <= maxBytes {
        PackWithin(es[1..], if tx.kind.Redeem? then usedLocks + {tx.lockId} else usedLocks, bytesUsed + SizeOf(tx), maxBytes);
      }
    }
  }

  lemma TwiceCounts(es: seq<PoolEntry>, i: nat, j: nat)
    requires i < j < |es| && es[i] == es[j]
    ensures multiset(es)[es[i]] >= 2
  {
    assert es == es[..j] + es[j..];
    assert es[i] in es[..j] && es[j] in es[j..];
  }

  lemma {:induction false} PoolCount(o: Oracle, pool: seq<PoolEntry>, e: PoolEntry)
    requires forall i, j :: 0 <= i < j < |pool| ==> pool[i].hash != pool[j].hash
    ensures multiset(pool)[e] <= 1
  {
    if pool != [] {
      var rest := pool[1..];
      assert pool == [pool[0]] + rest;
      PoolCount(o, rest, e);
      forall k | 0 <= k < |rest|
        ensures rest[k] != pool[0]
      {
        assert pool[k + 1] == rest[k];
      }
    }
  }

  lemma RankedDistinct(o: Oracle, s: State, pool: seq<PoolEntry>, ctx: Context)
    requires PoolOk(o, pool)
    ensures Distinct(Ranked(o, s, pool, ctx))
  {
    hide Ranked, EntryOk, Rivals;
    var z := Ranked(o, s, pool, ctx);
    RankedWithin(o, s, pool, ctx);
    forall i, j | 0 <= i < j < |z|
      ensures z[i] != z[j]
    {
      PoolCount(o, pool, z[i]);
      if z[i] == z[j] {
        TwiceCounts(z, i, j);
      }
    }
  }

  // ---- The selection is greedy ----

  ghost predicate Excused(o: Oracle, s: State, pool: seq<PoolEntry>, maxBytes: int, ctx: Context, p: seq<PoolEntry>, e: PoolEntry) {
    Taken(p, e) || exists g :: Candidate(o, s, pool, ctx, g) && StopsAt(p, 0, maxBytes, e, g)
  }

  /**
   * The selection is greedy by rate, whatever the budget: it lists candidates only, in rank order, and a
   * candidate is left out only if its lock is redeemed by one at least as good, or if the selection stopped
   * at a left-out candidate ranking no later that does not fit behind everything picked.
   */
  lemma SelectionIsGreedy(o: Oracle, s: State, pool: seq<PoolEntry>, maxBytes: int, ctx: Context)
    requires PoolOk(o, pool)
    ensures var p := Select(o, s, pool, maxBytes, ctx);
      && Sorted(p, ByRate())
      && (forall e :: e in p ==> Candidate(o, s, pool, ctx, e))
      && forall e :: Candidate(o, s, pool, ctx, e) && e !in p ==> Excused(o, s, pool, maxBytes, ctx, p, e)
  {
    hide PoolOk, Candidate, Ranked, Pack, Sorted, Distinct, Excused;
    var z, p := Ranked(o, s, pool, ctx), Select(o, s, pool, maxBytes, ctx);
    RankedSorted(o, s, pool, ctx);
    RankedDistinct(o, s, pool, ctx);
    PackSorted(z, {}, 0, maxBytes);
    forall e
      ensures e in p ==> Candidate(o, s, pool, ctx, e)
      ensures Candidate(o, s, pool, ctx, e) && e !in p ==> Excused(o, s, pool, maxBytes, ctx, p, e)
    {
      RankedIff(o, s, pool, ctx, e);
      if Candidate(o, s, pool, ctx, e) && e !in p {
        IsExcused(o, s, pool, maxBytes, ctx, e);
      }
    }
  }

  lemma IsExcused(o: Oracle, s: State, pool: seq<PoolEntry>, maxBytes: int, ctx: Context, e: PoolEntry)
    requires Sorted(Ranked(o, s, pool, ctx), ByRate()) && Distinct(Ranked(o, s, pool, ctx))
    requires e in Ranked(o, s, pool, ctx) && e !in Select(o, s, pool, maxBytes, ctx)
    ensures Excused(o, s, pool, maxBytes, ctx, Select(o, s, pool, maxBytes, ctx), e)
  {
    hide Candidate, Ranked, Pack, Sorted, Distinct, Taken, StopsAt;
    var z, p := Ranked(o, s, pool, ctx), Select(o, s, pool, maxBytes, ctx);
    PackLeavesOut(z, {}, 0, maxBytes, e);
    if !Taken(p, e) {
      var g :| g in z && Free({}, g) && StopsAt(p, 0, maxBytes, e, g);
      RankedIff(o, s, pool, ctx, g);
    }
  }

  // ---- A budget for everything ----

  lemma {:induction false} SizeAppend(xs: seq<PoolEntry>, ys: seq<PoolEntry>)
    ensures TotalSize(xs + ys) == TotalSize(xs) + TotalSize(ys)
  {
    hide SizeOf;
    if xs == [] {
      assert xs + ys == ys;
    } else {
      SizeAppend(xs[1..], ys);
      assert (xs + ys)[1..] == xs[1..] + ys;
    }
  }

  lemma Without(ys: seq<PoolEntry>, i: nat)
    requires i < |ys|
    ensures var rest := ys[..i] + ys[i + 1..];
      multiset(ys) == multiset(rest) + multiset{ys[i]} && TotalSize(ys) == SizeOf(ys[i].tx) + TotalSize(rest)
  {
    hide SizeOf;
    var front, back := ys[..i], ys[i + 1..];
    assert ys == front + ([ys[i]] + back);
    SizeAppend(front, [ys[i]] + back);
    SizeAppend(front, back);
    assert ([ys[i]] + back)[1..] == back;
  }

  lemma CancelOne(a: multiset<PoolEntry>, b: multiset<PoolEntry>, x: PoolEntry)
    requires multiset{x} + a <= b + multiset{x}
    ensures a <= b
  {
    forall e
      ensures a[e] <= b[e]
    {
      assert (multiset{x} + a)[e] <= (b + multiset{x})[e];
    }
  }

  lemma {:induction false} SizeMonotone(xs: seq<PoolEntry>, ys: seq<PoolEntry>)
    requires multiset(xs) <= multiset(ys)
    ensures TotalSize(xs) <= TotalSize(ys)
    decreases |xs|
  {
    hide SizeOf;
    if xs != [] {
      assert xs == [xs[0]] + xs[1..];
      assert multiset(xs) == multiset{xs[0]} + multiset(xs[1..]);
      assert xs[0] in multiset(ys);
      var i :| 0 <= i < |ys| && ys[i] == xs[0];
      Without(ys, i);
      var rest := ys[..i] + ys[i + 1..];
      CancelOne(multiset(xs[1..]), multiset(rest), xs[0]);
      SizeMonotone(xs[1..], rest);
    }
  }

  lemma OneSize(e: PoolEntry)
    ensures TotalSize([e]) == SizeOf(e.tx)
  {
    hide SizeOf;
    assert [e][1..] == [];
  }

  /** With room for the whole pool, nothing is cut off. */
  lemma NothingCut(o: Oracle, s: State, pool: seq<PoolEntry>, maxBytes: int, ctx: Context, g: PoolEntry)
    requires maxBytes >= TotalSize(pool) && g in pool && g !in Select(o, s, pool, maxBytes, ctx)
    ensures TotalSize(Select(o, s, pool, maxBytes, ctx)) + SizeOf(g.tx) <= maxBytes
  {
    hide Ranked, Pack, SizeOf, TotalSize;
    var p := Select(o, s, pool, maxBytes, ctx);
    RankedWithin(o, s, pool, ctx);
    PackWithin(Ranked(o, s, pool, ctx), {}, 0, maxBytes);
    assert multiset(p + [g]) <= multiset(pool) by {
      forall e
        ensures multiset(p + [g])[e] <= multiset(pool)[e]
      {
        assert multiset(p)[e] <= multiset(Ranked(o, s, pool, ctx))[e] <= multiset(pool)[e];
        assert e == g ==> multiset(p)[e] == 0 && multiset(pool)[e] >= 1;
      }
    }
    SizeMonotone(p + [g], pool);
    SizeAppend(p, [g]);
    OneSize(g);
  }

  /** A redeem that would apply by itself, of a given lock. */
  ghost predicate Redeems(o: Oracle, s: State, pool: seq<PoolEntry>, ctx: Context, id: Bytes, e: PoolEntry) {
    e in pool && e.tx.kind.Redeem? && e.tx.lockId == id && RedeemError(o, s, {}, e.tx, ctx).None?
  }

  /** The one redeem picked for a lock, and the best of those that apply. */
  ghost predicate PicksBest(o: Oracle, s: State, pool: seq<PoolEntry>, ctx: Context, p: seq<PoolEntry>, id: Bytes, i: nat) {
    && i < |p| && Redeems(o, s, pool, ctx, id, p[i])
    && (forall j :: 0 <= j < |p| && j != i ==> !(p[j].tx.kind.Redeem? && p[j].tx.lockId == id))
    && forall e :: Redeems(o, s, pool, ctx, id, e) ==> e.rate <= p[i].rate
  }

  lemma BestIsPicked(o: Oracle, s: State, pool: seq<PoolEntry>, maxBytes: int, ctx: Context, id: Bytes, e: PoolEntry) returns (i: nat)
    requires PoolOk(o, pool) && maxBytes >= TotalSize(pool) && ctx.scriptsActive && Redeems(o, s, pool, ctx, id, e)
    ensures var p := Select(o, s, pool, maxBytes, ctx);
      i < |p| && p[i].tx.kind.Redeem? && p[i].tx.lockId == id && e.rate <= p[i].rate && Redeems(o, s, pool, ctx, id, p[i])
  {
    hide PoolOk, Select, Sorted, RedeemError, TotalSize, SizeOf, Keep;
    var p := Select(o, s, pool, maxBytes, ctx);
    SelectionIsGreedy(o, s, pool, maxBytes, ctx);
    assert Candidate(o, s, pool, ctx, e);
    var f := e;
    if e !in p {
      if !Taken(p, e) {
        var g :| Candidate(o, s, pool, ctx, g) && StopsAt(p, 0, maxBytes, e, g);
        NothingCut(o, s, pool, maxBytes, ctx, g);
        assert false;
      }
      f :| f in p && f.tx.kind.Redeem? && f.tx.lockId == e.tx.lockId && !ByRate()(e, f);
    }
    i :| 0 <= i < |p| && p[i] == f;
    assert Candidate(o, s, pool, ctx, f);
  }

  /**
   * With room for the whole pool: every sender's kept run is in the selection, and nothing else of a sender;
   * and once scripts are active, exactly one redeem of each lock that some pooled redeem can spend, a best one.
   */
  lemma RoomySelectionTakesAll(o: Oracle, s: State, pool: seq<PoolEntry>, maxBytes: int, ctx: Context)
    requires PoolOk(o, pool) && maxBytes >= TotalSize(pool)
    ensures var p := Select(o, s, pool, maxBytes, ctx);
      && (forall a :: multiset(From(p, a)) == multiset(Keep(s, pool, a, ctx.scriptsActive)))
      && (forall e :: e in p && e.tx.kind.Redeem? ==> ctx.scriptsActive && Redeems(o, s, pool, ctx, e.tx.lockId, e))
      && (ctx.scriptsActive ==> forall id, e :: Redeems(o, s, pool, ctx, id, e) ==> exists i :: PicksBest(o, s, pool, ctx, p, id, i))
  {
    hide PoolOk, Select, Sorted, RedeemError, TotalSize, SizeOf, Keep, From, PicksBest;
    var p := Select(o, s, pool, maxBytes, ctx);
    SelectionIsGreedy(o, s, pool, maxBytes, ctx);
    forall a
      ensures multiset(From(p, a)) == multiset(Keep(s, pool, a, ctx.scriptsActive))
    {
      TakesRuns(o, s, pool, maxBytes, ctx, a);
    }
    if ctx.scriptsActive {
      forall id, e | Redeems(o, s, pool, ctx, id, e)
        ensures exists i :: PicksBest(o, s, pool, ctx, p, id, i)
      {
        var i := TakesBest(o, s, pool, maxBytes, ctx, id, e);
      }
    }
  }

  lemma TakesRuns(o: Oracle, s: State, pool: seq<PoolEntry>, maxBytes: int, ctx: Context, a: Bytes)
    requires maxBytes >= TotalSize(pool)
    ensures multiset(From(Select(o, s, pool, maxBytes, ctx), a)) == multiset(Keep(s, pool, a, ctx.scriptsActive))
  {
    hide Ranked, Pack, From, Keep, TotalSize, SortBy, Weak, Sorted;
    RankedWithin(o, s, pool, ctx);
    SizeMonotone(Ranked(o, s, pool, ctx), pool);
    PackFrom(Ranked(o, s, pool, ctx), {}, 0, maxBytes, a);
    FromRanked(o, s, pool, ctx, a);
    OrdersAreWeak();
    SortSorted(Keep(s, pool, a, ctx.scriptsActive), ByRate());
  }

  lemma TakesBest(o: Oracle, s: State, pool: seq<PoolEntry>, maxBytes: int, ctx: Context, id: Bytes, e: PoolEntry) returns (i: nat)
    requires PoolOk(o, pool) && maxBytes >= TotalSize(pool) && ctx.scriptsActive && Redeems(o, s, pool, ctx, id, e)
    ensures PicksBest(o, s, pool, ctx, Select(o, s, pool, maxBytes, ctx), id, i)
  {
    hide PoolOk, Ranked, Pack, Redeems, TotalSize;
    var p := Select(o, s, pool, maxBytes, ctx);
    PackFresh(Ranked(o, s, pool, ctx), {}, 0, maxBytes);
    i := BestIsPicked(o, s, pool, maxBytes, ctx, id, e);
    forall h | Redeems(o, s, pool, ctx, id, h)
      ensures h.rate <= p[i].rate
    {
      var k := BestIsPicked(o, s, pool, maxBytes, ctx, id, h);
    }
  }

  // ---- The kept run ----

  /** A start of the mineable run without locks that could not be longer. */
  ghost predicate EndsBeforeLock(es: seq<PoolEntry>, k: seq<PoolEntry>) {
    && |k| <= |es| && k == es[..|k|]
    && (forall i :: 0 <= i < |k| ==> !k[i].tx.kind.Lock?)
    && (|k| < |es| ==> es[|k|].tx.kind.Lock?)
  }

  lemma {:induction false} BeforeLockIs(es: seq<PoolEntry>)
    ensures EndsBeforeLock(es, BeforeLock(es))
  {
    if es != [] && !es[0].tx.kind.Lock? {
      BeforeLockIs(es[1..]);
      var k := BeforeLock(es[1..]);
      assert BeforeLock(es) == [es[0]] + k;
      assert es[1..][..|k|] == es[1..|k| + 1];
    }
  }

  /**
   * A sender's kept run: its entries by nonce as far as they continue its account's nonce and its balance covers
   * them, stopping before the first lock while scripts are inactive.
   */
  lemma KeptRun(o: Oracle, s: State, pool: seq<PoolEntry>, a: Bytes, active: bool)
    requires PoolOk(o, pool)
    ensures var run, k := MineablePrefix(s, pool, a), Keep(s, pool, a, active);
      if active then k == run else EndsBeforeLock(run, k)
    ensures var run := MineablePrefix(s, pool, a);
      && (forall e :: e in run ==> e in pool && e.tx.DebitsAccount() && e.tx.from == a)
      && (forall i :: 0 <= i < |run| ==> run[i].tx.nonce == GetAccount(s, a).nonce + i)
      && forall i :: 0 <= i <= |run| ==> Spending(run[..i]) <= GetAccount(s, a).balance || i == 0
  {
    hide MineablePrefix, GetAccount;
    BeforeLockIs(MineablePrefix(s, pool, a));
    RunIsPaid(s, pool, a);
    hide BeforeLock, Spending;
  }

  function Spending(es: seq<PoolEntry>): int {
    if es == [] then 0 else es[0].tx.amount + es[0].tx.fee + Spending(es[1..])
  }

  lemma {:induction false} PaidFor(es: seq<PoolEntry>, nonce: int, balance: int, i: nat)
    requires 0 < i <= Payable(es, nonce, balance)
    ensures Spending(es[..i]) <= balance
  {
    assert es[..i][1..] == es[1..][..i - 1];
    if i > 1 {
      PaidFor(es[1..], nonce + 1, balance - es[0].tx.amount - es[0].tx.fee, i - 1);
    } else {
      assert es[1..][..0] == [];
    }
  }

  lemma RunIsPaid(s: State, pool: seq<PoolEntry>, a: Bytes)
    ensures var run := MineablePrefix(s, pool, a);
      && (forall e :: e in run ==> e in pool && e.tx.DebitsAccount() && e.tx.from == a)
      && (forall i :: 0 <= i < |run| ==> run[i].tx.nonce == GetAccount(s, a).nonce + i)
      && forall i :: 0 <= i <= |run| ==> Spending(run[..i]) <= GetAccount(s, a).balance || i == 0
  {
    hide SortBy, From, Payable, GetAccount, Weak, Spending;
    var sorted, acct := SortBy(From(pool, a), ByNonce()), GetAccount(s, a);
    var n := Payable(sorted, acct.nonce, acct.balance);
    var run := MineablePrefix(s, pool, a);
    OrdersAreWeak();
    PayablePrefix(sorted, acct.nonce, acct.balance, n);
    forall e | e in run
      ensures e in pool && e.tx.DebitsAccount() && e.tx.from == a
    {
      assert e in sorted;
      SortMember(From(pool, a), ByNonce(), e);
      FromMember(pool, a, e);
    }
    forall i | 0 < i <= |run|
      ensures Spending(run[..i]) <= acct.balance
    {
      PaidFor(sorted, acct.nonce, acct.balance, i);
      assert run[..i] == sorted[..i];
    }
  }
}
