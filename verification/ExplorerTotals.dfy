/** What a rebuilt index says about an address, as plain sums over the branch's blocks and transactions. */
module ExplorerTotals {
  import opened Genesis
  import opened Transactions
  import opened Ledger
  import opened LedgerRules
  import opened Explorer
  import opened ExplorerLedger

  // ---- The sums ----

  /** A quantity summed over transactions. */
  function TxSum(txs: seq<Transaction>, q: Transaction -> int): int {
    if txs == [] then 0 else TxSum(txs[..|txs| - 1], q) + q(txs[|txs| - 1])
  }

  function Paid(a: Bytes): Transaction -> int {
    (tx: Transaction) => if tx.from == a && tx.to != a then tx.amount else 0
  }

  function Got(a: Bytes): Transaction -> int {
    (tx: Transaction) => if tx.to == a && tx.from != a then tx.amount else 0
  }

  function Fees(a: Bytes): Transaction -> int {
    (tx: Transaction) => if tx.from == a then tx.fee else 0
  }

  function Named(a: Bytes): Transaction -> int {
    (tx: Transaction) => if tx.from == a || tx.to == a then 1 else 0
  }

  /** Genesis is not indexed, nor is a block without its body. */
  predicate Counts(b: Shown) {
    b.block.header.height > 0 && b.hasBody
  }

  /** A quantity of transactions summed over a branch. */
  function LineSum(line: seq<Shown>, q: Transaction -> int): int {
    if line == [] then 0 else LineSum(line[1..], q) + if Counts(line[0]) then TxSum(line[0].block.transactions, q) else 0
  }

  /** Rewards and fees of the blocks an address mined, and how many they are. */
  function MinedSum(line: seq<Shown>, a: Bytes): int {
    if line == [] then 0
    else MinedSum(line[1..], a) + if Counts(line[0]) && line[0].block.header.miner == a
      then BlockReward(line[0].block.header.height) + FeeSum(line[0].block.transactions) else 0
  }

  function MinedCount(line: seq<Shown>, a: Bytes): nat {
    if line == [] then 0 else MinedCount(line[1..], a) + if Counts(line[0]) && line[0].block.header.miner == a then 1 else 0
  }

  // ---- The history ----

  /** How one transaction concerns an address. */
  function TxRefs(b: Shown, i: nat, a: Bytes): seq<TxRef>
    requires i < |b.block.transactions|
  {
    var tx, h := b.block.transactions[i], b.block.header;
    if tx.from != a && tx.to != a then []
    else [TxRef(b.hash, h.height, h.timestamp, i, if tx.to != a then Out else if tx.from != a then In else Self)]
  }

  function BlockRefs(b: Shown, n: nat, a: Bytes): seq<TxRef>
    requires n <= |b.block.transactions|
  {
    if n > 0 then BlockRefs(b, n - 1, a) + TxRefs(b, n - 1, a)
    else if b.block.header.miner == a then [TxRef(b.hash, b.block.header.height, b.block.header.timestamp, -1, Mined)]
    else []
  }

  /** Everything along a branch that concerns an address, oldest block first, the coinbase before the transactions. */
  function History(line: seq<Shown>, a: Bytes): seq<TxRef> {
    if line == [] then []
    else History(line[1..], a) + if Counts(line[0]) then BlockRefs(line[0], |line[0].block.transactions|, a) else []
  }

  // ---- One block ----

  lemma {:induction false} RefsAppend(x: seq<Effect>, y: seq<Effect>)
    ensures Refs(x + y) == Refs(x) + Refs(y)
  {
    if x == [] {
      assert x + y == y;
    } else {
      assert (x + y)[1..] == x[1..] + y;
      RefsAppend(x[1..], y);
    }
  }

  /** The totals and the history that effects leave at one address. */
  ghost predicate Leaves(es: seq<Effect>, a: Bytes, d: Delta, refs: seq<TxRef>) {
    SumOf(Mine(es, a)) == d && Refs(Mine(es, a)) == refs
  }

  lemma LeavesAppend(x: seq<Effect>, y: seq<Effect>, a: Bytes, d: Delta, e: Delta, r: seq<TxRef>, s: seq<TxRef>)
    requires Leaves(x, a, d, r) && Leaves(y, a, e, s)
    ensures Leaves(x + y, a, Plus(d, e), r + s)
  {
    MineAppend(x, y, a);
    SumAppend(Mine(x, a), Mine(y, a));
    RefsAppend(Mine(x, a), Mine(y, a));
    hide Mine, SumOf, Refs, Plus;
  }

  lemma LeavesOne(e: Effect, a: Bytes)
    ensures Leaves([e], a, DeltaAt(e, a), RefsAt(e, a))
  {
    assert [e][1..] == [] && Mine([], a) == [];
    if e.addr == a {
      assert Mine([e], a) == [e];
      PlusZero(e.delta);
    }
  }

  function DeltaAt(e: Effect, a: Bytes): Delta {
    if e.addr == a then e.delta else ZERO
  }

  function RefsAt(e: Effect, a: Bytes): seq<TxRef> {
    if e.addr == a then [e.ref] else []
  }

  lemma LeavesTwo(e: Effect, f: Effect, a: Bytes)
    ensures Leaves([e, f], a, Plus(DeltaAt(e, a), DeltaAt(f, a)), RefsAt(e, a) + RefsAt(f, a))
  {
    hide Leaves, Plus;
    LeavesOne(e, a);
    LeavesOne(f, a);
    assert [e, f] == [e] + [f];
    LeavesAppend([e], [f], a, DeltaAt(e, a), DeltaAt(f, a), RefsAt(e, a), RefsAt(f, a));
  }

  function TxDelta(tx: Transaction, a: Bytes): Delta {
    Delta(Got(a)(tx), Paid(a)(tx), Fees(a)(tx), 0, 0, Named(a)(tx))
  }

  lemma SidesAdd(tx: Transaction, a: Bytes)
    requires tx.from != tx.to
    ensures Plus(if tx.from == a then Delta(0, tx.amount, tx.fee, 0, 0, 1) else ZERO, if tx.to == a then Delta(tx.amount, 0, 0, 0, 0, 1) else ZERO)
            == TxDelta(tx, a)
  {
  }

  lemma TwoDeltas(b: Shown, i: nat, a: Bytes)
    requires i < |b.block.transactions| && b.block.transactions[i].from != b.block.transactions[i].to
    ensures var es, tx := TxEffects(b, i), b.block.transactions[i];
      |es| == 2 && Plus(DeltaAt(es[0], a), DeltaAt(es[1], a)) == TxDelta(tx, a)
  {
    hide Plus, TxDelta;
    SidesAdd(b.block.transactions[i], a);
  }

  lemma TwoRefs(b: Shown, i: nat, a: Bytes)
    requires i < |b.block.transactions| && b.block.transactions[i].from != b.block.transactions[i].to
    ensures var es := TxEffects(b, i); |es| == 2 && RefsAt(es[0], a) + RefsAt(es[1], a) == TxRefs(b, i, a)
  {
    var es := TxEffects(b, i);
    var r0, r1 := RefsAt(es[0], a), RefsAt(es[1], a);
    if a == es[0].addr {
      assert r1 == [] && r0 + r1 == r0;
    } else {
      assert r0 == [] && r0 + r1 == r1;
    }
  }

  lemma TwoSides(b: Shown, i: nat, a: Bytes)
    requires i < |b.block.transactions| && b.block.transactions[i].from != b.block.transactions[i].to
    ensures var es, tx := TxEffects(b, i), b.block.transactions[i];
      && es == [es[0], es[1]] && Plus(DeltaAt(es[0], a), DeltaAt(es[1], a)) == TxDelta(tx, a)
      && RefsAt(es[0], a) + RefsAt(es[1], a) == TxRefs(b, i, a)
  {
    hide TxEffects, TxRefs, TxDelta, DeltaAt, RefsAt, Plus;
    TwoDeltas(b, i, a);
    TwoRefs(b, i, a);
  }

  lemma OneSide(b: Shown, i: nat, a: Bytes)
    requires i < |b.block.transactions| && b.block.transactions[i].from == b.block.transactions[i].to
    ensures var es, tx := TxEffects(b, i), b.block.transactions[i];
      es == [es[0]] && DeltaAt(es[0], a) == TxDelta(tx, a) && RefsAt(es[0], a) == TxRefs(b, i, a)
  {
  }

  lemma TxLeaves(b: Shown, i: nat, a: Bytes)
    requires i < |b.block.transactions|
    ensures Leaves(TxEffects(b, i), a, TxDelta(b.block.transactions[i], a), TxRefs(b, i, a))
  {
    hide Leaves, TxEffects, TxRefs, TxDelta, Plus, DeltaAt, RefsAt;
    var es := TxEffects(b, i);
    if b.block.transactions[i].from == b.block.transactions[i].to {
      OneSide(b, i, a);
      LeavesOne(es[0], a);
    } else {
      TwoSides(b, i, a);
      LeavesTwo(es[0], es[1], a);
    }
  }

  function BlockDelta(b: Shown, n: nat, a: Bytes): Delta
    requires n <= |b.block.transactions|
  {
    var txs, mined := b.block.transactions[..n], b.block.header.miner == a;
    Delta(TxSum(txs, Got(a)), TxSum(txs, Paid(a)), TxSum(txs, Fees(a)),
          if mined then BlockReward(b.block.header.height) + FeeSum(b.block.transactions) else 0,
          if mined then 1 else 0, TxSum(txs, Named(a)))
  }

  lemma TxSumSnoc(txs: seq<Transaction>, n: nat, q: Transaction -> int)
    requires n < |txs|
    ensures TxSum(txs[..n + 1], q) == TxSum(txs[..n], q) + q(txs[n])
  {
    assert txs[..n + 1][..n] == txs[..n];
  }

  lemma BlockDeltaNext(b: Shown, n: nat, a: Bytes)
    requires n < |b.block.transactions|
    ensures var tx := b.block.transactions[n];
      BlockDelta(b, n + 1, a) == Plus(BlockDelta(b, n, a), TxDelta(tx, a))
  {
    var txs := b.block.transactions;
    TxSumSnoc(txs, n, Got(a));
    TxSumSnoc(txs, n, Paid(a));
    TxSumSnoc(txs, n, Fees(a));
    TxSumSnoc(txs, n, Named(a));
    hide TxSum, BlockReward, Got, Paid, Fees, Named;
  }

  lemma CoinbaseLeaves(b: Shown, a: Bytes)
    ensures Leaves([MinedEffect(b)], a, BlockDelta(b, 0, a), BlockRefs(b, 0, a))
  {
    hide Leaves, BlockReward;
    LeavesOne(MinedEffect(b), a);
    FeesAreSummed(b.block.transactions);
    assert b.block.transactions[..0] == [];
  }

  lemma {:induction false} BlockLeaves(b: Shown, n: nat, a: Bytes)
    requires n <= |b.block.transactions|
    ensures Leaves(EffectsTo(b, n), a, BlockDelta(b, n, a), BlockRefs(b, n, a))
  {
    if n == 0 {
      CoinbaseLeaves(b, a);
      hide BlockDelta, BlockRefs, Leaves;
    } else {
      hide Leaves, TxEffects, TxRefs, BlockDelta, Plus;
      BlockLeaves(b, n - 1, a);
      TxLeaves(b, n - 1, a);
      BlockDeltaNext(b, n - 1, a);
      var tx := b.block.transactions[n - 1];
      LeavesAppend(EffectsTo(b, n - 1), TxEffects(b, n - 1), a, BlockDelta(b, n - 1, a),
                   TxDelta(tx, a), BlockRefs(b, n - 1, a), TxRefs(b, n - 1, a));
    }
  }

  // ---- The branch ----

  function LineDelta(line: seq<Shown>, a: Bytes): Delta {
    Delta(LineSum(line, Got(a)), LineSum(line, Paid(a)), LineSum(line, Fees(a)), MinedSum(line, a), MinedCount(line, a), LineSum(line, Named(a)))
  }

  lemma LineDeltaNext(line: seq<Shown>, a: Bytes)
    requires line != []
    ensures LineDelta(line, a)
         == if Counts(line[0]) then Plus(LineDelta(line[1..], a), BlockDelta(line[0], |line[0].block.transactions|, a)) else LineDelta(line[1..], a)
  {
    hide TxSum, BlockReward, Got, Paid, Fees, Named;
    assert line[0].block.transactions[..|line[0].block.transactions|] == line[0].block.transactions;
  }

  lemma {:induction false} SpanLeaves(line: seq<Shown>, a: Bytes)
    ensures Leaves(Span(line), a, LineDelta(line, a), History(line, a))
  {
    if line == [] {
      assert Mine([], a) == [];
    } else {
      hide Leaves, LineDelta, BlockDelta, BlockRefs, Plus, EffectsTo;
      SpanLeaves(line[1..], a);
      LineDeltaNext(line, a);
      var b := line[0];
      assert Span(line[1..]) + [] == Span(line[1..]) && History(line[1..], a) + [] == History(line[1..], a);
      if Counts(b) {
        BlockLeaves(b, |b.block.transactions|, a);
        LeavesAppend(Span(line[1..]), Effects(b), a, LineDelta(line[1..], a), BlockDelta(b, |b.block.transactions|, a),
                     History(line[1..], a), BlockRefs(b, |b.block.transactions|, a));
      }
    }
  }

  lemma {:induction false} RefsCount(es: seq<Effect>)
    ensures |Refs(es)| == |es|
  {
    if es != [] {
      RefsCount(es[1..]);
    }
  }

  /**
   * The entry of any address in a rebuilt index: there is one exactly if something along the branch concerns
   * the address; its totals are the sums of what was sent, received, paid in fees and mined, self-sends
   * counting their fee only; its history lists every occurrence in order.
   */
  lemma EntryIsSums(line: seq<Shown>, txHash: Transaction -> Bytes, a: Bytes)
    ensures var o := At(Build(line, txHash).byAddress, a);
      && (o.Some? <==> History(line, a) != [])
      && (o.Some? ==>
            && o.value.totals.received == LineSum(line, Got(a))
            && o.value.totals.sent == LineSum(line, Paid(a))
            && o.value.totals.feesPaid == LineSum(line, Fees(a))
            && o.value.totals.minedRewards == MinedSum(line, a)
            && o.value.totals.blocksMined == MinedCount(line, a)
            && o.value.totals.txCount == LineSum(line, Named(a))
            && o.value.refs == History(line, a))
  {
    EntryIsHistory(line, txHash, a);
    SpanLeaves(line, a);
    RefsCount(Mine(Span(line), a));
    hide Build, Span, Mine, SumOf, Refs, History, LineSum, MinedSum, MinedCount;
  }
}
