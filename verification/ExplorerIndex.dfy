/** The mutable explorer index: each method proved equal to the value model. */
module ExplorerIndex {
  import opened Genesis
  import opened Transactions
  import opened Ledger
  import opened BlockTree
  import opened TreeLaws
  import opened Explorer
  import opened ExplorerRuns
  import opened Blockchain

  lemma {:induction false} UndoAllAppend(m: map<Bytes, AddressStats>, a: seq<Effect>, b: seq<Effect>, hash: Bytes)
    ensures UndoAll(m, a + b, hash) == UndoAll(UndoAll(m, a, hash), b, hash)
    decreases |a|
  {
    if a == [] {
      assert a + b == b;
    } else {
      assert (a + b)[1..] == a[1..] + b;
      hide Undo;
      UndoAllAppend(Undo(m, a[0], hash), a[1..], b, hash);
    }
  }

  lemma DoOneOrTwo(m: map<Bytes, AddressStats>, a: Effect, b: Effect)
    ensures DoAll(m, [a]) == Do(m, a) && DoAll(m, [a, b]) == Do(Do(m, a), b)
  {
    hide Do;
    assert [a][1..] == [] && [b][1..] == [];
    assert [a] + [b] == [a, b];
    DoAllAppend(m, [a], [b]);
  }

  lemma UndoOneOrTwo(m: map<Bytes, AddressStats>, a: Effect, b: Effect, hash: Bytes)
    ensures UndoAll(m, [a], hash) == Undo(m, a, hash) && UndoAll(m, [a, b], hash) == Undo(Undo(m, a, hash), b, hash)
  {
    hide Undo;
    assert [a][1..] == [] && [b][1..] == [];
    assert [a] + [b] == [a, b];
    UndoAllAppend(m, [a], [b], hash);
  }

  class ExplorerIndex {
    const chain: Blockchain
    const txHash: Transaction -> Bytes
    var byAddress: map<Bytes, AddressStats>
    var txLoc: map<Bytes, TxLocation>
    var heightToHash: map<nat, Bytes>
    var indexedTipHash: Bytes
    var stale: bool
    var version: nat

    ghost function Stored(): Index
      reads this
    {
      Index(byAddress, txLoc, heightToHash)
    }

    ghost function Value(): Explorer
      reads this
    {
      Explorer(Stored(), indexedTipHash, stale)
    }

    constructor (chain: Blockchain, txHash: Transaction -> Bytes)
      ensures this.chain == chain && this.txHash == txHash && Value() == START
    {
      this.chain, this.txHash := chain, txHash;
      byAddress, txLoc, heightToHash, indexedTipHash, stale, version := map[], map[], map[], [], true, 0;
    }

    /** Follow a reported tip move, or give up and mark the index stale. */
    method Apply(delta: ReorgDelta)
      modifies this
      ensures Value() == Follow(old(Value()), Views(delta.connected), Views(delta.disconnected), txHash)
      ensures version == old(version) + if old(stale) || delta.connected == [] then 0 else 1
    {
      var off, on := delta.disconnected, delta.connected;
      if stale || |on| == 0 {
        return;
      }
      var unwindFrom := if |off| > 0 then off[0].hash else indexedTipHash;
      var expectedTip := if |off| > 0 then off[|off| - 1].block.header.prevHash else indexedTipHash;
      if unwindFrom != indexedTipHash || on[|on| - 1].block.header.prevHash != expectedTip {
        stale, version := true, version + 1;
        return;
      }
      UnindexRun(off);
      IndexRun(on);
      indexedTipHash, version := on[0].hash, version + 1;
    }

    method UnindexRun(line: seq<ChainBlock>)
      modifies this`byAddress, this`txLoc, this`heightToHash
      ensures Stored() == UnindexMany(old(Stored()), Views(line), txHash)
    {
      for i := 0 to |line|
        invariant UnindexMany(Stored(), Views(line)[i..], txHash) == UnindexMany(old(Stored()), Views(line), txHash)
      {
        assert Views(line)[i..][1..] == Views(line)[i + 1..];
        hide UnindexBlock;
        UnindexOne(line[i]);
      }
    }

    /** Oldest first, so that histories ascend. */
    method IndexRun(line: seq<ChainBlock>)
      modifies this`byAddress, this`txLoc, this`heightToHash
      ensures Stored() == IndexMany(old(Stored()), Views(line), txHash)
    {
      var i := |line|;
      while i > 0
        invariant 0 <= i <= |line|
        invariant Stored() == IndexMany(old(Stored()), Views(line)[i..], txHash)
      {
        i := i - 1;
        assert Views(line)[i..][1..] == Views(line)[i + 1..];
        hide IndexBlock;
        IndexOne(line[i]);
      }
    }

    /** Rebuild unless the index is known to match the chain's tip. */
    method EnsureFresh()
      requires Linked(chain.env, chain.Value())
      modifies this
      ensures Value() == Refreshed(chain.env, chain.Value(), old(Value()), txHash)
    {
      hide Linked, Line, Build;
      if !stale && chain.tipHash == indexedTipHash {
        return;
      }
      Rebuild();
    }

    method MarkStale()
      modifies this
      ensures Value() == old(Value()).(stale := true) && version == old(version) + 1
    {
      stale, version := true, version + 1;
    }

    method Rebuild()
      requires Linked(chain.env, chain.Value())
      modifies this
      ensures Value() == Explorer(Build(Line(chain.env, chain.Value(), chain.tipHash), txHash), chain.tipHash, false)
      ensures version == old(version) + 1
    {
      byAddress, txLoc, heightToHash := map[], map[], map[];
      var blocks := chain.IterateCanonical();
      LineIsAncestry(chain.env, chain.Value(), chain.tipHash);
      hide Linked, Line, Ancestry;
      IndexRun(blocks);
      indexedTipHash, stale, version := chain.tipHash, false, version + 1;
    }

    /** The entry of an address, or a blank one. */
    method Record(addr: Bytes, delta: Delta, ref: TxRef)
      modifies this`byAddress
      ensures byAddress == Do(old(byAddress), Effect(addr, delta, ref))
    {
      if addr !in byAddress {
        byAddress := byAddress[addr := AddressStats(ZERO, [])];
      }
      var s := byAddress[addr];
      byAddress := byAddress[addr := AddressStats(Plus(s.totals, delta), s.refs + [ref])];
    }

    method IndexOne(cb: ChainBlock)
      modifies this`byAddress, this`txLoc, this`heightToHash
      ensures Stored() == IndexBlock(old(Stored()), View(cb), txHash)
    {
      var b, h := View(cb), cb.block.header;
      if h.height == 0 {
        return;
      }
      heightToHash := heightToHash[h.height := cb.hash];
      if !cb.hasBody {
        return;
      }
      IndexBody(b);
    }

    /** The coinbase, then every transaction. */
    method IndexBody(b: Shown)
      modifies this`byAddress, this`txLoc
      ensures byAddress == DoAll(old(byAddress), Effects(b))
      ensures txLoc == LocateAll(old(txLoc), b, txHash, |b.block.transactions|)
    {
      hide Do;
      var h, txs := b.block.header, b.block.transactions;
      var fees := TotalFees(txs);
      Record(h.miner, Delta(0, 0, 0, BlockReward(h.height) + fees, 1, 0), RefIn(b, -1, Mined));
      DoOneOrTwo(old(byAddress), MinedEffect(b), MinedEffect(b));
      for i := 0 to |txs|
        invariant byAddress == DoAll(old(byAddress), EffectsTo(b, i))
        invariant txLoc == LocateAll(old(txLoc), b, txHash, i)
      {
        DoAllAppend(old(byAddress), EffectsTo(b, i), TxEffects(b, i));
        txLoc := txLoc[txHash(txs[i]) := TxLocation(b.hash, h.height, i)];
        IndexTx(b, i);
      }
    }

    method IndexTx(b: Shown, i: nat)
      requires i < |b.block.transactions|
      modifies this`byAddress
      ensures byAddress == DoAll(old(byAddress), TxEffects(b, i))
    {
      hide Do;
      var tx, es := b.block.transactions[i], TxEffects(b, i);
      DoOneOrTwo(byAddress, es[0], es[|es| - 1]);
      if tx.from == tx.to {
        Record(tx.from, Delta(0, 0, tx.fee, 0, 0, 1), RefIn(b, i, Self));
      } else {
        Record(tx.from, Delta(0, tx.amount, tx.fee, 0, 0, 1), RefIn(b, i, Out));
        Record(tx.to, Delta(tx.amount, 0, 0, 0, 0, 1), RefIn(b, i, In));
      }
    }

    method TotalFees(txs: seq<Transaction>) returns (fees: int)
      ensures fees == SumFees(txs)
    {
      fees := 0;
      for i := 0 to |txs|
        invariant SumFees(txs) == fees + SumFees(txs[i..])
      {
        assert txs[i..][1..] == txs[i + 1..];
        fees := fees + txs[i].fee;
      }
    }

    method UnindexOne(cb: ChainBlock)
      modifies this`byAddress, this`txLoc, this`heightToHash
      ensures Stored() == UnindexBlock(old(Stored()), View(cb), txHash)
    {
      var b, h := View(cb), cb.block.header;
      if h.height == 0 {
        return;
      }
      if h.height in heightToHash && heightToHash[h.height] == cb.hash {
        heightToHash := heightToHash - {h.height};
      }
      if !cb.hasBody {
        return;
      }
      UnindexBody(b);
    }

    /** The coinbase, then every transaction. */
    method UnindexBody(b: Shown)
      modifies this`byAddress, this`txLoc
      ensures byAddress == UndoAll(old(byAddress), Effects(b), b.hash)
      ensures txLoc == UnlocateAll(old(txLoc), b, txHash, |b.block.transactions|)
    {
      hide Undo;
      var h, txs := b.block.header, b.block.transactions;
      var fees := TotalFees(txs);
      Unrecord(h.miner, Delta(0, 0, 0, BlockReward(h.height) + fees, 1, 0), b.hash, MinedEffect(b).ref);
      UndoOneOrTwo(old(byAddress), MinedEffect(b), MinedEffect(b), b.hash);
      for i := 0 to |txs|
        invariant byAddress == UndoAll(old(byAddress), EffectsTo(b, i), b.hash)
        invariant txLoc == UnlocateAll(old(txLoc), b, txHash, i)
      {
        UndoAllAppend(old(byAddress), EffectsTo(b, i), TxEffects(b, i), b.hash);
        txLoc := txLoc - {txHash(txs[i])};
        UnindexTx(b, i);
      }
    }

    method UnindexTx(b: Shown, i: nat)
      requires i < |b.block.transactions|
      modifies this`byAddress
      ensures byAddress == UndoAll(old(byAddress), TxEffects(b, i), b.hash)
    {
      hide Undo;
      var tx, es := b.block.transactions[i], TxEffects(b, i);
      UndoOneOrTwo(byAddress, es[0], es[|es| - 1], b.hash);
      if tx.from == tx.to {
        Unrecord(tx.from, Delta(0, 0, tx.fee, 0, 0, 1), b.hash, es[0].ref);
      } else {
        Unrecord(tx.from, Delta(0, tx.amount, tx.fee, 0, 0, 1), b.hash, es[0].ref);
        Unrecord(tx.to, Delta(tx.amount, 0, 0, 0, 0, 1), b.hash, es[1].ref);
      }
    }

    method Unrecord(addr: Bytes, delta: Delta, hash: Bytes, ghost ref: TxRef)
      modifies this`byAddress
      ensures byAddress == Undo(old(byAddress), Effect(addr, delta, ref), hash)
    {
      if addr in byAddress {
        hide DropRefs;
        byAddress := byAddress[addr := byAddress[addr].(totals := Minus(byAddress[addr].totals, delta))];
        DropRefsOf(addr, hash);
      }
    }

    /** Cut the matching tail, or filter when there is none; forget an address with nothing left. */
    method DropRefsOf(addr: Bytes, hash: Bytes)
      requires addr in byAddress
      modifies this`byAddress
      ensures var s := old(byAddress)[addr].(refs := DropRefs(old(byAddress)[addr].refs, hash));
        byAddress == if Spent(s) then old(byAddress) - {addr} else old(byAddress)[addr := s]
    {
      var s := byAddress[addr];
      var end := |s.refs|;
      assert s.refs[..end] == s.refs;
      while end > 0 && s.refs[end - 1].blockHash == hash
        invariant 0 <= end <= |s.refs|
        invariant TrimTail(s.refs[..end], hash) == TrimTail(s.refs, hash)
      {
        assert s.refs[..end][..end - 1] == s.refs[..end - 1];
        end := end - 1;
      }
      if end < |s.refs| {
        s := s.(refs := s.refs[..end]);
      } else {
        assert s.refs[..end] == s.refs;
        var kept := FilterOut(s.refs, hash);
        s := s.(refs := kept);
      }
      byAddress := byAddress[addr := s];
      if |s.refs| == 0 && s.totals.txCount == 0 && s.totals.blocksMined == 0 {
        byAddress := byAddress - {addr};
      }
    }

    method FilterOut(refs: seq<TxRef>, hash: Bytes) returns (kept: seq<TxRef>)
      ensures kept == Without(refs, hash)
    {
      kept := [];
      for i := 0 to |refs|
        invariant Without(refs, hash) == kept + Without(refs[i..], hash)
      {
        assert refs[i..][1..] == refs[i + 1..];
        if refs[i].blockHash != hash {
          kept := kept + [refs[i]];
        }
      }
    }
  }
}
