/** The explorer index as a value: what indexing and unindexing a block do (src/ui/explorerIndex.ts). */
module Explorer {
  import opened Genesis
  import opened Transactions
  import opened Ledger
  import opened BlockTree

  datatype Dir = In | Out | Self | Mined

  /** One history entry of one address; `txIndex` is -1 for a coinbase. */
  datatype TxRef = TxRef(blockHash: Bytes, height: nat, ts: nat, txIndex: int, dir: Dir)

  /** The amounts an event adds to an address. */
  datatype Delta = Delta(received: int, sent: int, feesPaid: int, minedRewards: int, blocksMined: int, txCount: int)

  const ZERO := Delta(0, 0, 0, 0, 0, 0)

  function Plus(a: Delta, b: Delta): Delta {
    Delta(a.received + b.received, a.sent + b.sent, a.feesPaid + b.feesPaid,
          a.minedRewards + b.minedRewards, a.blocksMined + b.blocksMined, a.txCount + b.txCount)
  }

  function Minus(a: Delta, b: Delta): Delta {
    Delta(a.received - b.received, a.sent - b.sent, a.feesPaid - b.feesPaid,
          a.minedRewards - b.minedRewards, a.blocksMined - b.blocksMined, a.txCount - b.txCount)
  }

  datatype AddressStats = AddressStats(totals: Delta, refs: seq<TxRef>)

  datatype TxLocation = TxLocation(blockHash: Bytes, height: nat, txIndex: nat)

  datatype Index = Index(
    byAddress: map<Bytes, AddressStats>,
    txLoc: map<Bytes, TxLocation>,
    heightToHash: map<nat, Bytes>)

  const EMPTY_INDEX := Index(map[], map[], map[])

  /** The part of a chain entry the explorer reads. States come and go without it noticing. */
  datatype Shown = Shown(block: Block, hash: Bytes, hasBody: bool)

  function View(cb: ChainBlock): Shown {
    Shown(cb.block, cb.hash, cb.hasBody)
  }

  /** Something a block does to one address. */
  datatype Effect = Effect(addr: Bytes, delta: Delta, ref: TxRef)

  function RefIn(b: Shown, i: int, dir: Dir): TxRef {
    TxRef(b.hash, b.block.header.height, b.block.header.timestamp, i, dir)
  }

  function MinedEffect(b: Shown): Effect {
    var h := b.block.header;
    Effect(h.miner, Delta(0, 0, 0, BlockReward(h.height) + SumFees(b.block.transactions), 1, 0), RefIn(b, -1, Mined))
  }

  /** Sender then recipient; a self-send touches its address once. */
  function TxEffects(b: Shown, i: nat): seq<Effect>
    requires i < |b.block.transactions|
  {
    var tx := b.block.transactions[i];
    if tx.from == tx.to then [Effect(tx.from, Delta(0, 0, tx.fee, 0, 0, 1), RefIn(b, i, Self))]
    else [Effect(tx.from, Delta(0, tx.amount, tx.fee, 0, 0, 1), RefIn(b, i, Out)),
          Effect(tx.to, Delta(tx.amount, 0, 0, 0, 0, 1), RefIn(b, i, In))]
  }

  function EffectsTo(b: Shown, n: nat): seq<Effect>
    requires n <= |b.block.transactions|
  {
    if n == 0 then [MinedEffect(b)] else EffectsTo(b, n - 1) + TxEffects(b, n - 1)
  }

  /** Everything a block does, in the order the code does it. */
  function Effects(b: Shown): seq<Effect> {
    EffectsTo(b, |b.block.transactions|)
  }

  // ---- One effect ----

  function Touch(m: map<Bytes, AddressStats>, addr: Bytes): AddressStats {
    if addr in m then m[addr] else AddressStats(ZERO, [])
  }

  function Do(m: map<Bytes, AddressStats>, e: Effect): map<Bytes, AddressStats> {
    var s := Touch(m, e.addr);
    m[e.addr := AddressStats(Plus(s.totals, e.delta), s.refs + [e.ref])]
  }

  /** The refs before the run into `hash` at the end. */
  function TrimTail(refs: seq<TxRef>, hash: Bytes): seq<TxRef> {
    if refs != [] && refs[|refs| - 1].blockHash == hash then TrimTail(refs[..|refs| - 1], hash) else refs
  }

  function Without(refs: seq<TxRef>, hash: Bytes): seq<TxRef> {
    if refs == [] then []
    else if refs[0].blockHash == hash then Without(refs[1..], hash)
    else [refs[0]] + Without(refs[1..], hash)
  }

  /** Cut the tail; if there was none to cut, filter the whole history. */
  function DropRefs(refs: seq<TxRef>, hash: Bytes): seq<TxRef> {
    var t := TrimTail(refs, hash);
    if |t| < |refs| then t else Without(refs, hash)
  }

  predicate Spent(s: AddressStats) {
    s.refs == [] && s.totals.txCount == 0 && s.totals.blocksMined == 0
  }

  function Undo(m: map<Bytes, AddressStats>, e: Effect, hash: Bytes): map<Bytes, AddressStats> {
    if e.addr !in m then m
    else
      var s := AddressStats(Minus(m[e.addr].totals, e.delta), DropRefs(m[e.addr].refs, hash));
      if Spent(s) then m - {e.addr} else m[e.addr := s]
  }

  function DoAll(m: map<Bytes, AddressStats>, es: seq<Effect>): map<Bytes, AddressStats>
    decreases |es|
  {
    if es == [] then m else DoAll(Do(m, es[0]), es[1..])
  }

  function UndoAll(m: map<Bytes, AddressStats>, es: seq<Effect>, hash: Bytes): map<Bytes, AddressStats>
    decreases |es|
  {
    if es == [] then m else UndoAll(Undo(m, es[0], hash), es[1..], hash)
  }

  // ---- One block ----

  function LocateAll(m: map<Bytes, TxLocation>, b: Shown, txHash: Transaction -> Bytes, n: nat): map<Bytes, TxLocation>
    requires n <= |b.block.transactions|
  {
    if n == 0 then m
    else LocateAll(m, b, txHash, n - 1)[txHash(b.block.transactions[n - 1]) := TxLocation(b.hash, b.block.header.height, n - 1)]
  }

  function UnlocateAll(m: map<Bytes, TxLocation>, b: Shown, txHash: Transaction -> Bytes, n: nat): map<Bytes, TxLocation>
    requires n <= |b.block.transactions|
  {
    if n == 0 then m else UnlocateAll(m, b, txHash, n - 1) - {txHash(b.block.transactions[n - 1])}
  }

  function IndexBlock(x: Index, b: Shown, txHash: Transaction -> Bytes): Index {
    var h := b.block.header.height;
    if h == 0 then x
    else
      var x1 := x.(heightToHash := x.heightToHash[h := b.hash]);
      if !b.hasBody then x1
      else x1.(byAddress := DoAll(x.byAddress, Effects(b)), txLoc := LocateAll(x.txLoc, b, txHash, |b.block.transactions|))
  }

  function UnindexBlock(x: Index, b: Shown, txHash: Transaction -> Bytes): Index {
    var h := b.block.header.height;
    if h == 0 then x
    else
      var x1 := if h in x.heightToHash && x.heightToHash[h] == b.hash then x.(heightToHash := x.heightToHash - {h}) else x;
      if !b.hasBody then x1
      else x1.(byAddress := UndoAll(x.byAddress, Effects(b), b.hash),
               txLoc := UnlocateAll(x.txLoc, b, txHash, |b.block.transactions|))
  }

  // ---- Many blocks, and tip moves ----

  /** Index a run of blocks given newest first, oldest first. */
  function IndexMany(x: Index, bs: seq<Shown>, txHash: Transaction -> Bytes): Index {
    if bs == [] then x else IndexBlock(IndexMany(x, bs[1..], txHash), bs[0], txHash)
  }

  /** Unindex a run of blocks given newest first, in that order. */
  function UnindexMany(x: Index, bs: seq<Shown>, txHash: Transaction -> Bytes): Index
    decreases |bs|
  {
    if bs == [] then x else UnindexMany(UnindexBlock(x, bs[0], txHash), bs[1..], txHash)
  }

  /** The index rebuilt from genesis for a branch given newest first. */
  function Build(line: seq<Shown>, txHash: Transaction -> Bytes): Index {
    IndexMany(EMPTY_INDEX, line, txHash)
  }

  datatype Explorer = Explorer(index: Index, tip: Bytes, stale: bool)

  /** The moved blocks start at the indexed tip and the oldest new block hangs off what is left. */
  predicate Continuous(tip: Bytes, connected: seq<Shown>, disconnected: seq<Shown>)
    requires connected != []
  {
    && (disconnected != [] ==> disconnected[0].hash == tip)
    && connected[|connected| - 1].block.header.prevHash
       == if disconnected != [] then disconnected[|disconnected| - 1].block.header.prevHash else tip
  }

  /** What a tip move does to the index; both lists are newest first. */
  function Follow(x: Explorer, connected: seq<Shown>, disconnected: seq<Shown>, txHash: Transaction -> Bytes): Explorer {
    if x.stale || connected == [] then x
    else if !Continuous(x.tip, connected, disconnected) then x.(stale := true)
    else Explorer(IndexMany(UnindexMany(x.index, disconnected, txHash), connected, txHash), connected[0].hash, false)
  }

  // ---- The inverse, one address at a time ----

  function At(m: map<Bytes, AddressStats>, a: Bytes): Option<AddressStats> {
    if a in m then Some(m[a]) else None
  }

  function Base(o: Option<AddressStats>): AddressStats {
    if o.Some? then o.value else AddressStats(ZERO, [])
  }

  function Mine(es: seq<Effect>, a: Bytes): seq<Effect> {
    if es == [] then [] else if es[0].addr == a then [es[0]] + Mine(es[1..], a) else Mine(es[1..], a)
  }

  function SumOf(es: seq<Effect>): Delta {
    if es == [] then ZERO else Plus(es[0].delta, SumOf(es[1..]))
  }

  function Refs(es: seq<Effect>): seq<TxRef> {
    if es == [] then [] else [es[0].ref] + Refs(es[1..])
  }

  /** An entry after some effects on its address. */
  function After(o: Option<AddressStats>, f: seq<Effect>): Option<AddressStats> {
    if f == [] then o else Some(AddressStats(Plus(Base(o).totals, SumOf(f)), Base(o).refs + Refs(f)))
  }

  lemma AfterCons(o: Option<AddressStats>, e: Effect, f: seq<Effect>)
    ensures After(Some(AddressStats(Plus(Base(o).totals, e.delta), Base(o).refs + [e.ref])), f) == After(o, [e] + f)
  {
    assert ([e] + f)[1..] == f;
    if f == [] {
      PlusZero(e.delta);
      assert SumOf([e] + f) == e.delta && Refs([e] + f) == [e.ref];
    } else {
      assert Base(o).refs + [e.ref] + Refs(f) == Base(o).refs + Refs([e] + f);
    }
  }

  /** What a run of effects leaves at one address. */
  lemma {:induction false} DoAllAt(m: map<Bytes, AddressStats>, es: seq<Effect>, a: Bytes)
    ensures At(DoAll(m, es), a) == After(At(m, a), Mine(es, a))
    decreases |es|
  {
    if es != [] {
      DoAllAt(Do(m, es[0]), es[1..], a);
      if es[0].addr == a {
        AfterCons(At(m, a), es[0], Mine(es[1..], a));
      }
      hide After, Plus;
    }
  }

  lemma {:induction false} DoAllAppend(m: map<Bytes, AddressStats>, a: seq<Effect>, b: seq<Effect>)
    ensures DoAll(m, a + b) == DoAll(DoAll(m, a), b)
    decreases |a|
  {
    if a == [] {
      assert a + b == b;
    } else {
      assert (a + b)[1..] == a[1..] + b;
      hide Do;
      DoAllAppend(Do(m, a[0]), a[1..], b);
    }
  }

  /** The same undo on one address, ignoring effects on others. */
  function UndoOne(o: Option<AddressStats>, e: Effect, hash: Bytes): Option<AddressStats> {
    if o.None? then None
    else
      var s := AddressStats(Minus(o.value.totals, e.delta), DropRefs(o.value.refs, hash));
      if Spent(s) then None else Some(s)
  }

  function UndoMine(o: Option<AddressStats>, f: seq<Effect>, hash: Bytes): Option<AddressStats>
    decreases |f|
  {
    if f == [] then o else UndoMine(UndoOne(o, f[0], hash), f[1..], hash)
  }

  lemma {:induction false} UndoAllAt(m: map<Bytes, AddressStats>, es: seq<Effect>, hash: Bytes, a: Bytes)
    ensures At(UndoAll(m, es, hash), a) == UndoMine(At(m, a), Mine(es, a), hash)
    decreases |es|
  {
    hide DropRefs;
    if es != [] {
      UndoAllAt(Undo(m, es[0], hash), es[1..], hash, a);
      if es[0].addr == a {
        assert Mine(es, a)[1..] == Mine(es[1..], a);
      }
    }
  }

  /** Effects of one block: every ref points into it, and every effect counts once. */
  ghost predicate OfBlock(es: seq<Effect>, hash: Bytes) {
    forall i :: 0 <= i < |es| ==>
      && es[i].ref.blockHash == hash
      && es[i].delta.txCount >= 0 && es[i].delta.blocksMined >= 0
      && es[i].delta.txCount + es[i].delta.blocksMined == 1
  }

  /** An entry as a rebuilt index has it before the block: with history, none of it in the block. */
  ghost predicate Live(o: Option<AddressStats>, hash: Bytes) {
    o.Some? ==> o.value.refs != [] && NoneInto(o.value.refs, hash)
  }

  ghost predicate NoneInto(refs: seq<TxRef>, hash: Bytes) {
    forall i :: 0 <= i < |refs| ==> refs[i].blockHash != hash
  }

  lemma {:induction false} TrimAll(refs: seq<TxRef>, extra: seq<TxRef>, hash: Bytes)
    requires NoneInto(refs, hash) && forall i :: 0 <= i < |extra| ==> extra[i].blockHash == hash
    ensures TrimTail(refs + extra, hash) == refs
    decreases |extra|
  {
    if extra != [] {
      var front := extra[..|extra| - 1];
      assert (refs + extra)[..|refs + extra| - 1] == refs + front;
      TrimAll(refs, front, hash);
    } else {
      assert refs + extra == refs;
    }
  }

  lemma {:induction false} WithoutNone(refs: seq<TxRef>, hash: Bytes)
    requires NoneInto(refs, hash)
    ensures Without(refs, hash) == refs
  {
    if refs != [] {
      WithoutNone(refs[1..], hash);
    }
  }

  lemma DropExact(refs: seq<TxRef>, extra: seq<TxRef>, hash: Bytes)
    requires NoneInto(refs, hash) && forall i :: 0 <= i < |extra| ==> extra[i].blockHash == hash
    ensures DropRefs(refs + extra, hash) == refs
  {
    TrimAll(refs, extra, hash);
    if extra == [] {
      assert refs + extra == refs;
      WithoutNone(refs, hash);
    }
  }

  /** What is left at an address when the effects `f` are still to be undone and the refs are already gone. */
  function Expected(o: Option<AddressStats>, f: seq<Effect>): Option<AddressStats> {
    if f == [] then o else Some(AddressStats(Plus(Base(o).totals, SumOf(f)), Base(o).refs))
  }

  lemma {:induction false} CountsLeft(f: seq<Effect>, hash: Bytes)
    requires OfBlock(f, hash)
    ensures SumOf(f).txCount >= 0 && SumOf(f).blocksMined >= 0 && SumOf(f).txCount + SumOf(f).blocksMined == |f|
  {
    if f != [] {
      assert OfBlock(f[1..], hash);
      CountsLeft(f[1..], hash);
    }
  }

  lemma SumUncons(b: Delta, f: seq<Effect>)
    requires f != []
    ensures Minus(Plus(b, SumOf(f)), f[0].delta) == Plus(b, SumOf(f[1..]))
  {
  }

  lemma PlusZero(d: Delta)
    ensures Plus(d, ZERO) == d && Plus(ZERO, d) == d
  {
  }

  /** The entry is dropped exactly when it was absent before the block and nothing is left to undo. */
  lemma DroppedExactly(o: Option<AddressStats>, f: seq<Effect>, hash: Bytes)
    requires OfBlock(f, hash) && Live(o, hash)
    ensures var s := AddressStats(Plus(Base(o).totals, SumOf(f)), Base(o).refs);
      (if Spent(s) then None else Some(s)) == Expected(o, f)
  {
    CountsLeft(f, hash);
    hide OfBlock, NoneInto;
    if f == [] {
      PlusZero(Base(o).totals);
    } else if o.None? {
      PlusZero(SumOf(f));
      hide Plus;
    }
    hide SumOf;
  }

  lemma UndoStep(o: Option<AddressStats>, s: AddressStats, f: seq<Effect>, hash: Bytes)
    requires f != [] && OfBlock(f, hash) && Live(o, hash)
    requires s.totals == Plus(Base(o).totals, SumOf(f)) && DropRefs(s.refs, hash) == Base(o).refs
    ensures UndoOne(Some(s), f[0], hash) == Expected(o, f[1..])
  {
    assert OfBlock(f[1..], hash);
    SumUncons(Base(o).totals, f);
    DroppedExactly(o, f[1..], hash);
    hide DropRefs, OfBlock, Plus, Minus, SumOf, Expected, Spent, Live;
  }

  lemma {:induction false} UndoRest(o: Option<AddressStats>, f: seq<Effect>, hash: Bytes)
    requires OfBlock(f, hash) && Live(o, hash)
    ensures UndoMine(Expected(o, f), f, hash) == o
  {
    if f != [] {
      DropExact(Base(o).refs, [], hash);
      assert Base(o).refs + [] == Base(o).refs;
      UndoStep(o, Expected(o, f).value, f, hash);
      assert OfBlock(f[1..], hash);
      UndoRest(o, f[1..], hash);
    }
  }

  lemma {:induction false} RefsOfBlock(f: seq<Effect>, hash: Bytes)
    requires OfBlock(f, hash)
    ensures forall i :: 0 <= i < |Refs(f)| ==> Refs(f)[i].blockHash == hash
  {
    if f != [] {
      assert OfBlock(f[1..], hash);
      RefsOfBlock(f[1..], hash);
    }
  }

  lemma {:induction false} MineOfBlock(es: seq<Effect>, hash: Bytes, a: Bytes)
    requires OfBlock(es, hash)
    ensures OfBlock(Mine(es, a), hash)
  {
    if es != [] {
      assert OfBlock(es[1..], hash);
      MineOfBlock(es[1..], hash, a);
    }
  }

  /** At every address: undoing the effects in the order they were done restores the entry, or its absence. */
  lemma UndoneAt(m: map<Bytes, AddressStats>, es: seq<Effect>, hash: Bytes, a: Bytes)
    requires OfBlock(es, hash) && Live(At(m, a), hash)
    ensures At(UndoAll(DoAll(m, es), es, hash), a) == At(m, a)
  {
    var o, f := At(m, a), Mine(es, a);
    DoAllAt(m, es, a);
    UndoAllAt(DoAll(m, es), es, hash, a);
    MineOfBlock(es, hash, a);
    if f != [] {
      var s := At(DoAll(m, es), a).value;
      RefsOfBlock(f, hash);
      DropExact(Base(o).refs, Refs(f), hash);
      UndoStep(o, s, f, hash);
      assert OfBlock(f[1..], hash);
      UndoRest(o, f[1..], hash);
    }
  }

  ghost predicate AllLive(m: map<Bytes, AddressStats>, hash: Bytes) {
    forall a :: a in m ==> m[a].refs != [] && NoneInto(m[a].refs, hash)
  }

  lemma UndoneEverywhere(m: map<Bytes, AddressStats>, es: seq<Effect>, hash: Bytes)
    requires OfBlock(es, hash) && AllLive(m, hash)
    ensures UndoAll(DoAll(m, es), es, hash) == m
  {
    var m' := UndoAll(DoAll(m, es), es, hash);
    forall a
      ensures At(m', a) == At(m, a)
    {
      UndoneAt(m, es, hash, a);
    }
    forall a
      ensures a in m' <==> a in m
      ensures a in m ==> m'[a] == m[a]
    {
      assert At(m', a) == At(m, a);
    }
  }
}
