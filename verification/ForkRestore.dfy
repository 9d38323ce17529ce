/** Restoring stored rows that may contain forks: which tip the restore ends on, and when it has a state. */
module ForkRestore {
  import opened Genesis
  import opened Transactions
  import opened Ledger
  import opened Consensus
  import opened BlockTree
  import opened TreeLaws
  import opened TreeRuns
  import opened SeedLaws
  import opened Restore
  import BlockWire

  // ---- Rows ----

  /** The hash of the block stored in a row; nothing if it does not decode. */
  function KeyOf(env: Env, row: Row): Bytes {
    var b := BlockWire.DecodeBlock(row.encoded);
    if b.Some? then env.hash(b.value.header) else []
  }

  /** Cumulative work as it follows from the headers alone: the parent's plus the block's own. */
  ghost predicate WeighsRow(env: Env, row: Row, w: Bytes -> nat) {
    var b := BlockWire.DecodeBlock(row.encoded);
    b.Some? ==> w(env.hash(b.value.header)) == w(b.value.header.prevHash) + BlockWork(b.value.header.difficulty)
  }

  ghost predicate Weighs(env: Env, rows: seq<Row>, w: Bytes -> nat) {
    && w(env.hash(GENESIS_HEADER)) == BlockWork(GENESIS_DIFFICULTY_COMPACT)
    && forall i :: 0 <= i < |rows| ==> WeighsRow(env, rows[i], w)
  }

  /** Rows are keyed by hash: no block twice, and genesis only in rows that are skipped. */
  ghost predicate Keyed(env: Env, rows: seq<Row>) {
    && (forall i :: 0 <= i < |rows| && rows[i].height > 0 ==> KeyOf(env, rows[i]) != env.hash(GENESIS_HEADER))
    && (forall i, j :: 0 <= i < j < |rows| && rows[i].height > 0 && rows[j].height > 0 ==>
          KeyOf(env, rows[i]) != KeyOf(env, rows[j]))
  }

  /** A row restored together with a state: the anchor, or any row above it. */
  predicate Stateful(env: Env, row: Row, snap: Snapshot) {
    row.height > snap.height || IsAnchorRow(env, row, snap)
  }

  function Weight(env: Env, row: Row, w: Bytes -> nat): nat {
    if row.height == 0 then 0 else w(KeyOf(env, row))
  }

  // ---- The tip, row by row ----

  /** The tip's hash, and whether its state is in memory. */
  datatype Head = Head(tip: Bytes, live: bool)

  function NextHead(env: Env, row: Row, snap: Snapshot, w: Bytes -> nat, h: Head): Head {
    if row.height == 0 then h
    else if IsAnchorRow(env, row, snap) || w(KeyOf(env, row)) > w(h.tip) then Head(KeyOf(env, row), Stateful(env, row, snap))
    else h
  }

  function Track(env: Env, rows: seq<Row>, snap: Snapshot, w: Bytes -> nat, h: Head): Head
    decreases |rows|
  {
    if rows == [] then h else Track(env, rows[1..], snap, w, NextHead(env, rows[0], snap, w, h))
  }

  function HeadOf(c: Chain): Head
    requires c.tip in c.blocks
  {
    Head(c.tip, c.blocks[c.tip].state.Some?)
  }

  /** What the walk over the rows keeps of the tree. */
  ghost predicate Weighed(env: Env, c: Chain, w: Bytes -> nat) {
    && Linked(env, c) && Indexed(c)
    && forall k :: k in c.blocks ==> c.blocks[k].work == w(k)
  }

  lemma EntryWeighs(env: Env, c: Chain, w: Bytes -> nat, row: Row, block: Block, state: Option<State>)
    requires Weighed(env, c, w) && WeighsRow(env, row, w) && BlockWire.DecodeBlock(row.encoded) == Some(block)
    requires block.header.prevHash in c.blocks
    ensures var e := Entry(env, c, block, state, true); e.work == w(e.hash) && e.hash == KeyOf(env, row) && e.block == block && e.state == state
  {
    hide BlockWire.DecodeBlock, BlockWork, Linked, Indexed;
  }

  lemma StoredWeighed(env: Env, c: Chain, e: ChainBlock, w: Bytes -> nat, t: Bytes)
    requires Weighed(env, c, w) && Insertable(env, c, e) && e.work == w(e.hash) && (t == e.hash || t == c.tip)
    ensures Weighed(env, Store(c, e).(tip := t), w)
  {
    InsertLinked(env, c, e);
    InsertIndexed(env, c, e);
    TipStored(env, c);
    hide Linked, Indexed, Insertable;
    IndexedIgnoresTip(Store(c, e), t);
    SameLinks(env, Store(c, e), Store(c, e).(tip := t));
  }

  /** What a seeded row does to the tree. */
  lemma SeedHead(env: Env, c: Chain, w: Bytes -> nat, row: Row, block: Block, state: Option<State>)
    requires Weighed(env, c, w) && WeighsRow(env, row, w) && BlockWire.DecodeBlock(row.encoded) == Some(block)
    requires KeyOf(env, row) !in c.blocks && SeedError(env, c, block.header).None?
    ensures var c1 := SeedHistorical(env, c, block, state);
      var k := KeyOf(env, row);
      && Weighed(env, c1, w) && c.tip in c.blocks && c1.tip in c1.blocks && c1.blocks.Keys == c.blocks.Keys + {k}
      && HeadOf(c1) == if state.Some? || w(k) > w(c.tip) then Head(k, state.Some?) else HeadOf(c)
  {
    hide BlockWire.DecodeBlock, BlockWork, InheritAnchor, Indexed, WeighsRow;
    SeedInsertable(env, c, block, state, true);
    EntryWeighs(env, c, w, row, block, state);
    TipStored(env, c);
    hide Linked, Insertable;
    var e := Entry(env, c, block, state, true);
    var k := KeyOf(env, row);
    assert e.hash == k && e.hash !in c.blocks;
    var t := if state.Some? || e.work > c.blocks[c.tip].work then k else c.tip;
    StoredWeighed(env, c, e, w, t);
    hide Entry;
    assert Store(c, e).blocks == c.blocks[k := e];
  }

  lemma PrunedWeighed(env: Env, c: Chain, w: Bytes -> nat, boundary: int)
    requires Weighed(env, c, w) && boundary <= HeightOf(c, c.tip) && c.tip in c.blocks
    ensures var c1 := PruneTo(c, boundary);
      Weighed(env, c1, w) && c1.tip == c.tip && c1.blocks.Keys == c.blocks.Keys && c1.blocks[c.tip] == c.blocks[c.tip]
  {
    PruneExact(c, boundary);
    PruneLinked(env, c, boundary);
    hide Linked, Indexed, PruneTo;
  }

  /** What an accepted tail row does to the tree. */
  lemma AcceptHead(env: Env, c: Chain, w: Bytes -> nat, row: Row, block: Block, state: State)
    requires Weighed(env, c, w) && WeighsRow(env, row, w) && BlockWire.DecodeBlock(row.encoded) == Some(block)
    requires block.header.prevHash in c.blocks && c.tip in c.blocks
    requires Insertable(env, c, Entry(env, c, block, Some(state), true))
    ensures var c1 := Accept(env, c, block, state);
      var k := KeyOf(env, row);
      && Weighed(env, c1, w) && c1.tip in c1.blocks && c1.blocks.Keys == c.blocks.Keys + {k}
      && HeadOf(c1) == if w(k) > w(c.tip) then Head(k, true) else HeadOf(c)
  {
    hide BlockWire.DecodeBlock, Weighed, WeighsRow, PruneTo, Entry, Linked, Insertable, KeyOf;
    EntryWeighs(env, c, w, row, block, Some(state));
    var e := Entry(env, c, block, Some(state), true);
    InsertableIsNew(env, c, e);
    WorksAre(env, c, w);
    if e.work > c.blocks[c.tip].work {
      var c1 := Store(c, e).(tip := e.hash);
      StoredWeighed(env, c, e, w, e.hash);
      assert c1.blocks == c.blocks[e.hash := e];
      PrunedWeighed(env, c1, w, e.block.header.height - env.depth);
    } else {
      StoredWeighed(env, c, e, w, c.tip);
      assert Store(c, e).blocks == c.blocks[e.hash := e];
      assert Store(c, e).(tip := c.tip) == Store(c, e);
    }
  }

  lemma InsertableIsNew(env: Env, c: Chain, e: ChainBlock)
    requires Insertable(env, c, e)
    ensures e.hash !in c.blocks
  {
    hide BlockWork, InheritAnchor;
  }

  lemma WorksAre(env: Env, c: Chain, w: Bytes -> nat)
    requires Weighed(env, c, w)
    ensures forall k :: k in c.blocks ==> c.blocks[k].work == w(k)
  {
    hide Linked, Indexed;
  }

  lemma TailHead(env: Env, c: Chain, w: Bytes -> nat, row: Row, block: Block, now: int)
    requires Weighed(env, c, w) && WeighsRow(env, row, w) && BlockWire.DecodeBlock(row.encoded) == Some(block)
    requires KeyOf(env, row) !in c.blocks && c.tip in c.blocks && TailOrFail(env, c, block, now).Restored?
    ensures var c1 := TailOrFail(env, c, block, now).chain;
      var k := KeyOf(env, row);
      && CheckBlock(env, c, block, STORED, now).Good?
      && Weighed(env, c1, w) && c1.tip in c1.blocks && c1.blocks.Keys == c.blocks.Keys + {k}
      && HeadOf(c1) == if w(k) > w(c.tip) then Head(k, true) else HeadOf(c)
  {
    NotKnown(env, c, block, now);
    hide BlockWire.DecodeBlock, WeighsRow, Indexed, Linked, Accept, CheckBlock;
    var r := CheckBlock(env, c, block, STORED, now);
    GoodPrevStored(env, c, block, STORED, now);
    GoodIsInsertable(env, c, block, STORED, now);
    hide Insertable;
    AcceptHead(env, c, w, row, block, r.state);
  }

  lemma NotKnown(env: Env, c: Chain, block: Block, now: int)
    requires env.hash(block.header) !in c.blocks
    ensures !CheckBlock(env, c, block, STORED, now).Known?
  {
    hide ApplyBlock, CheckAgainstTree, ChildContext;
  }

  /** One row of a successful restore, as the tracker sees it. */
  lemma StepHead(env: Env, c: Chain, w: Bytes -> nat, row: Row, snap: Snapshot, now: int)
    requires Weighed(env, c, w) && WeighsRow(env, row, w) && c.tip in c.blocks
    requires row.height > 0 && KeyOf(env, row) !in c.blocks && SnapshotStep(env, c, row, snap, now).Restored?
    ensures var c1 := SnapshotStep(env, c, row, snap, now).chain;
      && Weighed(env, c1, w) && c1.tip in c1.blocks && c1.blocks.Keys == c.blocks.Keys + {KeyOf(env, row)}
      && HeadOf(c1) == NextHead(env, row, snap, w, HeadOf(c))
  {
    var block := BlockWire.DecodeBlock(row.encoded).value;
    StepKind(env, c, row, snap, now);
    hide BlockWire.DecodeBlock, Weighed, WeighsRow, SnapshotStep, SeedHistorical, SeedError, TailOrFail;
    if row.height > snap.height {
      TailHead(env, c, w, row, block, now);
    } else {
      SeedHead(env, c, w, row, block, if IsAnchorRow(env, row, snap) then Some(snap.state) else None);
    }
  }

  lemma StepKind(env: Env, c: Chain, row: Row, snap: Snapshot, now: int)
    requires c.tip in c.blocks && SnapshotStep(env, c, row, snap, now).Restored?
    ensures BlockWire.DecodeBlock(row.encoded).Some?
    ensures var block := BlockWire.DecodeBlock(row.encoded).value;
      SnapshotStep(env, c, row, snap, now)
      == if row.height > snap.height then TailOrFail(env, c, block, now)
         else SeedOrFail(env, c, block, if IsAnchorRow(env, row, snap) then Some(snap.state) else None)
  {
    hide BlockWire.DecodeBlock, SeedOrFail, TailOrFail;
  }

  ghost predicate Unseen(env: Env, c: Chain, rows: seq<Row>) {
    forall i :: 0 <= i < |rows| && rows[i].height > 0 ==> KeyOf(env, rows[i]) !in c.blocks
  }

  lemma RestRows(env: Env, rows: seq<Row>, w: Bytes -> nat)
    requires rows != [] && Keyed(env, rows) && Weighs(env, rows, w)
    ensures Keyed(env, rows[1..]) && Weighs(env, rows[1..], w) && WeighsRow(env, rows[0], w)
  {
    hide KeyOf, WeighsRow, BlockWork;
  }

  lemma StillUnseen(env: Env, c: Chain, c1: Chain, rows: seq<Row>)
    requires rows != [] && Keyed(env, rows) && Unseen(env, c, rows)
    requires c1.blocks.Keys == c.blocks.Keys || (rows[0].height > 0 && c1.blocks.Keys == c.blocks.Keys + {KeyOf(env, rows[0])})
    ensures Unseen(env, c1, rows[1..])
  {
    hide KeyOf;
    forall i | 0 <= i < |rows[1..]| && rows[1..][i].height > 0
      ensures KeyOf(env, rows[1..][i]) !in c1.blocks
    {
      assert rows[1..][i] == rows[i + 1];
      assert KeyOf(env, rows[i + 1]) !in c.blocks;
    }
  }

  /** A successful restore ends on the tip the tracker computes, with its state or without. */
  lemma {:induction false} RestoreTracks(env: Env, c: Chain, rows: seq<Row>, snap: Snapshot, seeded: bool, now: int, w: Bytes -> nat)
    requires Weighed(env, c, w) && c.tip in c.blocks && Keyed(env, rows) && Weighs(env, rows, w) && Unseen(env, c, rows)
    requires ReplayWithSnapshot(env, c, rows, snap, seeded, now).Restored?
    ensures var c' := ReplayWithSnapshot(env, c, rows, snap, seeded, now).chain;
      && Weighed(env, c', w) && c'.tip in c'.blocks && HeadOf(c') == Track(env, rows, snap, w, HeadOf(c))
      && (seeded || exists a :: 0 <= a < |rows| && rows[a].height > 0 && IsAnchorRow(env, rows[a], snap))
    decreases |rows|
  {
    hide Weighed, SnapshotStep, WeighsRow, IsAnchorRow, KeyOf, Keyed, Unseen, Weighs, NextHead;
    if rows != [] {
      RestRows(env, rows, w);
      if rows[0].height == 0 {
        StillUnseen(env, c, c, rows);
        SkippedHead(env, rows[0], snap, w, HeadOf(c));
        RestoreTracks(env, c, rows[1..], snap, seeded, now, w);
        LaterAnchor(env, rows, snap);
      } else {
        FirstUnseen(env, c, rows);
        StepHead(env, c, w, rows[0], snap, now);
        var c1 := SnapshotStep(env, c, rows[0], snap, now).chain;
        StillUnseen(env, c, c1, rows);
        RestoreTracks(env, c1, rows[1..], snap, seeded || IsAnchorRow(env, rows[0], snap), now, w);
        LaterAnchor(env, rows, snap);
      }
    }
  }

  lemma SkippedHead(env: Env, row: Row, snap: Snapshot, w: Bytes -> nat, h: Head)
    requires row.height == 0
    ensures NextHead(env, row, snap, w, h) == h
  {
  }

  lemma FirstUnseen(env: Env, c: Chain, rows: seq<Row>)
    requires rows != [] && Unseen(env, c, rows) && rows[0].height > 0
    ensures KeyOf(env, rows[0]) !in c.blocks
  {
  }

  lemma LaterAnchor(env: Env, rows: seq<Row>, snap: Snapshot)
    requires rows != []
    ensures (exists a :: 0 <= a < |rows[1..]| && rows[1..][a].height > 0 && IsAnchorRow(env, rows[1..][a], snap)) ==>
      exists a :: 0 <= a < |rows| && rows[a].height > 0 && IsAnchorRow(env, rows[a], snap)
  {
    hide IsAnchorRow;
    if a :| 0 <= a < |rows[1..]| && rows[1..][a].height > 0 && IsAnchorRow(env, rows[1..][a], snap) {
      assert rows[a + 1] == rows[1..][a];
    }
  }

  // ---- The tip, in closed form ----

  /** From the anchor row on, row `j` is the first of the heaviest. */
  ghost predicate FirstHeaviest(env: Env, rows: seq<Row>, w: Bytes -> nat, a: nat, j: nat) {
    && a <= j < |rows|
    && (forall i :: a <= i < j ==> Weight(env, rows[i], w) < Weight(env, rows[j], w))
    && (forall i :: j < i < |rows| ==> Weight(env, rows[i], w) <= Weight(env, rows[j], w))
  }

  ghost predicate NoAnchor(env: Env, rows: seq<Row>, snap: Snapshot) {
    forall i :: 0 <= i < |rows| && rows[i].height > 0 ==> !IsAnchorRow(env, rows[i], snap)
  }

  /** The head stayed, for want of a heavier row, or moved to the first of the heaviest. */
  ghost predicate Settles(env: Env, rows: seq<Row>, snap: Snapshot, w: Bytes -> nat, h: Head, r: Head, j: int) {
    if j < 0 then r == h && forall i :: 0 <= i < |rows| ==> Weight(env, rows[i], w) <= w(h.tip)
    else
      && FirstHeaviest(env, rows, w, 0, j) && rows[j].height > 0 && Weight(env, rows[j], w) > w(h.tip)
      && r == Head(KeyOf(env, rows[j]), Stateful(env, rows[j], snap))
  }

  /** Past the anchor, the head stays or moves to the first of the heaviest rows. */
  lemma {:induction false} TrackPastAnchor(env: Env, rows: seq<Row>, snap: Snapshot, w: Bytes -> nat, h: Head) returns (j: int)
    requires NoAnchor(env, rows, snap)
    ensures Settles(env, rows, snap, w, h, Track(env, rows, snap, w, h), j)
    decreases |rows|
  {
    if rows == [] {
      j := -1;
    } else {
      hide KeyOf, IsAnchorRow, Stateful, Settles, Weight, NextHead, NextHeadIs;
      var h1 := NextHead(env, rows[0], snap, w, h);
      j := TrackPastAnchor(env, rows[1..], snap, w, h1);
      NextHeadFacts(env, rows[0], snap, w, h);
      var r := Track(env, rows, snap, w, h);
      if j < 0 {
        j := SettleHere(env, rows, snap, w, h, h1, r, j);
      } else {
        SettleLater(env, rows, snap, w, h, h1, r, j);
        j := j + 1;
      }
    }
  }

  ghost predicate NextHeadIs(env: Env, row: Row, snap: Snapshot, w: Bytes -> nat, h: Head, h1: Head) {
    if row.height > 0 && Weight(env, row, w) > w(h.tip) then h1 == Head(KeyOf(env, row), Stateful(env, row, snap)) && w(h1.tip) == Weight(env, row, w)
    else h1 == h
  }

  lemma NextHeadFacts(env: Env, row: Row, snap: Snapshot, w: Bytes -> nat, h: Head)
    requires row.height > 0 ==> !IsAnchorRow(env, row, snap)
    ensures NextHeadIs(env, row, snap, w, h, NextHead(env, row, snap, w, h))
  {
    hide KeyOf, IsAnchorRow, Stateful;
  }

  lemma SettleHere(env: Env, rows: seq<Row>, snap: Snapshot, w: Bytes -> nat, h: Head, h1: Head, r: Head, j: int) returns (j': int)
    requires rows != [] && NextHeadIs(env, rows[0], snap, w, h, h1)
    requires j < 0 && Settles(env, rows[1..], snap, w, h1, r, j)
    ensures Settles(env, rows, snap, w, h, r, j')
  {
    hide KeyOf, Stateful, Weight;
    forall i | 1 <= i < |rows|
      ensures Weight(env, rows[i], w) <= w(h1.tip)
    {
      assert rows[1..][i - 1] == rows[i];
    }
    ZeroWeight(env, rows[0], w);
    j' := if rows[0].height > 0 && Weight(env, rows[0], w) > w(h.tip) then 0 else -1;
  }

  lemma ZeroWeight(env: Env, row: Row, w: Bytes -> nat)
    ensures row.height == 0 ==> Weight(env, row, w) == 0
  {
  }

  lemma SettleLater(env: Env, rows: seq<Row>, snap: Snapshot, w: Bytes -> nat, h: Head, h1: Head, r: Head, j: nat)
    requires rows != [] && NextHeadIs(env, rows[0], snap, w, h, h1)
    requires Settles(env, rows[1..], snap, w, h1, r, j)
    ensures Settles(env, rows, snap, w, h, r, j + 1)
  {
    hide KeyOf, Stateful, Weight;
    ZeroWeight(env, rows[0], w);
    assert rows[j + 1] == rows[1..][j];
    forall i | 0 <= i < j + 1
      ensures Weight(env, rows[i], w) < Weight(env, rows[j + 1], w)
    {
      assert i > 0 ==> rows[1..][i - 1] == rows[i];
    }
    forall i | j + 1 < i < |rows|
      ensures Weight(env, rows[i], w) <= Weight(env, rows[j + 1], w)
    {
      assert rows[1..][i - 1] == rows[i];
    }
  }

  lemma {:induction false} TrackAppend(env: Env, xs: seq<Row>, ys: seq<Row>, snap: Snapshot, w: Bytes -> nat, h: Head)
    ensures Track(env, xs + ys, snap, w, h) == Track(env, ys, snap, w, Track(env, xs, snap, w, h))
    decreases |xs|
  {
    hide NextHead;
    if xs == [] {
      assert xs + ys == ys;
    } else {
      assert (xs + ys)[1..] == xs[1..] + ys;
      TrackAppend(env, xs[1..], ys, snap, w, NextHead(env, xs[0], snap, w, h));
    }
  }

  lemma OneAnchor(env: Env, rows: seq<Row>, snap: Snapshot, a: nat)
    requires Keyed(env, rows) && a < |rows| && rows[a].height > 0 && IsAnchorRow(env, rows[a], snap)
    ensures NoAnchor(env, rows[a + 1..], snap)
  {
    hide BlockWire.DecodeBlock;
    var rest := rows[a + 1..];
    forall i | 0 <= i < |rest| && rest[i].height > 0
      ensures !IsAnchorRow(env, rest[i], snap)
    {
      assert rest[i] == rows[a + 1 + i];
      assert KeyOf(env, rows[a]) != KeyOf(env, rows[a + 1 + i]);
    }
  }

  lemma TrackToAnchor(env: Env, rows: seq<Row>, snap: Snapshot, w: Bytes -> nat, h: Head, a: nat)
    requires a < |rows| && rows[a].height > 0 && IsAnchorRow(env, rows[a], snap)
    ensures Track(env, rows, snap, w, h) == Track(env, rows[a + 1..], snap, w, Head(KeyOf(env, rows[a]), true))
  {
    hide KeyOf, IsAnchorRow;
    assert rows == rows[..a] + rows[a..];
    TrackAppend(env, rows[..a], rows[a..], snap, w, h);
    assert rows[a..][1..] == rows[a + 1..];
  }

  /** Over all rows: the head ends at the first of the heaviest rows from the anchor on. */
  lemma TrackEnds(env: Env, rows: seq<Row>, snap: Snapshot, w: Bytes -> nat, h: Head, a: nat) returns (j: nat)
    requires Keyed(env, rows) && a < |rows| && rows[a].height > 0 && IsAnchorRow(env, rows[a], snap)
    ensures FirstHeaviest(env, rows, w, a, j) && rows[j].height > 0
    ensures Track(env, rows, snap, w, h) == Head(KeyOf(env, rows[j]), Stateful(env, rows[j], snap))
  {
    hide KeyOf, IsAnchorRow, Keyed, Track, Stateful, Weight, NoAnchor, Settles, FirstHeaviest;
    OneAnchor(env, rows, snap, a);
    TrackToAnchor(env, rows, snap, w, h, a);
    var h1 := Head(KeyOf(env, rows[a]), true);
    var m := TrackPastAnchor(env, rows[a + 1..], snap, w, h1);
    j := SettleFrom(env, rows, snap, w, a, Track(env, rows, snap, w, h), m);
  }

  lemma SettleFrom(env: Env, rows: seq<Row>, snap: Snapshot, w: Bytes -> nat, a: nat, r: Head, m: int) returns (j: nat)
    requires a < |rows| && rows[a].height > 0 && IsAnchorRow(env, rows[a], snap)
    requires Settles(env, rows[a + 1..], snap, w, Head(KeyOf(env, rows[a]), true), r, m)
    ensures FirstHeaviest(env, rows, w, a, j) && rows[j].height > 0
    ensures r == Head(KeyOf(env, rows[j]), Stateful(env, rows[j], snap))
  {
    hide KeyOf, IsAnchorRow;
    var rest := rows[a + 1..];
    assert w(KeyOf(env, rows[a])) == Weight(env, rows[a], w) && Stateful(env, rows[a], snap);
    hide Weight, Stateful;
    j := if m < 0 then a else a + 1 + m;
    assert m >= 0 ==> rest[m] == rows[j];
    forall i | a <= i < j
      ensures Weight(env, rows[i], w) < Weight(env, rows[j], w)
    {
      assert i > a ==> rest[i - a - 1] == rows[i];
    }
    forall i | j < i < |rows|
      ensures Weight(env, rows[i], w) <= Weight(env, rows[j], w)
    {
      assert rest[i - a - 1] == rows[i];
    }
  }

  lemma NotFirstTwice(env: Env, rows: seq<Row>, w: Bytes -> nat, a: nat, i: nat, j: nat)
    requires a <= i < j && FirstHeaviest(env, rows, w, a, j)
    ensures !FirstHeaviest(env, rows, w, a, i)
  {
    hide Weight;
    assert Weight(env, rows[i], w) < Weight(env, rows[j], w);
  }

  lemma FirstIsUnique(env: Env, rows: seq<Row>, w: Bytes -> nat, a: nat, i: nat, j: nat)
    requires FirstHeaviest(env, rows, w, a, i) && FirstHeaviest(env, rows, w, a, j)
    ensures i == j
  {
    FirstInRange(env, rows, w, a, i);
    FirstInRange(env, rows, w, a, j);
    hide FirstHeaviest;
    if i < j {
      NotFirstTwice(env, rows, w, a, i, j);
    } else if j < i {
      NotFirstTwice(env, rows, w, a, j, i);
    }
  }

  /** A row after the anchor without a state, heavier than all from the anchor to it, and never outweighed again. */
  ghost predicate Overtakes(env: Env, rows: seq<Row>, snap: Snapshot, w: Bytes -> nat, a: nat, i: nat) {
    FirstHeaviest(env, rows, w, a, i) && !Stateful(env, rows[i], snap)
  }

  lemma InitWeighed(env: Env, rows: seq<Row>, w: Bytes -> nat)
    requires Weighs(env, rows, w) && Keyed(env, rows)
    ensures Weighed(env, Init(env), w) && Unseen(env, Init(env), rows) && Init(env).tip in Init(env).blocks
  {
    InitInv(env);
    hide KeyOf, WeighsRow, BlockWork, Linked, Indexed, BranchesValid, StatesReplayed, Heaviest, StatesAboveFloor;
  }

  /** The row the tip comes from, and whether that row brought a state. */
  lemma RestoredFrom(env: Env, rows: seq<Row>, snap: Snapshot, now: int, w: Bytes -> nat, a: nat) returns (j: nat)
    requires Keyed(env, rows) && Weighs(env, rows, w)
    requires a < |rows| && rows[a].height > 0 && IsAnchorRow(env, rows[a], snap)
    requires ReplayWithSnapshot(env, Init(env), rows, snap, false, now).Restored?
    ensures FirstHeaviest(env, rows, w, a, j) && rows[j].height > 0
    ensures var c := ReplayWithSnapshot(env, Init(env), rows, snap, false, now).chain;
      c.tip in c.blocks && HeadOf(c) == Head(KeyOf(env, rows[j]), Stateful(env, rows[j], snap)) && Weighed(env, c, w)
  {
    hide ReplayWithSnapshot, Keyed, Weighs, KeyOf, Weighed, Unseen, Track, Init, FirstHeaviest, IsAnchorRow, Stateful;
    InitWeighed(env, rows, w);
    RestoreTracks(env, Init(env), rows, snap, false, now, w);
    j := TrackEnds(env, rows, snap, w, HeadOf(Init(env)), a);
  }

  /**
   * Restoring any stored rows, forks included: the tip is the first of the heaviest rows from the anchor on,
   * and it has its state in memory if and only if no row without a state overtakes the anchor and everything
   * around it.
   */
  lemma ForkedRestoreTip(env: Env, rows: seq<Row>, snap: Snapshot, now: int, w: Bytes -> nat, a: nat, j: nat)
    requires Keyed(env, rows) && Weighs(env, rows, w)
    requires a < |rows| && rows[a].height > 0 && IsAnchorRow(env, rows[a], snap)
    requires ReplayWithSnapshot(env, Init(env), rows, snap, false, now).Restored?
    ensures var c := ReplayWithSnapshot(env, Init(env), rows, snap, false, now).chain;
      && c.tip in c.blocks
      && (FirstHeaviest(env, rows, w, a, j) ==> c.tip == KeyOf(env, rows[j]))
      && (c.blocks[c.tip].state.Some? <==> forall i :: a < i < |rows| ==> !Overtakes(env, rows, snap, w, a, i))
  {
    hide ReplayWithSnapshot, Keyed, Weighs, KeyOf, Weighed, Init, FirstHeaviest, IsAnchorRow, Stateful, Overtakes;
    var m := RestoredFrom(env, rows, snap, now, w, a);
    if FirstHeaviest(env, rows, w, a, j) {
      FirstIsUnique(env, rows, w, a, j, m);
    }
    OvertakenIff(env, rows, snap, w, a, m);
  }

  lemma OvertakenIff(env: Env, rows: seq<Row>, snap: Snapshot, w: Bytes -> nat, a: nat, j: nat)
    requires FirstHeaviest(env, rows, w, a, j) && IsAnchorRow(env, rows[a], snap)
    ensures Stateful(env, rows[j], snap) <==> forall i :: a < i < |rows| ==> !Overtakes(env, rows, snap, w, a, i)
  {
    assert Stateful(env, rows[a], snap);
    FirstInRange(env, rows, w, a, j);
    hide FirstHeaviest, IsAnchorRow, Stateful;
    forall i | a < i < |rows| && Overtakes(env, rows, snap, w, a, i)
      ensures i == j
    {
      FirstIsUnique(env, rows, w, a, i, j);
    }
    assert j != a ==> Overtakes(env, rows, snap, w, a, j) == !Stateful(env, rows[j], snap);
  }

  lemma FirstInRange(env: Env, rows: seq<Row>, w: Bytes -> nat, a: nat, j: nat)
    requires FirstHeaviest(env, rows, w, a, j)
    ensures a <= j < |rows|
  {
  }

  /** A successful restore has seen its anchor. */
  lemma RestoreHasAnchor(env: Env, rows: seq<Row>, snap: Snapshot, now: int, w: Bytes -> nat)
    requires Keyed(env, rows) && Weighs(env, rows, w) && ReplayWithSnapshot(env, Init(env), rows, snap, false, now).Restored?
    ensures exists a :: 0 <= a < |rows| && rows[a].height > 0 && IsAnchorRow(env, rows[a], snap)
  {
    hide ReplayWithSnapshot, Keyed, Weighs, KeyOf, Weighed, Unseen, Track, IsAnchorRow;
    InitWeighed(env, rows, w);
    hide Init;
    RestoreTracks(env, Init(env), rows, snap, false, now, w);
  }

  // ---- A full replay keeps its tip state ----

  lemma {:induction false} FullReplayInv(env: Env, c: Chain, rows: seq<Row>, now: int)
    requires Inv(env, c) && c.tip in c.blocks
    ensures Inv(env, FullReplay(env, c, rows, now))
    decreases |rows|
  {
    hide Inv, BlockWire.DecodeBlock, AddBlock;
    if rows != [] {
      var block := BlockWire.DecodeBlock(rows[0].encoded);
      if rows[0].height == 0 || block.None? {
        FullReplayInv(env, c, rows[1..], now);
      } else {
        AddKeepsTip(env, c, block.value, STORED, now);
        AddInv(env, c, block.value, now);
        FullReplayInv(env, AddBlock(env, c, block.value, STORED, now), rows[1..], now);
      }
    }
  }

  lemma AddInv(env: Env, c: Chain, block: Block, now: int)
    requires Inv(env, c) && c.tip in c.blocks
    ensures Inv(env, AddBlock(env, c, block, STORED, now))
  {
    hide Inv, CheckBlock, Accept;
    if CheckBlock(env, c, block, STORED, now).Good? {
      AcceptInv(env, c, block, STORED, now);
    }
  }

  /** Whatever the rows, a full replay ends on a tip whose state is in memory. */
  lemma FullReplayIsLive(env: Env, rows: seq<Row>, now: int)
    ensures var c := FullReplay(env, Init(env), rows, now);
      c.tip in c.blocks && c.blocks[c.tip].state.Some?
  {
    InitInv(env);
    hide Init;
    FullReplayInv(env, Init(env), rows, now);
    hide FullReplay, Kept, Heaviest;
  }
}
