/** An explorer index that follows a chain: exact for its indexed tip, or stale, after any run. */
module ExplorerRuns {
  import opened Genesis
  import opened Transactions
  import opened Ledger
  import opened Consensus
  import opened BlockTree
  import opened TreeLaws
  import opened TreeRuns
  import opened SeedLaws
  import opened Explorer
  import opened ExplorerLaws
  import B = Blockchain

  function Views(line: seq<ChainBlock>): (v: seq<Shown>)
    ensures |v| == |line| && forall i :: 0 <= i < |line| ==> v[i] == View(line[i])
  {
    seq(|line|, i requires 0 <= i < |line| => View(line[i]))
  }

  /** A block and its ancestors as the explorer sees them, newest first. */
  ghost function Line(env: Env, c: Chain, k: Bytes): (line: seq<Shown>)
    requires Linked(env, c) && k in c.blocks
    ensures |line| == HeightOf(c, k) + 1 && line[0] == View(c.blocks[k])
    decreases HeightOf(c, k)
  {
    assert EntryOk(env, c, k);
    if HeightOf(c, k) == 0 then [View(c.blocks[k])]
    else [View(c.blocks[k])] + Line(env, c, ParentOf(c, k))
  }

  lemma LineStep(env: Env, c: Chain, k: Bytes)
    requires Linked(env, c) && k in c.blocks && HeightOf(c, k) > 0
    ensures ParentOf(c, k) in c.blocks && HeightOf(c, k) == HeightOf(c, ParentOf(c, k)) + 1
    ensures c.blocks[k].hash == k
    ensures Line(env, c, k)[1..] == Line(env, c, ParentOf(c, k))
  {
    assert EntryOk(env, c, k);
  }

  lemma {:induction false} LineIsAncestry(env: Env, c: Chain, k: Bytes)
    requires Linked(env, c) && k in c.blocks
    ensures Line(env, c, k) == Views(B.Ancestry(env, c, k))
    decreases HeightOf(c, k)
  {
    if HeightOf(c, k) > 0 {
      LineStep(env, c, k);
      var p, line := ParentOf(c, k), Line(env, c, k);
      assert B.Ancestry(env, c, k) == [c.blocks[k]] + B.Ancestry(env, c, p);
      LineIsAncestry(env, c, p);
      hide Linked, Line, B.Ancestry;
      assert line == [line[0]] + line[1..];
    }
  }

  /** Every block of a line is a tree entry, at its height. */
  lemma {:induction false} LineEntry(env: Env, c: Chain, k: Bytes, i: nat)
    requires Linked(env, c) && k in c.blocks && i <= HeightOf(c, k)
    ensures var b := Line(env, c, k)[i];
      && b.hash in c.blocks && b == View(c.blocks[b.hash]) && b.block.header.height == HeightOf(c, k) - i
      && Line(env, c, k)[i..] == Line(env, c, b.hash)
    decreases i
  {
    if i == 0 {
      assert EntryOk(env, c, k);
    } else {
      LineStep(env, c, k);
      hide Linked;
      LineEntry(env, c, ParentOf(c, k), i - 1);
      assert Line(env, c, k)[i..] == Line(env, c, k)[1..][i - 1..];
    }
  }

  /** No transaction sits in two blocks of any branch of the tree. */
  ghost predicate NoRepeats(env: Env, c: Chain, txHash: Transaction -> Bytes)
    requires Linked(env, c)
  {
    forall k :: k in c.blocks ==> TxsApart(Line(env, c, k), txHash)
  }

  lemma LineOk(env: Env, c: Chain, k: Bytes, txHash: Transaction -> Bytes)
    requires Linked(env, c) && k in c.blocks && NoRepeats(env, c, txHash)
    ensures BranchOk(Line(env, c, k), txHash)
  {
    var line := Line(env, c, k);
    hide Linked, Line, TxsApart;
    forall i | 0 <= i < |line|
      ensures line[i].block.header.height == |line| - 1 - i
      ensures line[i].hash in c.blocks && line[i] == View(c.blocks[line[i].hash])
    {
      LineEntry(env, c, k, i);
    }
    forall i, j | 0 <= i < j < |line|
      ensures line[i].hash != line[j].hash
    {
      assert line[i].block.header.height != line[j].block.header.height;
    }
    assert TxsApart(line, txHash);
  }

  /** Stale, or the index rebuilt from genesis for the indexed tip. */
  ghost predicate Exact(env: Env, c: Chain, x: Explorer, txHash: Transaction -> Bytes) {
    x.stale || (Linked(env, c) && x.tip in c.blocks && x.index == Build(Line(env, c, x.tip), txHash))
  }

  // ---- Any tip move, continuous or not ----

  /** A run of tree entries above genesis, newest first, each the parent of the one before. */
  ghost predicate Strand(c: Chain, bs: seq<Shown>) {
    && (forall i :: 0 <= i < |bs| ==>
          bs[i].hash in c.blocks && bs[i] == View(c.blocks[bs[i].hash]) && bs[i].block.header.height > 0)
    && (forall i :: 0 <= i < |bs| - 1 ==> bs[i].block.header.prevHash == bs[i + 1].hash)
  }

  /** A strand is the start of its newest block's line. */
  lemma {:induction false} StrandIsPrefix(env: Env, c: Chain, bs: seq<Shown>)
    requires Linked(env, c) && bs != [] && Strand(c, bs)
    ensures var k := bs[0].hash;
      var p := bs[|bs| - 1].block.header.prevHash;
      && k in c.blocks && p in c.blocks && |bs| <= HeightOf(c, k)
      && Line(env, c, k) == bs + Line(env, c, p)
    decreases |bs|
  {
    var k := bs[0].hash;
    assert k in c.blocks && bs[0] == View(c.blocks[k]);
    LineStep(env, c, k);
    hide Linked;
    if |bs| == 1 {
      assert Line(env, c, k) == [Line(env, c, k)[0]] + Line(env, c, k)[1..];
    } else {
      StrandIsPrefix(env, c, bs[1..]);
      assert bs == [bs[0]] + bs[1..];
      assert Line(env, c, k) == [Line(env, c, k)[0]] + Line(env, c, k)[1..];
    }
  }

  /** Whatever the tip move, continuous or not, the index stays exact for its tip or turns stale. */
  lemma FollowKeepsExact(env: Env, c: Chain, x: Explorer, connected: seq<Shown>, disconnected: seq<Shown>, txHash: Transaction -> Bytes)
    requires Linked(env, c) && NoRepeats(env, c, txHash) && Exact(env, c, x, txHash)
    requires Strand(c, connected) && Strand(c, disconnected)
    ensures Exact(env, c, Follow(x, connected, disconnected, txHash), txHash)
    ensures !x.stale && connected != [] && !Continuous(x.tip, connected, disconnected) ==>
      Follow(x, connected, disconnected, txHash).stale
  {
    if !x.stale && connected != [] && Continuous(x.tip, connected, disconnected) {
      LineOk(env, c, x.tip, txHash);
      StrandIsPrefix(env, c, connected);
      var line := Line(env, c, x.tip);
      var fork := connected[|connected| - 1].block.header.prevHash;
      var n := |disconnected|;
      if n > 0 {
        StrandIsPrefix(env, c, disconnected);
      }
      assert line[..n] == disconnected && line[n..] == Line(env, c, fork);
      hide Linked, Line, NoRepeats, Strand, BranchOk, IndexMany, UnindexMany;
      UnwindExact(line, txHash, n);
      WindExact(Line(env, c, fork), connected, txHash);
    }
  }

  // ---- The moves the chain itself reports ----

  lemma ViewsSplit(line: seq<ChainBlock>, n: nat)
    requires n <= |line|
    ensures |Views(line)| == |line| && Views(line[n..]) == Views(line)[n..]
    ensures Views(line[..n]) + Views(line)[n..] == Views(line)
  {
  }

  /** The lists a reorg report carries are strands meeting at the fork. */
  lemma SplitIsContinuous(env: Env, c: Chain, a: Bytes, b: Bytes, d: B.ReorgDelta)
    requires Linked(env, c) && a in c.blocks && b in c.blocks
    requires B.Splits(B.Ancestry(env, c, a), B.Ancestry(env, c, b), d)
    ensures |d.disconnected| <= HeightOf(c, a) && |d.connected| <= HeightOf(c, b)
    ensures Views(d.disconnected) + Line(env, c, a)[|d.disconnected|..] == Line(env, c, a)
    ensures Views(d.connected) + Line(env, c, a)[|d.disconnected|..] == Line(env, c, b)
  {
    LineIsAncestry(env, c, a);
    LineIsAncestry(env, c, b);
    hide Linked, B.Ancestry, Line, B.TxsOf, Views;
    ViewsSplit(B.Ancestry(env, c, a), |d.disconnected|);
    ViewsSplit(B.Ancestry(env, c, b), |d.connected|);
  }

  lemma PrevInLine(env: Env, c: Chain, k: Bytes, i: nat)
    requires Linked(env, c) && k in c.blocks && i < HeightOf(c, k)
    ensures Line(env, c, k)[i].block.header.prevHash == Line(env, c, k)[i + 1].hash
  {
    LineEntry(env, c, k, i);
    LineEntry(env, c, k, i + 1);
    var j := Line(env, c, k)[i].hash;
    LineStep(env, c, j);
    assert Line(env, c, k)[i..][1] == Line(env, c, k)[i + 1];
    hide Line;
    var p := ParentOf(c, j);
    assert EntryOk(env, c, p);
  }

  lemma MeetingStrands(vd: seq<Shown>, vc: seq<Shown>, la: seq<Shown>, lb: seq<Shown>, tip: Bytes)
    requires vc != [] && |vd| < |la| && |vc| < |lb|
    requires vd == la[..|vd|] && vc == lb[..|vc|] && la[|vd|] == lb[|vc|] && la[0].hash == tip
    requires lb[|vc| - 1].block.header.prevHash == lb[|vc|].hash
    requires vd != [] ==> la[|vd| - 1].block.header.prevHash == la[|vd|].hash
    ensures Continuous(tip, vc, vd)
  {
  }

  lemma SplitLines(vd: seq<Shown>, vc: seq<Shown>, rest: seq<Shown>, la: seq<Shown>, lb: seq<Shown>)
    requires rest != [] && la == vd + rest && lb == vc + rest
    ensures vd == la[..|vd|] && vc == lb[..|vc|] && la[|vd|] == lb[|vc|]
  {
  }

  lemma ReportedIsContinuous(env: Env, c: Chain, a: Bytes, b: Bytes, d: B.ReorgDelta)
    requires Linked(env, c) && a in c.blocks && b in c.blocks && d.connected != []
    requires B.Splits(B.Ancestry(env, c, a), B.Ancestry(env, c, b), d)
    ensures Continuous(a, Views(d.connected), Views(d.disconnected))
  {
    SplitIsContinuous(env, c, a, b, d);
    hide B.Splits, B.Ancestry, Continuous;
    var la, lb, n, m := Line(env, c, a), Line(env, c, b), |d.disconnected|, |d.connected|;
    HashAtHead(env, c, a);
    PrevInLine(env, c, b, m - 1);
    if n > 0 {
      PrevInLine(env, c, a, n - 1);
    }
    hide Linked, Line;
    SplitLines(Views(d.disconnected), Views(d.connected), la[n..], la, lb);
    MeetingStrands(Views(d.disconnected), Views(d.connected), la, lb, a);
  }

  lemma HashAtHead(env: Env, c: Chain, k: Bytes)
    requires Linked(env, c) && k in c.blocks
    ensures Line(env, c, k)[0].hash == k
  {
    assert EntryOk(env, c, k);
  }

  /** A reported move from the indexed tip is followed without turning stale, up to the new tip. */
  lemma ReportedMoveFollowed(env: Env, c: Chain, x: Explorer, b: Bytes, d: B.ReorgDelta, txHash: Transaction -> Bytes)
    requires Linked(env, c) && NoRepeats(env, c, txHash) && Exact(env, c, x, txHash)
    requires !x.stale && b in c.blocks && d.connected != []
    requires B.Splits(B.Ancestry(env, c, x.tip), B.Ancestry(env, c, b), d)
    ensures Follow(x, Views(d.connected), Views(d.disconnected), txHash)
         == Explorer(Build(Line(env, c, b), txHash), b, false)
  {
    var la, n := Line(env, c, x.tip), |d.disconnected|;
    LineOk(env, c, x.tip, txHash);
    SplitIsContinuous(env, c, x.tip, b, d);
    ReportedIsContinuous(env, c, x.tip, b, d);
    HashAtHead(env, c, b);
    hide Linked, Line, NoRepeats, BranchOk, IndexMany, UnindexMany, B.Splits, B.Ancestry, Continuous, Build;
    assert la[..n] == Views(d.disconnected);
    UnwindExact(la, txHash, n);
    WindExact(la[n..], Views(d.connected), txHash);
    assert Views(d.connected)[0] == Line(env, c, b)[0];
  }

  // ---- Operations leave what is indexed in place ----

  /** Every entry is still there and looks the same to the explorer. */
  ghost predicate Grows(c: Chain, c': Chain) {
    forall k :: k in c.blocks ==> k in c'.blocks && View(c'.blocks[k]) == View(c.blocks[k])
  }

  lemma {:induction false} LineStable(env: Env, c: Chain, c': Chain, k: Bytes)
    requires Linked(env, c) && Linked(env, c') && Grows(c, c') && k in c.blocks
    ensures k in c'.blocks && Line(env, c', k) == Line(env, c, k)
    decreases HeightOf(c, k)
  {
    assert View(c'.blocks[k]) == View(c.blocks[k]);
    if HeightOf(c, k) > 0 {
      LineStep(env, c, k);
      hide Linked;
      LineStable(env, c, c', ParentOf(c, k));
    }
  }

  lemma ExactStable(env: Env, c: Chain, c': Chain, x: Explorer, txHash: Transaction -> Bytes)
    requires Linked(env, c) && Linked(env, c') && Grows(c, c') && Exact(env, c, x, txHash)
    ensures Exact(env, c', x, txHash)
  {
    hide Linked, Line, Build;
    if !x.stale {
      LineStable(env, c, c', x.tip);
    }
  }

  lemma StoreGrows(c: Chain, e: ChainBlock)
    requires e.hash !in c.blocks
    ensures Grows(c, Store(c, e))
  {
  }

  lemma AcceptGrows(env: Env, c: Chain, block: Block, state: State)
    requires c.tip in c.blocks && block.header.prevHash in c.blocks && env.hash(block.header) !in c.blocks
    ensures Grows(c, Accept(env, c, block, state))
  {
    EntryFields(env, c, block, state);
    var e := Entry(env, c, block, Some(state), true);
    hide Entry;
    StoreGrows(c, e);
    var c1, floor := Store(c, e).(tip := e.hash), e.block.header.height - env.depth;
    PruneKeepsBodies(c1, floor);
    hide PruneTo, Store;
    assert Grows(c, Store(c, e)) && c1.blocks == Store(c, e).blocks;
    forall k | k in c.blocks
      ensures k in PruneTo(c1, floor).blocks && View(PruneTo(c1, floor).blocks[k]) == View(c.blocks[k])
    {
      assert SameButState(c1.blocks[k], PruneTo(c1, floor).blocks[k]);
    }
  }

  lemma GoodIsNew(env: Env, c: Chain, block: Block, opts: Options, now: int)
    requires CheckBlock(env, c, block, opts, now).Good?
    ensures block.header.prevHash in c.blocks && env.hash(block.header) !in c.blocks
  {
  }

  lemma OpGrows(env: Env, c: Chain, op: Op)
    requires c.tip in c.blocks && !op.Attach?
    ensures Grows(c, Apply(env, c, op))
  {
    hide CheckBlock, Accept, SeedError, Entry;
    if op.Add? {
      var r := CheckBlock(env, c, op.block, op.opts, op.now);
      if r.Good? {
        GoodIsNew(env, c, op.block, op.opts, op.now);
        AcceptGrows(env, c, op.block, r.state);
      }
    } else {
      SeedGrows(env, c, op);
    }
  }

  lemma SeedGrows(env: Env, c: Chain, op: Op)
    requires c.tip in c.blocks && (op.SeedBlock? || op.SeedHeaderOnly?)
    ensures Grows(c, Apply(env, c, op))
  {
    hide BlockWork, InheritAnchor;
  }

  // ---- Runs ----

  /** One chain operation, the tip move it reports if any, and whether a reader refreshes the index after it. */
  datatype Event = Event(op: Op, delta: Option<B.ReorgDelta>, refresh: bool)

  function OpsOf(events: seq<Event>): (ops: seq<Op>)
    ensures |ops| == |events|
  {
    seq(|events|, i requires 0 <= i < |events| => events[i].op)
  }

  lemma OpsSnoc(events: seq<Event>)
    requires events != []
    ensures OpsOf(events)[..|events| - 1] == OpsOf(events[..|events| - 1])
    ensures OpsOf(events)[|events| - 1] == events[|events| - 1].op
  {
  }

  lemma FrontFits(env: Env, ops: seq<Op>)
    requires BodiesFit(env, ops) && ops != []
    ensures BodiesFit(env, ops[..|ops| - 1])
  {
    var front := ops[..|ops| - 1];
    hide BodyFits, RunOps;
    forall n | 0 <= n < |front| && front[n].Attach?
      ensures BodyFits(env, RunOps(env, front[..n]), front[n].block)
    {
      assert front[..n] == ops[..n];
    }
  }

  const START := Explorer(EMPTY_INDEX, [], true)

  /** Before a read: rebuild if marked stale or if the tips differ. */
  ghost function Refreshed(env: Env, c: Chain, x: Explorer, txHash: Transaction -> Bytes): Explorer
    requires Linked(env, c)
  {
    if !x.stale && c.tip == x.tip then x else Explorer(Build(Line(env, c, c.tip), txHash), c.tip, false)
  }

  /** What the index hears of one operation: the reported move, and a stale mark after a body was attached. */
  function Heard(x: Explorer, e: Event, txHash: Transaction -> Bytes): Explorer {
    if e.op.Attach? then x.(stale := true)
    else if e.delta.Some? then Follow(x, Views(e.delta.value.connected), Views(e.delta.value.disconnected), txHash)
    else x
  }

  ghost function Watch(env: Env, events: seq<Event>, txHash: Transaction -> Bytes): Explorer
    requires BodiesFit(env, OpsOf(events))
    decreases |events|
  {
    if events == [] then START
    else
      var e, front := events[|events| - 1], events[..|events| - 1];
      OpsSnoc(events);
      FrontFits(env, OpsOf(events));
      RunOpsLinked(env, OpsOf(events));
      var x := Heard(Watch(env, front, txHash), e, txHash);
      if e.refresh then Refreshed(env, RunOps(env, OpsOf(events)), x, txHash) else x
  }

  /** The chain reports a move exactly when `addBlock` moves its tip, and reports it as its walk finds it. */
  ghost predicate Reported(env: Env, c: Chain, c': Chain, e: Event) {
    if !e.op.Add? then e.delta.None?
    else
      && (e.delta.Some? <==> c'.tip != c.tip)
      && (e.delta.Some? ==>
            && Linked(env, c') && c.tip in c'.blocks
            && B.Splits(B.Ancestry(env, c', c.tip), B.Ancestry(env, c', c'.tip), e.delta.value))
  }

  ghost predicate StepFaithful(env: Env, events: seq<Event>, txHash: Transaction -> Bytes, n: nat)
    requires n < |events|
  {
    var c' := RunOps(env, OpsOf(events[..n + 1]));
    && Reported(env, RunOps(env, OpsOf(events[..n])), c', events[n])
    && Linked(env, c') && NoRepeats(env, c', txHash)
  }

  /** Every move is reported as it happened, bodies fit their headers, and no branch repeats a transaction. */
  ghost predicate Faithful(env: Env, events: seq<Event>, txHash: Transaction -> Bytes) {
    BodiesFit(env, OpsOf(events)) && forall n :: 0 <= n < |events| ==> StepFaithful(env, events, txHash, n)
  }

  lemma FaithfulFront(env: Env, events: seq<Event>, txHash: Transaction -> Bytes)
    requires Faithful(env, events, txHash) && events != []
    ensures Faithful(env, events[..|events| - 1], txHash)
    ensures var front, c' := events[..|events| - 1], RunOps(env, OpsOf(events));
      && Reported(env, RunOps(env, OpsOf(front)), c', events[|events| - 1])
      && Linked(env, c') && NoRepeats(env, c', txHash)
  {
    hide BodiesFit, Reported, RunOps, NoRepeats, Linked, OpsOf;
    var front := events[..|events| - 1];
    OpsSnoc(events);
    FrontFits(env, OpsOf(events));
    assert events[..|events| - 1 + 1] == events;
    assert StepFaithful(env, events, txHash, |events| - 1);
    forall n | 0 <= n < |front|
      ensures StepFaithful(env, front, txHash, n)
    {
      assert StepFaithful(env, events, txHash, n);
      assert front[..n] == events[..n] && front[..n + 1] == events[..n + 1] && front[n] == events[n];
    }
  }

  lemma PrefixIsStrand(env: Env, c: Chain, k: Bytes, n: nat)
    requires Linked(env, c) && k in c.blocks && n <= HeightOf(c, k)
    ensures Strand(c, Line(env, c, k)[..n])
  {
    var bs := Line(env, c, k)[..n];
    hide Linked, Line;
    forall i | 0 <= i < |bs|
      ensures bs[i].hash in c.blocks && bs[i] == View(c.blocks[bs[i].hash]) && bs[i].block.header.height > 0
    {
      LineEntry(env, c, k, i);
    }
    forall i | 0 <= i < |bs| - 1
      ensures bs[i].block.header.prevHash == bs[i + 1].hash
    {
      PrevInLine(env, c, k, i);
    }
  }

  lemma SplitStrands(env: Env, c: Chain, a: Bytes, b: Bytes, d: B.ReorgDelta)
    requires Linked(env, c) && a in c.blocks && b in c.blocks
    requires B.Splits(B.Ancestry(env, c, a), B.Ancestry(env, c, b), d)
    ensures Strand(c, Views(d.connected)) && Strand(c, Views(d.disconnected))
  {
    SplitIsContinuous(env, c, a, b, d);
    hide B.Splits, B.Ancestry, Linked, Line, Strand;
    var la, lb, n := Line(env, c, a), Line(env, c, b), |d.disconnected|;
    SplitLines(Views(d.disconnected), Views(d.connected), la[n..], la, lb);
    PrefixIsStrand(env, c, a, n);
    PrefixIsStrand(env, c, b, |d.connected|);
  }

  lemma HeardKeepsExact(env: Env, c: Chain, x: Explorer, e: Event, txHash: Transaction -> Bytes)
    requires Linked(env, c) && Linked(env, Apply(env, c, e.op)) && Exact(env, c, x, txHash)
    requires Reported(env, c, Apply(env, c, e.op), e) && NoRepeats(env, Apply(env, c, e.op), txHash)
    ensures Exact(env, Apply(env, c, e.op), Heard(x, e, txHash), txHash)
  {
    var c' := Apply(env, c, e.op);
    TipStored(env, c);
    TipStored(env, c');
    hide Linked, NoRepeats, Apply, B.Splits, B.Ancestry, Line, Follow, Build;
    if !e.op.Attach? {
      OpGrows(env, c, e.op);
      ExactStable(env, c, c', x, txHash);
      if e.delta.Some? {
        SplitStrands(env, c', c.tip, c'.tip, e.delta.value);
        hide Exact;
        FollowKeepsExact(env, c', x, Views(e.delta.value.connected), Views(e.delta.value.disconnected), txHash);
      }
    }
  }

  lemma RefreshedExact(env: Env, c: Chain, x: Explorer, txHash: Transaction -> Bytes)
    requires Linked(env, c) && Exact(env, c, x, txHash)
    ensures Refreshed(env, c, x, txHash) == Explorer(Build(Line(env, c, c.tip), txHash), c.tip, false)
    ensures Exact(env, c, Refreshed(env, c, x, txHash), txHash)
  {
    TipStored(env, c);
    hide Linked, Build, Line;
  }

  /**
   * In any run mixing validated blocks with arbitrary reorgs, seeds and attached bodies, the index is at
   * every moment stale or equal to the rebuild for its indexed tip; so what a read gets is the rebuild
   * for the chain's own tip.
   */
  lemma {:induction false} IndexNeverDrifts(env: Env, events: seq<Event>, txHash: Transaction -> Bytes)
    requires Faithful(env, events, txHash)
    ensures BodiesFit(env, OpsOf(events)) && Linked(env, RunOps(env, OpsOf(events)))
    ensures var c, x := RunOps(env, OpsOf(events)), Watch(env, events, txHash);
      && Exact(env, c, x, txHash)
      && Refreshed(env, c, x, txHash) == Explorer(Build(Line(env, c, c.tip), txHash), c.tip, false)
    decreases |events|
  {
    RunOpsLinked(env, OpsOf(events));
    var c, x := RunOps(env, OpsOf(events)), Watch(env, events, txHash);
    if events != [] {
      var front, e := events[..|events| - 1], events[|events| - 1];
      FaithfulFront(env, events, txHash);
      hide Faithful, Exact, Reported, NoRepeats, Linked, Refreshed, Heard, Apply;
      IndexNeverDrifts(env, front, txHash);
      OpsSnoc(events);
      HeardKeepsExact(env, RunOps(env, OpsOf(front)), Watch(env, front, txHash), e, txHash);
      var x1 := Heard(Watch(env, front, txHash), e, txHash);
      RefreshedExact(env, c, x1, txHash);
    }
    hide *;
    RefreshedExact(env, c, x, txHash);
  }

  // ---- A listener that hears every move never needs a rebuild ----

  lemma AcceptTip(env: Env, c: Chain, block: Block, state: State)
    requires c.tip in c.blocks && block.header.prevHash in c.blocks
    ensures Accept(env, c, block, state).tip in {c.tip, env.hash(block.header)}
  {
    EntryFields(env, c, block, state);
    var e := Entry(env, c, block, Some(state), true);
    hide Entry;
    PruneKeepsKeys(Store(c, e).(tip := e.hash), e.block.header.height - env.depth);
  }

  /** Validation moves the tip only to the new block. */
  lemma TipMovesToNew(env: Env, c: Chain, op: Op)
    requires c.tip in c.blocks && op.Add? && Apply(env, c, op).tip != c.tip
    ensures Apply(env, c, op).tip !in c.blocks
  {
    hide CheckBlock, Accept;
    var r := CheckBlock(env, c, op.block, op.opts, op.now);
    if r.Good? {
      GoodIsNew(env, c, op.block, op.opts, op.now);
      AcceptTip(env, c, op.block, r.state);
    }
  }

  /** With nothing connected the new tip is an ancestor of the old one. */
  lemma NothingConnected(env: Env, c: Chain, a: Bytes, b: Bytes, d: B.ReorgDelta)
    requires Linked(env, c) && a in c.blocks && b in c.blocks && d.connected == []
    requires B.Splits(B.Ancestry(env, c, a), B.Ancestry(env, c, b), d)
    ensures exists i :: 0 <= i <= HeightOf(c, a) && Line(env, c, a)[i].hash == b
  {
    SplitIsContinuous(env, c, a, b, d);
    HashAtHead(env, c, b);
    hide B.Splits, B.Ancestry, Linked, Line;
    var n := |d.disconnected|;
    assert Line(env, c, a)[n..][0] == Line(env, c, a)[n];
  }

  lemma MoveConnects(env: Env, c: Chain, op: Op, d: B.ReorgDelta)
    requires Linked(env, c) && op.Add?
    requires var c' := Apply(env, c, op);
      Linked(env, c') && c.tip in c'.blocks && c'.tip != c.tip
      && B.Splits(B.Ancestry(env, c', c.tip), B.Ancestry(env, c', c'.tip), d)
    ensures d.connected != []
  {
    var c' := Apply(env, c, op);
    TipStored(env, c);
    TipStored(env, c');
    hide Linked, Apply, Line, B.Splits, B.Ancestry;
    TipMovesToNew(env, c, op);
    OpGrows(env, c, op);
    LineStable(env, c, c', c.tip);
    if d.connected == [] {
      NothingConnected(env, c', c.tip, c'.tip, d);
      var i :| 0 <= i <= HeightOf(c', c.tip) && Line(env, c', c.tip)[i].hash == c'.tip;
      LineEntry(env, c, c.tip, i);
    }
  }

  /** The index is the rebuild for the chain's own tip. */
  ghost predicate InStep(env: Env, c: Chain, x: Explorer, txHash: Transaction -> Bytes)
    requires Linked(env, c)
  {
    x == Explorer(Build(Line(env, c, c.tip), txHash), c.tip, false)
  }

  lemma HeardInStep(env: Env, c: Chain, x: Explorer, e: Event, txHash: Transaction -> Bytes)
    requires Linked(env, c) && InStep(env, c, x, txHash) && e.op.Add?
    requires Linked(env, Apply(env, c, e.op)) && Reported(env, c, Apply(env, c, e.op), e)
    requires NoRepeats(env, Apply(env, c, e.op), txHash)
    ensures InStep(env, Apply(env, c, e.op), Heard(x, e, txHash), txHash)
  {
    var c' := Apply(env, c, e.op);
    TipStored(env, c);
    TipStored(env, c');
    hide Linked, NoRepeats, Apply, B.Splits, B.Ancestry, Line, Follow, Build;
    OpGrows(env, c, e.op);
    LineStable(env, c, c', c.tip);
    if e.delta.Some? {
      MoveConnects(env, c, e.op, e.delta.value);
      ReportedMoveFollowed(env, c', x, c'.tip, e.delta.value, txHash);
    }
  }

  /**
   * Read once, then follow any run of validated blocks with arbitrary reorgs: the index is always the
   * rebuild for the chain's tip, so no later read has to rebuild.
   */
  lemma {:induction false} NeverRebuiltAgain(env: Env, events: seq<Event>, txHash: Transaction -> Bytes)
    requires Faithful(env, events, txHash) && events != [] && events[0].refresh
    requires forall n :: 0 <= n < |events| ==> events[n].op.Add?
    ensures BodiesFit(env, OpsOf(events)) && Linked(env, RunOps(env, OpsOf(events)))
    ensures InStep(env, RunOps(env, OpsOf(events)), Watch(env, events, txHash), txHash)
    decreases |events|
  {
    IndexNeverDrifts(env, events, txHash);
    var front, e := events[..|events| - 1], events[|events| - 1];
    var c' := RunOps(env, OpsOf(events));
    OpsSnoc(events);
    FaithfulFront(env, events, txHash);
    hide Faithful, Exact, Reported, NoRepeats, Linked, Heard, Apply, BodiesFit, Build;
    IndexNeverDrifts(env, front, txHash);
    var c, x := RunOps(env, OpsOf(front)), Watch(env, front, txHash);
    HeardKeepsExact(env, c, x, e, txHash);
    if e.refresh {
      RefreshedExact(env, c', Heard(x, e, txHash), txHash);
    } else {
      NeverRebuiltAgain(env, front, txHash);
      HeardInStep(env, c, x, e, txHash);
    }
  }
}
