/** What seeding and body attachment keep, in any mixture with validated blocks. */
module SeedLaws {
  import opened Genesis
  import opened Transactions
  import opened Ledger
  import opened Consensus
  import opened BlockTree
  import opened TreeLaws
  import opened TreeRuns

  lemma SeedInsertable(env: Env, c: Chain, block: Block, state: Option<State>, hasBody: bool)
    requires env.hash(block.header) !in c.blocks && SeedError(env, c, block.header).None?
    ensures block.header.prevHash in c.blocks && Insertable(env, c, Entry(env, c, block, state, hasBody))
  {
    hide BlockWork, InheritAnchor;
  }

  lemma RetipLinked(env: Env, c: Chain, c': Chain)
    requires Linked(env, c) && c'.blocks == c.blocks && c'.tip in c.blocks
    ensures Linked(env, c')
  {
    SameLinks(env, c, c');
  }

  lemma SeedHistoricalLinked(env: Env, c: Chain, block: Block, state: Option<State>)
    requires Linked(env, c)
    ensures Linked(env, SeedHistorical(env, c, block, state))
  {
    if env.hash(block.header) !in c.blocks && SeedError(env, c, block.header).None? {
      SeedInsertable(env, c, block, state, true);
      var e := Entry(env, c, block, state, true);
      InsertLinked(env, c, e);
      TipStored(env, c);
      hide Linked, SeedError, Entry;
      RetipLinked(env, Store(c, e), Store(c, e).(tip := e.hash));
    }
  }

  lemma SeedBodylessLinked(env: Env, c: Chain, header: Header, state: Option<State>)
    requires Linked(env, c)
    ensures Linked(env, SeedBodyless(env, c, header, state))
  {
    if env.hash(header) !in c.blocks && SeedError(env, c, header).None? {
      SeedInsertable(env, c, Block(header, []), state, false);
      var e := Entry(env, c, Block(header, []), state, false);
      InsertLinked(env, c, e);
      TipStored(env, c);
      hide Linked, SeedError;
      RetipLinked(env, Store(c, e), SeedBodyless(env, c, header, state));
    }
  }

  lemma AddLinked(env: Env, c: Chain, block: Block, opts: Options, now: int)
    requires Linked(env, c)
    ensures Linked(env, AddBlock(env, c, block, opts, now))
  {
    hide Linked, Accept, Insertable, CheckBlock;
    var r := CheckBlock(env, c, block, opts, now);
    if r.Good? {
      GoodPrevStored(env, c, block, opts, now);
      GoodIsInsertable(env, c, block, opts, now);
      AcceptLinked(env, c, block, r.state);
    }
  }

  lemma GoodPrevStored(env: Env, c: Chain, block: Block, opts: Options, now: int)
    requires CheckBlock(env, c, block, opts, now).Good?
    ensures block.header.prevHash in c.blocks
  {
  }

  /** A body belongs to a stored header unless two headers hash alike. */
  ghost predicate BodyFits(env: Env, c: Chain, block: Block) {
    var k := env.hash(block.header);
    k in c.blocks ==> c.blocks[k].block.header == block.header
  }

  /** Attaching a body touches nothing the structure depends on; the genesis block already has its body. */
  lemma AttachLinked(env: Env, c: Chain, block: Block)
    requires Linked(env, c) && BodyFits(env, c, block) && c.blocks[env.hash(GENESIS_HEADER)].hasBody
    ensures Linked(env, AttachBody(env, c, block))
  {
    hide BlockWork, InheritAnchor;
    var k, c' := env.hash(block.header), AttachBody(env, c, block);
    if c' != c {
      forall j | j in c'.blocks
        ensures EntryOk(env, c', j)
      {
        assert EntryOk(env, c, j);
      }
    }
  }

  // ---- Any mixture of operations ----

  datatype Op =
    | Add(block: Block, opts: Options, now: int)
    | SeedBlock(block: Block, state: Option<State>)
    | SeedHeaderOnly(header: Header, state: Option<State>)
    | Attach(block: Block)

  function Apply(env: Env, c: Chain, op: Op): Chain {
    if c.tip !in c.blocks then c else
    match op
    case Add(block, opts, now) => AddBlock(env, c, block, opts, now)
    case SeedBlock(block, state) => SeedHistorical(env, c, block, state)
    case SeedHeaderOnly(header, state) => SeedBodyless(env, c, header, state)
    case Attach(block) => AttachBody(env, c, block)
  }

  function RunOps(env: Env, ops: seq<Op>): Chain {
    if ops == [] then Init(env) else Apply(env, RunOps(env, ops[..|ops| - 1]), ops[|ops| - 1])
  }

  /** Every body attached in the run fits the header it is stored under. */
  ghost predicate BodiesFit(env: Env, ops: seq<Op>) {
    forall n :: 0 <= n < |ops| && ops[n].Attach? ==> BodyFits(env, RunOps(env, ops[..n]), ops[n].block)
  }

  lemma {:induction false} PruneKeepsBodies(c: Chain, boundary: int)
    ensures PruneTo(c, boundary).blocks.Keys == c.blocks.Keys
    ensures forall k :: k in c.blocks ==> SameButState(c.blocks[k], PruneTo(c, boundary).blocks[k])
    decreases boundary - c.pruneFloor
  {
    if c.pruneFloor < boundary {
      PruneKeepsBodies(PruneStep(c), boundary);
    }
  }

  lemma AcceptKeepsBodies(env: Env, c: Chain, block: Block, state: State, k: Bytes)
    requires c.tip in c.blocks && block.header.prevHash in c.blocks && k in c.blocks && c.blocks[k].hasBody
    ensures var c' := Accept(env, c, block, state); k in c'.blocks && c'.blocks[k].hasBody
  {
    var e := Entry(env, c, block, Some(state), true);
    assert e.hasBody;
    hide Entry;
    PruneKeepsBodies(Store(c, e).(tip := e.hash), e.block.header.height - env.depth);
  }

  lemma ApplyKeepsGenesisBody(env: Env, c: Chain, op: Op)
    requires Linked(env, c) && c.blocks[env.hash(GENESIS_HEADER)].hasBody
    ensures var c' := Apply(env, c, op);
      env.hash(GENESIS_HEADER) in c'.blocks && c'.blocks[env.hash(GENESIS_HEADER)].hasBody
  {
    hide CheckBlock, PruneTo, BlockWork, InheritAnchor, EntryOk, Accept;
    if op.Add? && CheckBlock(env, c, op.block, op.opts, op.now).Good? {
      GoodPrevStored(env, c, op.block, op.opts, op.now);
      AcceptKeepsBodies(env, c, op.block, CheckBlock(env, c, op.block, op.opts, op.now).state, env.hash(GENESIS_HEADER));
    }
  }

  /** Links, heights, works and anchors hold in any run, however seeds, headers, bodies and validated blocks mix. */
  lemma {:induction false} RunOpsLinked(env: Env, ops: seq<Op>)
    requires BodiesFit(env, ops)
    ensures Linked(env, RunOps(env, ops))
    ensures RunOps(env, ops).blocks[env.hash(GENESIS_HEADER)].hasBody
    decreases |ops|
  {
    if ops == [] {
      InitInv(env);
    } else {
      var front, op := ops[..|ops| - 1], ops[|ops| - 1];
      assert BodiesFit(env, front) by {
        hide BodyFits;
        forall n | 0 <= n < |front| && front[n].Attach?
          ensures BodyFits(env, RunOps(env, front[..n]), front[n].block)
        {
          assert front[..n] == ops[..n];
        }
      }
      var c := RunOps(env, front);
      assert op.Attach? ==> BodyFits(env, c, op.block);
      hide BodiesFit, BodyFits, CheckBlock;
      RunOpsLinked(env, front);
      TipStored(env, c);
      ApplyKeepsGenesisBody(env, c, op);
      hide Linked;
      match op {
        case Add(block, opts, now) => AddLinked(env, c, block, opts, now);
        case SeedBlock(block, state) => SeedHistoricalLinked(env, c, block, state);
        case SeedHeaderOnly(header, state) => SeedBodylessLinked(env, c, header, state);
        case Attach(block) => AttachLinked(env, c, block);
      }
    }
  }

  // ---- Which bodies are missing ----

  /** The backfill table lists exactly the blocks without a body, at their heights. */
  ghost predicate BodylessExact(c: Chain) {
    && (forall k :: k in c.blocks && !c.blocks[k].hasBody ==>
          HeightOf(c, k) in c.bodyless && c.bodyless[HeightOf(c, k)] == k)
    && (forall h :: h in c.bodyless ==>
          c.bodyless[h] in c.blocks && !c.blocks[c.bodyless[h]].hasBody && HeightOf(c, c.bodyless[h]) == h)
  }

  /** One entry per height suffices exactly as long as no second header-only block arrives at a listed height. */
  lemma BodylessStaysExactIff(env: Env, c: Chain, header: Header, state: Option<State>)
    requires BodylessExact(c)
    requires env.hash(header) !in c.blocks && SeedError(env, c, header).None?
    ensures BodylessExact(SeedBodyless(env, c, header, state)) <==> header.height !in c.bodyless
  {
    hide BlockWork, InheritAnchor;
    var c', k := SeedBodyless(env, c, header, state), env.hash(header);
    assert c'.blocks[k].block.header == header && !c'.blocks[k].hasBody;
    if header.height in c.bodyless {
      var other := c.bodyless[header.height];
      assert HeightOf(c', other) == header.height && !c'.blocks[other].hasBody && c'.bodyless[header.height] != other;
    } else {
      assert forall j :: j in c.blocks ==> c'.blocks[j] == c.blocks[j];
    }
  }

  lemma AttachKeepsExact(env: Env, c: Chain, block: Block)
    requires BodylessExact(c) && BodyFits(env, c, block)
    ensures BodylessExact(AttachBody(env, c, block))
  {
    var c', k := AttachBody(env, c, block), env.hash(block.header);
    if c' != c {
      assert forall j :: j in c.blocks && j != k ==> c'.blocks[j] == c.blocks[j];
    }
  }

  /** The cached cursor never passes a missing body. */
  ghost predicate CursorOk(c: Chain) {
    (forall h :: h in c.bodyless ==> c.bodylessLow <= h) && (c.bodylessLow == 0 ==> c.bodyless == map[])
  }

  lemma CursorKept(env: Env, c: Chain, header: Header, state: Option<State>, block: Block)
    requires CursorOk(c)
    ensures CursorOk(SeedBodyless(env, c, header, state)) && CursorOk(AttachBody(env, c, block))
  {
    hide BlockWork, InheritAnchor;
  }

  // ---- Whole runs ----

  lemma {:induction false} PruneKeepsTable(c: Chain, boundary: int)
    ensures PruneTo(c, boundary).bodyless == c.bodyless && PruneTo(c, boundary).bodylessLow == c.bodylessLow
    decreases boundary - c.pruneFloor
  {
    if c.pruneFloor < boundary {
      PruneKeepsTable(PruneStep(c), boundary);
    }
  }

  lemma AcceptKeepsTable(env: Env, c: Chain, block: Block, state: State)
    requires c.tip in c.blocks && block.header.prevHash in c.blocks && env.hash(block.header) !in c.blocks
    ensures var c' := Accept(env, c, block, state);
      && c'.bodyless == c.bodyless && c'.bodylessLow == c.bodylessLow
      && c'.blocks.Keys == c.blocks.Keys + {env.hash(block.header)} && c'.blocks[env.hash(block.header)].hasBody
      && forall k :: k in c.blocks ==> SameButState(c.blocks[k], c'.blocks[k])
  {
    EntryFields(env, c, block, state);
    var e := Entry(env, c, block, Some(state), true);
    assert e.hasBody;
    hide Entry, PruneTo;
    var c1 := Store(c, e).(tip := e.hash);
    assert c1.blocks == c.blocks[e.hash := e];
    hide Store;
    PruneKeepsBodies(c1, e.block.header.height - env.depth);
    PruneKeepsTable(c1, e.block.header.height - env.depth);
    assert SameButState(c1.blocks[e.hash], PruneTo(c1, e.block.header.height - env.depth).blocks[e.hash]);
    forall k | k in c.blocks
      ensures SameButState(c.blocks[k], PruneTo(c1, e.block.header.height - env.depth).blocks[k])
    {
      assert SameButState(c1.blocks[k], PruneTo(c1, e.block.header.height - env.depth).blocks[k]);
    }
  }

  lemma NewBlock(env: Env, c: Chain, block: Block, opts: Options, now: int)
    requires CheckBlock(env, c, block, opts, now).Good?
    ensures block.header.prevHash in c.blocks && env.hash(block.header) !in c.blocks
  {
  }

  /** A table stays exact when entries with bodies come and states go. */
  lemma ExactLikewise(c: Chain, c': Chain)
    requires BodylessExact(c) && c'.bodyless == c.bodyless
    requires forall k :: k in c.blocks ==> k in c'.blocks && SameButState(c.blocks[k], c'.blocks[k])
    requires forall k :: k in c'.blocks && k !in c.blocks ==> c'.blocks[k].hasBody
    ensures BodylessExact(c')
  {
    assert forall k :: k in c.blocks ==> HeightOf(c', k) == HeightOf(c, k);
  }

  /** The operation inserts no header-only block at a height that already misses one. */
  ghost predicate OnePerHeight(env: Env, c: Chain, op: Op) {
    op.SeedHeaderOnly? && env.hash(op.header) !in c.blocks && SeedError(env, c, op.header).None? ==> op.header.height !in c.bodyless
  }

  lemma ApplyKeepsExact(env: Env, c: Chain, op: Op)
    requires c.tip in c.blocks && BodylessExact(c) && OnePerHeight(env, c, op) && (op.Attach? ==> BodyFits(env, c, op.block))
    ensures BodylessExact(Apply(env, c, op))
  {
    hide CheckBlock, Accept, BodylessExact, BodyFits, SeedHistorical, SeedBodyless, AttachBody, SeedError;
    match op {
      case Add(block, opts, now) =>
        var r := CheckBlock(env, c, block, opts, now);
        if r.Good? {
          NewBlock(env, c, block, opts, now);
          AcceptKeepsTable(env, c, block, r.state);
          ExactLikewise(c, Accept(env, c, block, r.state));
        }
      case SeedBlock(block, state) =>
        SeedBlockKeeps(env, c, block, state);
        ExactLikewise(c, SeedHistorical(env, c, block, state));
      case SeedHeaderOnly(header, state) =>
        if env.hash(header) !in c.blocks && SeedError(env, c, header).None? {
          BodylessStaysExactIff(env, c, header, state);
        } else {
          NothingSeeded(env, c, header, state);
        }
      case Attach(block) =>
        AttachKeepsExact(env, c, block);
    }
  }

  lemma NothingSeeded(env: Env, c: Chain, header: Header, state: Option<State>)
    requires env.hash(header) in c.blocks || SeedError(env, c, header).Some?
    ensures SeedBodyless(env, c, header, state) == c
  {
    hide Entry;
  }

  lemma SeedBlockKeeps(env: Env, c: Chain, block: Block, state: Option<State>)
    requires c.tip in c.blocks
    ensures var c' := SeedHistorical(env, c, block, state);
      && c'.bodyless == c.bodyless && c'.bodylessLow == c.bodylessLow
      && (forall k :: k in c.blocks ==> k in c'.blocks && SameButState(c.blocks[k], c'.blocks[k]))
      && (forall k :: k in c'.blocks && k !in c.blocks ==> c'.blocks[k].hasBody)
  {
    hide BlockWork, InheritAnchor;
  }

  lemma ApplyKeepsCursor(env: Env, c: Chain, op: Op)
    requires c.tip in c.blocks && CursorOk(c)
    ensures CursorOk(Apply(env, c, op))
  {
    hide CheckBlock, Accept, SeedHistorical, SeedBodyless, AttachBody;
    match op {
      case Add(block, opts, now) =>
        var r := CheckBlock(env, c, block, opts, now);
        if r.Good? {
          NewBlock(env, c, block, opts, now);
          AcceptKeepsTable(env, c, block, r.state);
        }
      case SeedBlock(block, state) =>
        SeedBlockKeeps(env, c, block, state);
      case SeedHeaderOnly(header, state) =>
        CursorKept(env, c, header, state, Block(header, []));
      case Attach(block) =>
        CursorKept(env, c, block.header, None, block);
    }
  }

  lemma ApplyKeepsTip(env: Env, c: Chain, op: Op)
    requires c.tip in c.blocks
    ensures Apply(env, c, op).tip in Apply(env, c, op).blocks
  {
    hide AddBlock, Entry, SeedError;
    if op.Add? {
      AddKeepsTip(env, c, op.block, op.opts, op.now);
    }
  }

  /** In any run of any operations, the cursor never passes a missing body. */
  lemma {:induction false} RunCursorOk(env: Env, ops: seq<Op>)
    ensures RunOps(env, ops).tip in RunOps(env, ops).blocks && CursorOk(RunOps(env, ops))
    decreases |ops|
  {
    if ops != [] {
      hide Apply, CursorOk;
      RunCursorOk(env, ops[..|ops| - 1]);
      ApplyKeepsTip(env, RunOps(env, ops[..|ops| - 1]), ops[|ops| - 1]);
      ApplyKeepsCursor(env, RunOps(env, ops[..|ops| - 1]), ops[|ops| - 1]);
    }
  }

  ghost predicate OneHeaderPerHeight(env: Env, ops: seq<Op>) {
    forall n :: 0 <= n < |ops| ==> OnePerHeight(env, RunOps(env, ops[..n]), ops[n])
  }

  /**
   * In any run whose bodies fit their headers and whose header-only blocks arrive one per height, the table
   * lists exactly the blocks without a body.
   */
  lemma {:induction false} RunBodylessExact(env: Env, ops: seq<Op>)
    requires BodiesFit(env, ops) && OneHeaderPerHeight(env, ops)
    ensures BodylessExact(RunOps(env, ops))
    decreases |ops|
  {
    RunCursorOk(env, ops);
    if ops == [] {
      InitExact(env);
    } else {
      var front, op := ops[..|ops| - 1], ops[|ops| - 1];
      var c := RunOps(env, front);
      assert OnePerHeight(env, c, op) && (op.Attach? ==> BodyFits(env, c, op.block));
      FrontOk(env, ops);
      RunCursorOk(env, front);
      hide BodiesFit, OneHeaderPerHeight, BodylessExact, OnePerHeight, BodyFits, Apply, CursorOk;
      RunBodylessExact(env, front);
      ApplyKeepsExact(env, c, op);
    }
  }

  lemma FrontOk(env: Env, ops: seq<Op>)
    requires BodiesFit(env, ops) && OneHeaderPerHeight(env, ops) && ops != []
    ensures BodiesFit(env, ops[..|ops| - 1]) && OneHeaderPerHeight(env, ops[..|ops| - 1])
  {
    var front := ops[..|ops| - 1];
    hide BodyFits, RunOps, OnePerHeight;
    forall n | 0 <= n < |front|
      ensures front[n].Attach? ==> BodyFits(env, RunOps(env, front[..n]), front[n].block)
      ensures OnePerHeight(env, RunOps(env, front[..n]), front[n])
    {
      assert front[..n] == ops[..n] && front[n] == ops[n];
      assert OnePerHeight(env, RunOps(env, ops[..n]), ops[n]);
    }
  }

  lemma InitExact(env: Env)
    ensures BodylessExact(Init(env))
  {
    hide BlockWork;
  }

  // ---- Two header-only siblings ----

  function Sibling(env: Env, nonce: nat): Header {
    Header(1, env.hash(GENESIS_HEADER), env.txRoot([]), Zeros(32), 1, GENESIS_DIFFICULTY_COMPACT, nonce, Zeros(32))
  }

  /** Two bare headers at height 1, then the second one's body: the table is empty while the first still has no body. */
  lemma SiblingHidesMissingBody(env: Env)
    requires var g, a, b := env.hash(GENESIS_HEADER), env.hash(Sibling(env, 0)), env.hash(Sibling(env, 1));
      g != a && g != b && a != b
    requires env.size(Block(Sibling(env, 1), [])) <= MAX_BLOCK_BYTES
    ensures var c := RunOps(env, [SeedHeaderOnly(Sibling(env, 0), None), SeedHeaderOnly(Sibling(env, 1), None),
                                  Attach(Block(Sibling(env, 1), []))]);
      && c.bodyless == map[] && env.hash(Sibling(env, 0)) in c.blocks && !c.blocks[env.hash(Sibling(env, 0))].hasBody
  {
    var x, y, z := SeedHeaderOnly(Sibling(env, 0), None), SeedHeaderOnly(Sibling(env, 1), None), Attach(Block(Sibling(env, 1), []));
    var ops: seq<Op> := [x, y, z];
    hide BlockWork, InheritAnchor;
    assert ops[..2] == [x, y] && [x, y][..1] == [x] && [x][..0] == [];
    var c0, c1, c2 := RunOps(env, []), RunOps(env, [x]), RunOps(env, [x, y]);
    assert c1 == Apply(env, c0, x) && c2 == Apply(env, c1, y) && RunOps(env, ops) == Apply(env, c2, z);
    hide RunOps;
    SeedOnGenesis(env, c0, 0);
    SeedOnGenesis(env, c1, 1);
    hide Apply;
    AttachSecond(env, c2);
  }

  /** A tree whose genesis entry is in place. */
  ghost predicate HasGenesis(env: Env, c: Chain) {
    var g := env.hash(GENESIS_HEADER);
    g in c.blocks && c.blocks[g].block == GENESIS && c.tip in c.blocks
  }

  lemma SeedOnGenesis(env: Env, c: Chain, nonce: nat)
    requires HasGenesis(env, c) && env.hash(Sibling(env, nonce)) !in c.blocks
    ensures var c1 := Apply(env, c, SeedHeaderOnly(Sibling(env, nonce), None));
      var k := env.hash(Sibling(env, nonce));
      && HasGenesis(env, c1) && c1.bodyless == c.bodyless[1 := k]
      && c1.blocks.Keys == c.blocks.Keys + {k} && !c1.blocks[k].hasBody
      && forall j :: j in c.blocks ==> c1.blocks[j] == c.blocks[j]
  {
    hide BlockWork, InheritAnchor;
  }

  lemma AttachSecond(env: Env, c: Chain)
    requires env.size(Block(Sibling(env, 1), [])) <= MAX_BLOCK_BYTES && env.hash(Sibling(env, 0)) != env.hash(Sibling(env, 1))
    requires c.tip in c.blocks && env.hash(Sibling(env, 1)) in c.blocks && !c.blocks[env.hash(Sibling(env, 1))].hasBody
    requires env.hash(Sibling(env, 0)) in c.blocks && !c.blocks[env.hash(Sibling(env, 0))].hasBody
    requires c.bodyless == map[1 := env.hash(Sibling(env, 1))]
    ensures var c1 := Apply(env, c, Attach(Block(Sibling(env, 1), [])));
      c1.bodyless == map[] && env.hash(Sibling(env, 0)) in c1.blocks && !c1.blocks[env.hash(Sibling(env, 0))].hasBody
  {
  }
}
