/** The pending-transaction pool as a value: admission, eviction and block selection (src/chain/mempool.ts). */
module Pool {
  import opened Genesis
  import opened Transactions
  import opened Ledger
  import Wire

  const MAX_MEMPOOL_TXS := 5_000
  const MIN_FEE_PER_BYTE := 1
  const MAX_NONCE_AHEAD := 16
  const UNMINABLE_GRACE_MS := TARGET_BLOCK_TIME_S * 1000
  const MEMPOOL_TX_TTL_MS := 30 * 60 * 1000

  datatype PoolEntry = PoolEntry(tx: Transaction, hash: Bytes, rate: int, receivedAt: int)

  function SizeOf(tx: Transaction): (n: nat)
    ensures n > 0
  {
    Wire.EncodedAtLeastFour(tx);
    |Wire.EncodeTx(tx)|
  }

  /** Fee per encoded byte, rounded down. */
  function Rate(tx: Transaction): int {
    tx.fee / SizeOf(tx)
  }

  /** The structural checks (src/chain/transaction.ts); `signed` is signature verification. */
  predicate StructureOk(tx: Transaction, signed: Transaction -> bool) {
    && 0 <= tx.amount <= MAX_MONEY && 0 <= tx.fee
    && match tx.kind
       case Transfer =>
         && tx.amount + tx.fee <= MAX_MONEY && tx.amount + tx.fee > 0 && tx.nonce >= 0 && tx.from != tx.to
         && |tx.from| == 32 && |tx.to| == 32 && |tx.signature| == 64 && signed(tx)
       case Lock =>
         && |tx.from| == 32 && |tx.scriptHash| == 32 && tx.amount + tx.fee <= MAX_MONEY && tx.amount > 0
         && tx.nonce >= 0 && |tx.signature| == 64 && signed(tx)
       case Redeem =>
         && |tx.to| == 32 && |tx.lockId| == 32 && tx.fee <= tx.amount
         && 0 < |tx.redeemScript| <= MAX_SCRIPT_BYTES
         && |tx.witnessItems| <= MAX_WITNESS_ITEMS && Wire.SmallItems(tx.witnessItems)
  }

  // ---- Admission ----

  datatype PoolError =
    | BadStructure | FeeTooLow | CannotPay | NonceTooLow | NonceTooFar
    | LockUnknown | WrongScript | WrongAmount | FeeAboveLock | SlotTaken | PoolFull

  /** Two transactions at most one of which can ever be mined. */
  predicate Rivals(a: Transaction, b: Transaction) {
    if a.kind.Redeem? then b.kind.Redeem? && a.lockId == b.lockId
    else !b.kind.Redeem? && a.from == b.from && a.nonce == b.nonce
  }

  /** The checks against the chain-tip state. */
  function StateError(o: Oracle, s: State, tx: Transaction): Option<PoolError> {
    if tx.kind.Redeem? then
      if tx.lockId !in s.locks then Some(LockUnknown)
      else if o.scriptHash(tx.redeemScript) != s.locks[tx.lockId].scriptHash then Some(WrongScript)
      else if tx.amount != s.locks[tx.lockId].amount then Some(WrongAmount)
      else if tx.fee > s.locks[tx.lockId].amount then Some(FeeAboveLock)
      else None
    else
      var sender := GetAccount(s, tx.from);
      if sender.balance < tx.amount + tx.fee then Some(CannotPay)
      else if tx.nonce < sender.nonce then Some(NonceTooLow)
      else if tx.nonce > sender.nonce + MAX_NONCE_AHEAD then Some(NonceTooFar)
      else None
  }

  function Delete(pool: seq<PoolEntry>, hash: Bytes): seq<PoolEntry> {
    if pool == [] then []
    else if pool[0].hash == hash then Delete(pool[1..], hash)
    else [pool[0]] + Delete(pool[1..], hash)
  }

  function DeleteAll(pool: seq<PoolEntry>, o: Oracle, txs: seq<Transaction>): seq<PoolEntry>
    decreases |txs|
  {
    if txs == [] then pool else DeleteAll(Delete(pool, o.txHash(txs[0])), o, txs[1..])
  }

  predicate Has(pool: seq<PoolEntry>, hash: Bytes) {
    exists i :: 0 <= i < |pool| && pool[i].hash == hash
  }

  function FirstRival(pool: seq<PoolEntry>, tx: Transaction): (e: Option<PoolEntry>)
    ensures e.Some? ==> e.value in pool && Rivals(tx, e.value.tx)
    ensures e.None? ==> forall i :: 0 <= i < |pool| ==> !Rivals(tx, pool[i].tx)
  {
    if pool == [] then None
    else if Rivals(tx, pool[0].tx) then Some(pool[0])
    else FirstRival(pool[1..], tx)
  }

  /** The earliest of the entries with the lowest rate. */
  function Worst(pool: seq<PoolEntry>): (e: PoolEntry)
    requires pool != []
    ensures e in pool && forall i :: 0 <= i < |pool| ==> e.rate <= pool[i].rate
  {
    var n := |pool| - 1;
    if n == 0 then pool[0]
    else
      var w := Worst(pool[..n]);
      assert forall i :: 0 <= i < n ==> pool[..n][i] == pool[i];
      if pool[n].rate < w.rate then pool[n] else w
  }

  /** Room for one more entry of this rate, if need be at the expense of the worst; `None` when it is outbid. */
  function MakeRoom(pool: seq<PoolEntry>, rate: int): Option<seq<PoolEntry>> {
    if |pool| < MAX_MEMPOOL_TXS then Some(pool)
    else
      var w := Worst(pool);
      if w.rate >= rate then None else Some(Delete(pool, w.hash))
  }

  datatype Added = Added(pool: seq<PoolEntry>, error: Option<PoolError>)

  function Add(o: Oracle, signed: Transaction -> bool, pool: seq<PoolEntry>, tx: Transaction, s: State, now: int): Added {
    var hash, err := o.txHash(tx), StateError(o, s, tx);
    if !StructureOk(tx, signed) then Added(pool, Some(BadStructure))
    else if Rate(tx) < MIN_FEE_PER_BYTE then Added(pool, Some(FeeTooLow))
    else if Has(pool, hash) then Added(pool, None)
    else if err.Some? then Added(pool, err)
    else Place(pool, PoolEntry(tx, hash, Rate(tx), now))
  }

  /** Replace a rival that pays less, make room, append. */
  function Place(pool: seq<PoolEntry>, e: PoolEntry): Added {
    var rival := FirstRival(pool, e.tx);
    if rival.Some? && e.rate <= rival.value.rate then Added(pool, Some(SlotTaken))
    else
      var rest := if rival.Some? then Delete(pool, rival.value.hash) else pool;
      var room := MakeRoom(rest, e.rate);
      if room.None? then Added(rest, Some(PoolFull)) else Added(room.value + [e], None)
  }

  // ---- Selection ----

  /** Stable insertion sort under a strict "comes before". */
  function SortBy(es: seq<PoolEntry>, before: (PoolEntry, PoolEntry) -> bool): (r: seq<PoolEntry>)
    ensures |r| == |es|
  {
    if es == [] then [] else InsertBy(SortBy(es[..|es| - 1], before), es[|es| - 1], before)
  }

  function InsertBy(es: seq<PoolEntry>, e: PoolEntry, before: (PoolEntry, PoolEntry) -> bool): (r: seq<PoolEntry>)
    ensures |r| == |es| + 1
  {
    if es == [] then [e]
    else if before(e, es[|es| - 1]) then InsertBy(es[..|es| - 1], e, before) + [es[|es| - 1]]
    else es + [e]
  }

  function ByNonce(): (PoolEntry, PoolEntry) -> bool {
    (a: PoolEntry, b: PoolEntry) => a.tx.nonce < b.tx.nonce
  }

  /** Higher rate first, then lower nonce. */
  function ByRate(): (PoolEntry, PoolEntry) -> bool {
    (a: PoolEntry, b: PoolEntry) => if a.rate != b.rate then a.rate > b.rate else a.tx.nonce < b.tx.nonce
  }

  /** One sender's debiting entries, in pool order. */
  function From(es: seq<PoolEntry>, a: Bytes): (r: seq<PoolEntry>)
    ensures forall i :: 0 <= i < |r| ==> r[i].tx.DebitsAccount() && r[i].tx.from == a
  {
    if es == [] then []
    else if es[0].tx.DebitsAccount() && es[0].tx.from == a then [es[0]] + From(es[1..], a)
    else From(es[1..], a)
  }

  /** The senders of debiting entries, in order of first appearance. */
  function Senders(es: seq<PoolEntry>): seq<Bytes> {
    if es == [] then []
    else
      var before, last := Senders(es[..|es| - 1]), es[|es| - 1].tx;
      if last.DebitsAccount() && last.from !in before then before + [last.from] else before
  }

  /** How many entries continue the nonce sequence and stay within the running balance. */
  function Payable(es: seq<PoolEntry>, nonce: int, balance: int): (n: nat)
    ensures n <= |es|
  {
    if es == [] || es[0].tx.nonce != nonce || balance < es[0].tx.amount + es[0].tx.fee then 0
    else 1 + Payable(es[1..], nonce + 1, balance - es[0].tx.amount - es[0].tx.fee)
  }

  /** The part of a sender's entries that can be mined, by nonce. */
  function MineablePrefix(s: State, pool: seq<PoolEntry>, a: Bytes): seq<PoolEntry> {
    var sorted, acct := SortBy(From(pool, a), ByNonce()), GetAccount(s, a);
    sorted[..Payable(sorted, acct.nonce, acct.balance)]
  }

  function BeforeLock(es: seq<PoolEntry>): (r: seq<PoolEntry>)
    ensures |r| <= |es| && r == es[..|r|]
  {
    if es == [] || es[0].tx.kind.Lock? then [] else [es[0]] + BeforeLock(es[1..])
  }

  /** Without scripts the prefix also ends before the first lock. */
  function Keep(s: State, pool: seq<PoolEntry>, a: Bytes, active: bool): seq<PoolEntry> {
    if active then MineablePrefix(s, pool, a) else BeforeLock(MineablePrefix(s, pool, a))
  }

  function KeepAll(s: State, pool: seq<PoolEntry>, senders: seq<Bytes>, active: bool): seq<PoolEntry> {
    if senders == [] then []
    else KeepAll(s, pool, senders[..|senders| - 1], active) + Keep(s, pool, senders[|senders| - 1], active)
  }

  /** The redeems whose lock is live and whose script accepts in this context. */
  function Redeemable(o: Oracle, s: State, pool: seq<PoolEntry>, ctx: Context): (r: seq<PoolEntry>)
    ensures forall i :: 0 <= i < |r| ==> r[i].tx.kind.Redeem? && RedeemError(o, s, {}, r[i].tx, ctx).None? && r[i] in pool
  {
    if pool == [] then []
    else if pool[0].tx.kind.Redeem? && RedeemError(o, s, {}, pool[0].tx, ctx).None? then
      [pool[0]] + Redeemable(o, s, pool[1..], ctx)
    else Redeemable(o, s, pool[1..], ctx)
  }

  function Eligible(o: Oracle, s: State, pool: seq<PoolEntry>, ctx: Context): seq<PoolEntry> {
    KeepAll(s, pool, Senders(pool), ctx.scriptsActive)
    + if ctx.scriptsActive then Redeemable(o, s, pool, ctx) else []
  }

  /** Take entries in order until one does not fit; a second redeem of a lock is passed over. */
  function Pack(es: seq<PoolEntry>, usedLocks: set<Bytes>, bytesUsed: nat, maxBytes: int): seq<PoolEntry> {
    if es == [] then []
    else
      var tx := es[0].tx;
      if tx.kind.Redeem? && tx.lockId in usedLocks then Pack(es[1..], usedLocks, bytesUsed, maxBytes)
      else if bytesUsed + SizeOf(tx) > maxBytes then []
      else
        [es[0]] + Pack(es[1..], if tx.kind.Redeem? then usedLocks + {tx.lockId} else usedLocks, bytesUsed + SizeOf(tx), maxBytes)
  }

  function Ranked(o: Oracle, s: State, pool: seq<PoolEntry>, ctx: Context): seq<PoolEntry> {
    SortBy(Eligible(o, s, pool, ctx), ByRate())
  }

  function Select(o: Oracle, s: State, pool: seq<PoolEntry>, maxBytes: int, ctx: Context): seq<PoolEntry> {
    Pack(Ranked(o, s, pool, ctx), {}, 0, maxBytes)
  }

  function Txs(es: seq<PoolEntry>): (txs: seq<Transaction>)
    ensures |txs| == |es|
  {
    seq(|es|, i requires 0 <= i < |es| => es[i].tx)
  }

  function TotalSize(es: seq<PoolEntry>): nat {
    if es == [] then 0 else SizeOf(es[0].tx) + TotalSize(es[1..])
  }

  // ---- Pruning ----

  /** The entries of a sender that its nonce sequence or balance does not reach, by nonce. */
  function Unreached(s: State, pool: seq<PoolEntry>, a: Bytes): seq<PoolEntry> {
    var sorted, acct := SortBy(From(pool, a), ByNonce()), GetAccount(s, a);
    sorted[Payable(sorted, acct.nonce, acct.balance)..]
  }

  predicate TooOld(now: int, e: PoolEntry) {
    now - e.receivedAt >= MEMPOOL_TX_TTL_MS
  }

  predicate LockGone(s: State, now: int, e: PoolEntry) {
    e.tx.kind.Redeem? && e.tx.lockId !in s.locks && now - e.receivedAt >= UNMINABLE_GRACE_MS
  }

  predicate Hopeless(s: State, now: int, e: PoolEntry) {
    e.tx.nonce < GetAccount(s, e.tx.from).nonce || now - e.receivedAt >= UNMINABLE_GRACE_MS
  }

  predicate Stuck(s: State, pool: seq<PoolEntry>, now: int, e: PoolEntry) {
    e.tx.DebitsAccount() && e in Unreached(s, pool, e.tx.from) && Hopeless(s, now, e)
  }

  /** What a tip change evicts: spent nonces at once, other unminable entries after a grace, anything after the TTL. */
  predicate Evicted(s: State, pool: seq<PoolEntry>, now: int, e: PoolEntry) {
    Stuck(s, pool, now, e) || LockGone(s, now, e) || TooOld(now, e)
  }

  function Retain(es: seq<PoolEntry>, keep: PoolEntry -> bool): seq<PoolEntry> {
    if es == [] then []
    else if keep(es[0]) then [es[0]] + Retain(es[1..], keep)
    else Retain(es[1..], keep)
  }

  function Prune(s: State, pool: seq<PoolEntry>, now: int): seq<PoolEntry> {
    Retain(pool, e => !Evicted(s, pool, now, e))
  }

  // ---- What every reachable pool satisfies ----

  ghost predicate EntryOk(o: Oracle, e: PoolEntry) {
    && e.hash == o.txHash(e.tx) && e.rate == Rate(e.tx) >= MIN_FEE_PER_BYTE
    && NonNegative(e.tx) && (e.tx.kind.Transfer? ==> e.tx.from != e.tx.to)
  }

  /** Entries are keyed by hash, at most one per sender and nonce, at most one per lock, and never too many. */
  ghost predicate PoolOk(o: Oracle, pool: seq<PoolEntry>) {
    && |pool| <= MAX_MEMPOOL_TXS
    && (forall i :: 0 <= i < |pool| ==> EntryOk(o, pool[i]))
    && (forall i, j :: 0 <= i < j < |pool| ==> pool[i].hash != pool[j].hash && !Rivals(pool[i].tx, pool[j].tx))
  }
}
