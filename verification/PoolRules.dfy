/** Which submissions the pool takes and which entries a tip change drops, rule by rule (src/chain/mempool.ts). */
module PoolRules {
  import opened Genesis
  import opened Transactions
  import opened Ledger
  import opened Pool
  import opened PoolLaws
  import opened Selection
  import Wire

  // ---- Admission ----

  /** The rule against the tip's state whose violation an error reports. */
  predicate Keeps(o: Oracle, s: State, tx: Transaction, e: PoolError) {
    var live, sender := tx.lockId in s.locks, GetAccount(s, tx.from);
    match e
    case CannotPay => tx.kind.Redeem? || tx.amount + tx.fee <= sender.balance
    case NonceTooLow => tx.kind.Redeem? || sender.nonce <= tx.nonce
    case NonceTooFar => tx.kind.Redeem? || tx.nonce <= sender.nonce + 16
    case LockUnknown => tx.kind.Redeem? ==> live
    case WrongScript => tx.kind.Redeem? && live ==> s.locks[tx.lockId].scriptHash == o.scriptHash(tx.redeemScript)
    case WrongAmount => tx.kind.Redeem? && live ==> s.locks[tx.lockId].amount == tx.amount
    case FeeAboveLock => tx.kind.Redeem? && live ==> tx.fee <= s.locks[tx.lockId].amount
    case _ => true
  }

  lemma StateRules(o: Oracle, s: State, tx: Transaction)
    ensures var err := StateError(o, s, tx);
      && (err.None? <==> forall e: PoolError :: Keeps(o, s, tx, e))
      && (err.Some? ==> !Keeps(o, s, tx, err.value) && err.value !in {BadStructure, FeeTooLow, SlotTaken, PoolFull})
  {
    hide GetAccount;
    var err := StateError(o, s, tx);
    if err.Some? {
      assert !Keeps(o, s, tx, err.value);
    }
  }

  /** A pooled entry that can only be mined instead of the transaction. */
  ghost predicate Competes(pool: seq<PoolEntry>, tx: Transaction, e: PoolEntry) {
    && e in pool
    && if tx.kind.Redeem? then e.tx.kind.Redeem? && e.tx.lockId == tx.lockId
       else !e.tx.kind.Redeem? && e.tx.from == tx.from && e.tx.nonce == tx.nonce
  }

  lemma CompetitorIsRival(o: Oracle, pool: seq<PoolEntry>, tx: Transaction, e: PoolEntry)
    requires PoolOk(o, pool) && Competes(pool, tx, e)
    ensures FirstRival(pool, tx) == Some(e)
  {
    hide EntryOk, FirstRival;
    var i :| 0 <= i < |pool| && pool[i] == e;
    assert Rivals(tx, pool[i].tx);
    var r := FirstRival(pool, tx).value;
    var j :| 0 <= j < |pool| && pool[j] == r;
    assert i < j ==> !Rivals(pool[i].tx, pool[j].tx);
    assert j < i ==> !Rivals(pool[j].tx, pool[i].tx);
  }

  lemma RivalCompetes(pool: seq<PoolEntry>, tx: Transaction)
    requires FirstRival(pool, tx).Some?
    ensures Competes(pool, tx, FirstRival(pool, tx).value)
  {
    hide FirstRival;
  }

  /** Some entry pays less, or there is room. */
  ghost predicate HasRoom(pool: seq<PoolEntry>, rate: int) {
    |pool| < 5_000 || exists e :: e in pool && e.rate < rate
  }

  lemma RoomIff(pool: seq<PoolEntry>, rate: int)
    ensures MakeRoom(pool, rate).Some? <==> HasRoom(pool, rate)
  {
    hide Worst;
    if |pool| >= 5_000 && HasRoom(pool, rate) {
      var e :| e in pool && e.rate < rate;
      var i :| 0 <= i < |pool| && pool[i] == e;
    }
  }

  lemma {:induction false} DeleteOne(o: Oracle, pool: seq<PoolEntry>, e: PoolEntry)
    requires PoolOk(o, pool) && e in pool
    ensures |Delete(pool, e.hash)| == |pool| - 1
  {
    hide EntryOk, Rivals;
    var rest := pool[1..];
    assert PoolOk(o, rest) by { RestOk(o, pool); }
    if pool[0].hash == e.hash {
      NotThere(rest, e.hash) by { forall i | 0 <= i < |rest| ensures rest[i].hash != e.hash { assert pool[i + 1] == rest[i]; } }
    } else {
      assert e in rest;
      DeleteOne(o, rest, e);
    }
  }

  lemma RestOk(o: Oracle, pool: seq<PoolEntry>)
    requires PoolOk(o, pool) && pool != []
    ensures PoolOk(o, pool[1..])
  {
    hide EntryOk, Rivals;
  }

  lemma {:induction false} NotThere(pool: seq<PoolEntry>, hash: Bytes)
    requires forall i :: 0 <= i < |pool| ==> pool[i].hash != hash
    ensures Delete(pool, hash) == pool
  {
    if pool != [] {
      NotThere(pool[1..], hash);
    }
  }

  /**
   * A submission is accepted exactly when its structure is right, it pays at least one unit a byte, and either it
   * is in the pool already or: the tip's state allows it, it outbids the one entry it competes with, and, if it
   * competes with none, there is room or a cheaper entry.
   */
  lemma AcceptedIff(o: Oracle, signed: Transaction -> bool, pool: seq<PoolEntry>, tx: Transaction, s: State, now: int)
    requires PoolOk(o, pool)
    ensures Add(o, signed, pool, tx, s, now).error.None? <==>
      && StructureOk(tx, signed) && Rate(tx) >= 1
      && ((exists e :: e in pool && e.hash == o.txHash(tx))
          || (&& (forall e: PoolError :: Keeps(o, s, tx, e))
              && (forall e :: Competes(pool, tx, e) ==> e.rate < Rate(tx))
              && ((exists e :: Competes(pool, tx, e)) || HasRoom(pool, Rate(tx)))))
  {
    hide StructureOk, Rate, StateError, Place, PoolOk, Keeps, Competes, HasRoom;
    StateRules(o, s, tx);
    PlaceIff(o, pool, PoolEntry(tx, o.txHash(tx), Rate(tx), now));
    assert Has(pool, o.txHash(tx)) <==> exists e :: e in pool && e.hash == o.txHash(tx);
  }

  lemma PlaceIff(o: Oracle, pool: seq<PoolEntry>, e: PoolEntry)
    requires PoolOk(o, pool)
    ensures Place(pool, e).error.None? <==>
      && (forall r :: Competes(pool, e.tx, r) ==> r.rate < e.rate)
      && ((exists r :: Competes(pool, e.tx, r)) || HasRoom(pool, e.rate))
  {
    hide PoolOk, Competes, MakeRoom, Delete, FirstRival;
    var rival := FirstRival(pool, e.tx);
    forall r | Competes(pool, e.tx, r)
      ensures rival == Some(r)
    {
      CompetitorIsRival(o, pool, e.tx, r);
    }
    if rival.Some? {
      RivalCompetes(pool, e.tx);
      DeleteOne(o, pool, rival.value);
      SmallHasRoom(o, pool, Delete(pool, rival.value.hash), e.rate);
    } else {
      RoomIff(pool, e.rate);
    }
  }

  lemma SmallHasRoom(o: Oracle, pool: seq<PoolEntry>, rest: seq<PoolEntry>, rate: int)
    requires PoolOk(o, pool) && |rest| < |pool|
    ensures MakeRoom(rest, rate) == Some(rest)
  {
  }

  // ---- What a tip change drops ----

  /** On its sender's run, or not yet given up on. */
  ghost predicate StillWanted(s: State, pool: seq<PoolEntry>, now: int, e: PoolEntry) {
    var age := now - e.receivedAt;
    && age < 1_800_000
    && if e.tx.kind.Redeem? then e.tx.lockId in s.locks || age < 150_000
       else e in MineablePrefix(s, pool, e.tx.from) || (GetAccount(s, e.tx.from).nonce <= e.tx.nonce && age < 150_000)
  }

  /**
   * A tip change keeps exactly the entries under thirty minutes old that can be mined, or that are under 150
   * seconds old and have no spent nonce.
   */
  lemma PruneKeepsIff(o: Oracle, s: State, pool: seq<PoolEntry>, now: int, e: PoolEntry)
    requires PoolOk(o, pool) && e in pool
    ensures e in Prune(s, pool, now) <==> StillWanted(s, pool, now, e)
  {
    RetainLaws(pool, x => !Evicted(s, pool, now, x));
    if e.tx.DebitsAccount() {
      PrefixOrRest(o, s, pool, e);
    }
    hide Retain, MineablePrefix, Unreached, PoolOk, GetAccount;
  }

  // ---- What an accepted transaction is like ----

  /** Fields a transaction's kind does not use, as they come off the wire. */
  predicate Trimmed(tx: Transaction) {
    match tx.kind
    case Transfer => tx.scriptHash == [] && tx.lockId == [] && tx.redeemScript == [] && tx.witnessItems == []
    case Lock => tx.to == Zeros(32) && tx.lockId == [] && tx.redeemScript == [] && tx.witnessItems == []
    case Redeem => tx.nonce == 0 && tx.signature == [] && tx.from == Zeros(32) && tx.scriptHash == []
  }

  /** Whatever passes the structural checks, with a nonce that fits its field, comes back from the wire as it is. */
  lemma SoundSurvivesWire(tx: Transaction, signed: Transaction -> bool)
    requires StructureOk(tx, signed) && Trimmed(tx) && tx.nonce < 0x1_0000_0000
    ensures Wire.Normal(tx)
    ensures Wire.DecodeTx(Wire.EncodeTx(tx), 0) == Wire.Decoded(tx, SizeOf(tx))
  {
    hide Wire.EncodeTx, Wire.DecodeTx, SizeOf;
    assert Wire.Normal(tx);
    var e := Wire.EncodeTx(tx);
    assert Wire.Has(e, 0, e) by { WholeHas(e); }
    hide Wire.Normal, StructureOk;
    Wire.DecodeOfEncodeTx(e, 0, tx);
    SizeIsLength(tx);
  }

  lemma WholeHas(e: Bytes)
    ensures Wire.Has(e, 0, e)
  {
  }

  lemma SizeIsLength(tx: Transaction)
    ensures SizeOf(tx) == |Wire.EncodeTx(tx)|
  {
    hide Wire.EncodeTx;
  }

  /** It moves something, stays within the money there is, and is signed by the account it debits. */
  lemma SoundMeans(tx: Transaction, signed: Transaction -> bool)
    requires StructureOk(tx, signed)
    ensures tx.amount >= 0 && tx.fee >= 0 && tx.amount <= MAX_MONEY
    ensures !tx.kind.Redeem? ==> signed(tx) && 0 < tx.amount + tx.fee <= MAX_MONEY && tx.nonce >= 0
    ensures tx.kind.Transfer? ==> tx.from != tx.to
    ensures tx.kind.Lock? ==> tx.amount > 0
    ensures tx.kind.Redeem? ==> tx.fee <= tx.amount && 0 < |tx.redeemScript| <= 10_000
  {
  }

  /** The rate is the fee per byte, rounded down. */
  lemma FeePerByte(tx: Transaction)
    ensures Rate(tx) * SizeOf(tx) <= tx.fee < (Rate(tx) + 1) * SizeOf(tx)
  {
    hide SizeOf;
    FloorLaw(tx.fee, SizeOf(tx));
  }

  lemma FloorLaw(n: int, d: nat)
    requires d > 0
    ensures (n / d) * d <= n < (n / d + 1) * d
  {
    assert n == d * (n / d) + n % d;
  }
}
