/**
 * What indexing one block means, as values: the `new_coins` and
 * `spent_coins` maps the indexer builds for a block, the rows it then
 * writes, and a pass over a run of heights. The imperative indexer in
 * module `Index` is proved to compute exactly these.
 */
module Apply {
  import opened Wrappers
  import opened Codec
  import opened Structs
  import opened Schema
  import opened Query

  // ---------------------------------------------------------------------
  // new_coins

  /** The byte values `0..n`. */
  function Indices(n: nat): (r: seq<Byte>)
    requires n <= 256
    ensures |r| == n && forall i | 0 <= i < n :: r[i] == i
  {
    if n == 0 then [] else Indices(n - 1) + [n - 1]
  }

  /**
   * The outputs whose content the indexer asks the snapshot for instead
   * of trusting the transaction: output 0 of a Swap, outputs 0 and 1 of a
   * LiqDeposit, and `0..(len as u8 + 1)` of a LiqWithdraw, the `u8`
   * arithmetic wrapping as in a release build.
   */
  function OverrideIndices(tx: Transaction): seq<Byte>
  {
    match tx.kind
    case Swap => [0]
    case LiqDeposit => [0, 1]
    case LiqWithdraw => Indices((|tx.outputs| % 256 + 1) % 256)
    case _ => []
  }

  /** For a LiqWithdraw of fewer than 255 outputs, every output and one more are looked up. */
  lemma LiqWithdrawOverridesAll(tx: Transaction, i: nat)
    requires tx.kind == LiqWithdraw && |tx.outputs| < 255
    ensures i in OverrideIndices(tx) <==> i <= |tx.outputs|
  {
    var r := OverrideIndices(tx);
    if i <= |tx.outputs| {
      assert r[i] == i;
    }
  }

  /** Each output in turn, filed under its position truncated to a byte; a later output overwrites an earlier one. */
  function InsertOutputs(m: map<CoinID, CoinData>, hash: TxHash, outs: seq<CoinData>): map<CoinID, CoinData>
  {
    if outs == [] then m
    else InsertOutputs(m, hash, outs[..|outs| - 1])[CoinID(hash, (|outs| - 1) % 256) := outs[|outs| - 1]]
  }

  /** Each listed output in turn is dropped and, when the snapshot has it, replaced by the snapshot's copy. */
  function Override(m: map<CoinID, CoinData>, client: Client, h: Height, hash: TxHash, idxs: seq<Byte>): map<CoinID, CoinData>
  {
    if idxs == [] then m
    else
      var prev := Override(m, client, h, hash, idxs[..|idxs| - 1]);
      var id := CoinID(hash, idxs[|idxs| - 1]);
      match SnapCoin(client, h, id)
      case Some(d) => prev[id := d]
      case None => prev - {id}
  }

  /** One transaction's effect on `new_coins`: its outputs, then its overrides. */
  function TxCoins(m: map<CoinID, CoinData>, client: Client, h: Height, tx: Transaction): map<CoinID, CoinData>
  {
    Override(InsertOutputs(m, tx.hashNosigs, tx.outputs), client, h, tx.hashNosigs, OverrideIndices(tx))
  }

  function NewCoinsFold(m: map<CoinID, CoinData>, client: Client, h: Height, txs: seq<Transaction>): map<CoinID, CoinData>
  {
    if txs == [] then m
    else TxCoins(NewCoinsFold(m, client, h, txs[..|txs| - 1]), client, h, txs[|txs| - 1])
  }

  /** The proposer-reward coin, when the snapshot has it: where `new_coins` starts. */
  function RewardStart(client: Client, h: Height): map<CoinID, CoinData>
  {
    match SnapCoin(client, h, ProposerReward(client, h))
    case Some(d) => map[ProposerReward(client, h) := d]
    case None => map[]
  }

  /** The `new_coins` map the indexer builds for block `blk` at height `h`. */
  function NewCoins(client: Client, h: Height, blk: Block): map<CoinID, CoinData>
  {
    NewCoinsFold(RewardStart(client, h), client, h, blk.transactions)
  }

  /**
   * The last of the first `n` outputs whose index truncates to `b`: later
   * inserts under the same `CoinID` overwrite earlier ones.
   */
  function LastSlot(n: nat, b: Byte): (r: nat)
    requires b < n
    ensures r < n && r % 256 == b && n <= r + 256
  {
    b + 256 * ((n - 1 - b) / 256)
  }

  lemma SlotUnique(n: nat, b: Byte, r: nat, s: nat)
    requires r < n && r % 256 == b && n <= r + 256
    requires s < n && s % 256 == b && n <= s + 256
    ensures r == s
  {
    var qr, qs := r / 256, s / 256;
    assert r == 256 * qr + b && s == 256 * qs + b;
    assert r - s == 256 * (qr - qs);
  }

  /** The last slot among `n` outputs is output `n - 1` itself or the last slot among the first `n - 1`. */
  lemma LastSlotStep(n: nat, b: Byte)
    requires b < n
    ensures (n - 1) % 256 == b ==> LastSlot(n, b) == n - 1
    ensures (n - 1) % 256 != b ==> b < n - 1 && LastSlot(n, b) == LastSlot(n - 1, b)
  {
    if (n - 1) % 256 == b {
      SlotUnique(n, b, n - 1, LastSlot(n, b));
    } else {
      assert b != n - 1;
      SlotUnique(n, b, LastSlot(n - 1, b), LastSlot(n, b));
    }
  }

  /** The declared output a transaction writes under `id`, if any. */
  function OutputAt(tx: Transaction, id: CoinID): Option<CoinData>
  {
    if id.txhash == tx.hashNosigs && id.index < |tx.outputs| then Some(tx.outputs[LastSlot(|tx.outputs|, id.index)])
    else None
  }

  predicate Overridden(tx: Transaction, id: CoinID)
  {
    id.txhash == tx.hashNosigs && id.index in OverrideIndices(tx)
  }

  predicate Touches(tx: Transaction, id: CoinID)
  {
    Overridden(tx, id) || OutputAt(tx, id).Some?
  }

  /** What a transaction that touches `id` leaves under it: the snapshot's word if it overrides it. */
  function Written(client: Client, h: Height, tx: Transaction, id: CoinID): Option<CoinData>
  {
    if Overridden(tx, id) then SnapCoin(client, h, id) else OutputAt(tx, id)
  }

  /**
   * Reference definition, one `CoinID` at a time: the last transaction
   * that touches `id` decides it; untouched, it keeps its starting entry.
   */
  function NewCoinAt(start: map<CoinID, CoinData>, client: Client, h: Height, txs: seq<Transaction>, id: CoinID): Option<CoinData>
  {
    if txs == [] then Get(start, id)
    else if Touches(txs[|txs| - 1], id) then Written(client, h, txs[|txs| - 1], id)
    else NewCoinAt(start, client, h, txs[..|txs| - 1], id)
  }

  lemma {:induction false} InsertOutputsAt(m: map<CoinID, CoinData>, hash: TxHash, outs: seq<CoinData>, id: CoinID)
    ensures Get(InsertOutputs(m, hash, outs), id) ==
      if id.txhash == hash && id.index < |outs| then Some(outs[LastSlot(|outs|, id.index)]) else Get(m, id)
  {
    if outs != [] {
      var n := |outs|;
      var init := outs[..n - 1];
      InsertOutputsAt(m, hash, init, id);
      if id.txhash == hash && id.index < n {
        LastSlotStep(n, id.index);
        if (n - 1) % 256 != id.index {
          assert init[LastSlot(n - 1, id.index)] == outs[LastSlot(n - 1, id.index)];
        }
      }
    }
  }

  lemma {:induction false} OverrideAt(m: map<CoinID, CoinData>, client: Client, h: Height, hash: TxHash, idxs: seq<Byte>, id: CoinID)
    ensures Get(Override(m, client, h, hash, idxs), id) ==
      if id.txhash == hash && id.index in idxs then SnapCoin(client, h, id) else Get(m, id)
  {
    if idxs != [] {
      var init := idxs[..|idxs| - 1];
      OverrideAt(m, client, h, hash, init, id);
      assert idxs == init + [idxs[|idxs| - 1]];
    }
  }

  /** One transaction rewrites exactly the entries it touches. */
  lemma TxCoinsAt(m: map<CoinID, CoinData>, client: Client, h: Height, tx: Transaction, id: CoinID)
    ensures Get(TxCoins(m, client, h, tx), id) == if Touches(tx, id) then Written(client, h, tx, id) else Get(m, id)
  {
    InsertOutputsAt(m, tx.hashNosigs, tx.outputs, id);
    OverrideAt(InsertOutputs(m, tx.hashNosigs, tx.outputs), client, h, tx.hashNosigs, OverrideIndices(tx), id);
  }

  /** The map the indexer builds agrees with the per-`CoinID` reference everywhere. */
  lemma {:induction false} NewCoinsFoldAt(m: map<CoinID, CoinData>, client: Client, h: Height, txs: seq<Transaction>, id: CoinID)
    ensures Get(NewCoinsFold(m, client, h, txs), id) == NewCoinAt(m, client, h, txs, id)
  {
    if txs != [] {
      NewCoinsFoldAt(m, client, h, txs[..|txs| - 1], id);
      TxCoinsAt(NewCoinsFold(m, client, h, txs[..|txs| - 1]), client, h, txs[|txs| - 1], id);
    }
  }

  /**
   * Where a coin in `new_coins` comes from: the snapshot says so (the
   * proposer reward and every override), or some transaction declares it
   * as an output it does not override.
   */
  lemma {:induction false} NewCoinProvenance(client: Client, h: Height, txs: seq<Transaction>, id: CoinID, d: CoinData)
    requires NewCoinAt(RewardStart(client, h), client, h, txs, id) == Some(d)
    ensures SnapCoin(client, h, id) == Some(d)
         || exists j | 0 <= j < |txs| :: OutputAt(txs[j], id) == Some(d) && !Overridden(txs[j], id)
  {
    if txs != [] {
      var last := txs[|txs| - 1];
      var init := txs[..|txs| - 1];
      if !Touches(last, id) {
        NewCoinProvenance(client, h, init, id, d);
        if exists j | 0 <= j < |init| :: OutputAt(init[j], id) == Some(d) && !Overridden(init[j], id) {
          var j :| 0 <= j < |init| && OutputAt(init[j], id) == Some(d) && !Overridden(init[j], id);
          assert init[j] == txs[j];
        }
      } else if !Overridden(last, id) {
        assert OutputAt(txs[|txs| - 1], id) == Some(d);
      }
    }
  }

  /**
   * An output the snapshot does not have is never inserted when every
   * transaction with that hash overrides it.
   */
  lemma NeverInsertedWhenSnapshotLacksIt(client: Client, h: Height, blk: Block, id: CoinID)
    requires SnapCoin(client, h, id).None?
    requires forall j | 0 <= j < |blk.transactions| :: blk.transactions[j].hashNosigs == id.txhash ==> Overridden(blk.transactions[j], id)
    ensures id !in NewCoins(client, h, blk)
  {
    NewCoinsFoldAt(RewardStart(client, h), client, h, blk.transactions, id);
    if id in NewCoins(client, h, blk) {
      NewCoinProvenance(client, h, blk.transactions, id, NewCoins(client, h, blk)[id]);
    }
  }

  // ---------------------------------------------------------------------
  // spent_coins

  /** Who spends a coin: a transaction's `hash_nosigs` and the input position. */
  datatype SpendBy = SpendBy(txhash: TxHash, index: nat)

  /** Each input in turn records the spending transaction and the input's position; a later one overwrites an earlier one. */
  function InsertInputs(m: map<CoinID, SpendBy>, hash: TxHash, ins: seq<CoinID>): map<CoinID, SpendBy>
  {
    if ins == [] then m
    else InsertInputs(m, hash, ins[..|ins| - 1])[ins[|ins| - 1] := SpendBy(hash, |ins| - 1)]
  }

  function SpentFold(m: map<CoinID, SpendBy>, txs: seq<Transaction>): map<CoinID, SpendBy>
  {
    if txs == [] then m
    else
      var tx := txs[|txs| - 1];
      InsertInputs(SpentFold(m, txs[..|txs| - 1]), tx.hashNosigs, tx.inputs)
  }

  /** The `spent_coins` map for a block's transactions. */
  function Spent(txs: seq<Transaction>): map<CoinID, SpendBy>
  {
    SpentFold(map[], txs)
  }

  /** The position of the last occurrence of `id` in `ins`. */
  function LastIndexOf(ins: seq<CoinID>, id: CoinID): (k: nat)
    requires id in ins
    ensures k < |ins| && ins[k] == id && forall j | k < j < |ins| :: ins[j] != id
  {
    if ins[|ins| - 1] == id then |ins| - 1 else LastIndexOf(ins[..|ins| - 1], id)
  }

  /** Reference definition: the last transaction spending `id`, at the last input that names it. */
  function SpentAt(txs: seq<Transaction>, id: CoinID): Option<SpendBy>
  {
    if txs == [] then None
    else if id in txs[|txs| - 1].inputs then Some(SpendBy(txs[|txs| - 1].hashNosigs, LastIndexOf(txs[|txs| - 1].inputs, id)))
    else SpentAt(txs[..|txs| - 1], id)
  }

  lemma {:induction false} InsertInputsAt(m: map<CoinID, SpendBy>, hash: TxHash, ins: seq<CoinID>, id: CoinID)
    ensures Get(InsertInputs(m, hash, ins), id) == if id in ins then Some(SpendBy(hash, LastIndexOf(ins, id))) else Get(m, id)
  {
    if ins != [] {
      var init := ins[..|ins| - 1];
      InsertInputsAt(m, hash, init, id);
      assert ins == init + [ins[|ins| - 1]];
    }
  }

  lemma {:induction false} SpentFoldAt(txs: seq<Transaction>, id: CoinID)
    ensures Get(Spent(txs), id) == SpentAt(txs, id)
  {
    if txs != [] {
      var tx := txs[|txs| - 1];
      SpentFoldAt(txs[..|txs| - 1], id);
      InsertInputsAt(Spent(txs[..|txs| - 1]), tx.hashNosigs, tx.inputs, id);
    }
  }

  /** Transaction `j` spends `id` at input `s.index`, and no later transaction spends it. */
  predicate LastSpender(txs: seq<Transaction>, id: CoinID, j: int, s: SpendBy)
  {
    && 0 <= j < |txs|
    && txs[j].hashNosigs == s.txhash
    && s.index < |txs[j].inputs| && txs[j].inputs[s.index] == id
    && forall j' | j < j' < |txs| :: id !in txs[j'].inputs
  }

  lemma {:induction false} SpentAtMeaning(txs: seq<Transaction>, id: CoinID)
    ensures SpentAt(txs, id).Some? <==> exists j | 0 <= j < |txs| :: id in txs[j].inputs
    ensures SpentAt(txs, id).Some? ==> exists j :: LastSpender(txs, id, j, SpentAt(txs, id).value)
  {
    if txs != [] {
      var n := |txs|;
      var init := txs[..n - 1];
      if id in txs[n - 1].inputs {
        assert LastSpender(txs, id, n - 1, SpentAt(txs, id).value);
      } else {
        SpentAtMeaning(init, id);
        assert SpentAt(txs, id) == SpentAt(init, id);
        if SpentAt(init, id).Some? {
          var j :| LastSpender(init, id, j, SpentAt(init, id).value);
          assert init[j] == txs[j];
          assert LastSpender(txs, id, j, SpentAt(txs, id).value);
        }
        if exists j | 0 <= j < n :: id in txs[j].inputs {
          var j :| 0 <= j < n && id in txs[j].inputs;
          assert init[j] == txs[j];
        }
      }
    }
  }

  /**
   * A coin is in `spent_coins` exactly when some transaction of the block
   * spends it, and then it records the LAST such transaction: that one
   * names it at the recorded input, and no later one spends it.
   */
  lemma SpentMeaning(txs: seq<Transaction>, id: CoinID)
    ensures id in Spent(txs) <==> exists j | 0 <= j < |txs| :: id in txs[j].inputs
    ensures id in Spent(txs) ==> exists j :: LastSpender(txs, id, j, Spent(txs)[id])
  {
    SpentFoldAt(txs, id);
    SpentAtMeaning(txs, id);
  }

  // ---------------------------------------------------------------------
  // The writes of one height.

  /** The row written for a new coin: its creation columns and data, the three spend columns NULL. */
  function FreshRow(id: CoinID, h: Height, d: CoinData): CoinRow
  {
    CoinRow(id.txhash, id.index, h, None, None, None, ToBeBytes(d.value), d.denom, d.covhash, d.additionalData)
  }

  /** A freshly written coin row decodes to the coin it was written from. */
  lemma FreshRowDecodes(id: CoinID, h: Height, d: CoinData)
    ensures Decode(FreshRow(id, h, d)) == Ok(CoinInfo(id.txhash, id.index, h, d, None))
    ensures CoinRowWF(KeyOf(id, h), FreshRow(id, h, d))
  {
    RoundTripU128(d.value);
  }

  /** The inserts of `new_coins`, each ignored when its key is taken. */
  function InsertCoins(coins: map<CoinKey, CoinRow>, h: Height, newCoins: map<CoinID, CoinData>): map<CoinKey, CoinRow>
  {
    (map id | id in newCoins :: KeyOf(id, h) := FreshRow(id, h, newCoins[id])) + coins
  }

  /** A row after the spend update with `spent_coins`, at height `h`. */
  function SpendRow(r: CoinRow, h: Height, spent: map<CoinID, SpendBy>): CoinRow
  {
    if IdOf(r) in spent then
      r.(spendTxhash := Some(spent[IdOf(r)].txhash), spendIndex := Some(spent[IdOf(r)].index), spendHeight := Some(h))
    else r
  }

  /**
   * The spend update for every entry of `spent_coins`. It selects rows by
   * creating transaction and output index only, so it reaches a coin at
   * every creation height.
   */
  function ApplySpends(coins: map<CoinKey, CoinRow>, h: Height, spent: map<CoinID, SpendBy>): map<CoinKey, CoinRow>
  {
    map k | k in coins :: SpendRow(coins[k], h, spent)
  }

  function HeadRowOf(h: Height, header: Header): HeadRow
  {
    HeadRow(h, header.hash, ToBeBytes(header.feePool), ToBeBytes(header.feeMultiplier), ToBeBytes(header.doscSpeed))
  }

  /** `insert into headvars`, ignored when the height is there already. */
  function InsertHead(headvars: map<Height, HeadRow>, h: Height, header: Header): map<Height, HeadRow>
  {
    if h in headvars then headvars else headvars[h := HeadRowOf(h, header)]
  }

  function StakeRowOf(doc: StakeDoc): StakeRow
  {
    StakeRow(doc.pubkey, doc.eStart, doc.ePostEnd, ToBeBytes(doc.symsStaked))
  }

  /** `insert into stakes` for every fetched stake document, each ignored on a taken hash. */
  function InsertStakes(stakes: map<TxHash, StakeRow>, docs: map<TxHash, StakeDoc>): map<TxHash, StakeRow>
  {
    (map t | t in docs :: StakeRowOf(docs[t])) + stakes
  }

  /** At most the first `n` bytes of `d`. */
  function Truncate(d: seq<Byte>, n: nat): seq<Byte>
  {
    if |d| <= n then d else d[..n]
  }

  function TxRowOf(tx: Transaction): TxRow
  {
    TxRow(tx.kind, ToBeBytes(tx.fee), tx.covenants, Truncate(tx.data, 1024), tx.sigs)
  }

  /** The txvars `data` column keeps at most the first kilobyte of the data. */
  lemma TxRowKeepsFirstKilobyte(tx: Transaction)
    ensures |TxRowOf(tx).data| == if |tx.data| <= 1024 then |tx.data| else 1024
    ensures TxRowOf(tx).data <= tx.data
  {
  }

  /** `insert into txvars` for the block's transactions in order, each ignored on a taken hash. */
  function InsertTxs(txvars: map<TxHash, TxRow>, txs: seq<Transaction>): map<TxHash, TxRow>
  {
    if txs == [] then txvars
    else
      var m := InsertTxs(txvars, txs[..|txs| - 1]);
      var tx := txs[|txs| - 1];
      if tx.hashNosigs in m then m else m[tx.hashNosigs := TxRowOf(tx)]
  }

  /** Reference definition, read from the front: the first transaction with hash `t`. */
  function FirstTx(txs: seq<Transaction>, t: TxHash): Option<Transaction>
  {
    if txs == [] then None
    else if txs[0].hashNosigs == t then Some(txs[0])
    else FirstTx(txs[1..], t)
  }

  lemma {:induction false} FirstTxSnoc(txs: seq<Transaction>, tx: Transaction, t: TxHash)
    ensures FirstTx(txs + [tx], t) ==
      if FirstTx(txs, t).Some? then FirstTx(txs, t) else if tx.hashNosigs == t then Some(tx) else None
  {
    if txs == [] {
      assert [tx][1..] == [];
    } else {
      assert (txs + [tx])[0] == txs[0];
      assert (txs + [tx])[1..] == txs[1..] + [tx];
      FirstTxSnoc(txs[1..], tx, t);
    }
  }

  /**
   * A txvars row is kept as it was, or comes from the FIRST transaction of
   * the block with that hash.
   */
  lemma {:induction false} InsertTxsAt(txvars: map<TxHash, TxRow>, txs: seq<Transaction>, t: TxHash)
    ensures Get(InsertTxs(txvars, txs), t) ==
      if t in txvars then Some(txvars[t])
      else match FirstTx(txs, t)
        case None => None
        case Some(tx) => Some(TxRowOf(tx))
  {
    if txs != [] {
      var init := txs[..|txs| - 1];
      InsertTxsAt(txvars, init, t);
      assert txs == init + [txs[|txs| - 1]];
      FirstTxSnoc(init, txs[|txs| - 1], t);
    }
  }

  /** Everything one height writes, gathered before the transaction opens. */
  datatype Writes = Writes(
    newCoins: map<CoinID, CoinData>,
    spent: map<CoinID, SpendBy>,
    stakes: Option<map<TxHash, StakeDoc>>)

  /**
   * The database transaction for height `h`: coin inserts, then the spend
   * updates, then the headvars row, the stakes and the txvars rows. It is
   * applied whole or not at all.
   */
  function Commit(t: Tables, h: Height, blk: Block, w: Writes): Tables
  {
    Tables(
      ApplySpends(InsertCoins(t.coins, h, w.newCoins), h, w.spent),
      InsertHead(t.headvars, h, blk.header),
      match w.stakes
      case None => t.stakes
      case Some(docs) => InsertStakes(t.stakes, docs),
      InsertTxs(t.txvars, blk.transactions))
  }

  /**
   * Inserting coins keeps every existing row as it was (so reapplying a
   * block leaves creation columns alone) and adds a fresh row for each
   * new coin whose key is free.
   */
  lemma InsertCoinsAt(coins: map<CoinKey, CoinRow>, h: Height, newCoins: map<CoinID, CoinData>, k: CoinKey)
    ensures Get(InsertCoins(coins, h, newCoins), k) ==
      if k in coins then Some(coins[k])
      else if k.height == h && CoinID(k.txhash, k.index) in newCoins then
        Some(FreshRow(CoinID(k.txhash, k.index), h, newCoins[CoinID(k.txhash, k.index)]))
      else None
  {
    if k !in coins && k.height == h && CoinID(k.txhash, k.index) in newCoins {
      assert KeyOf(CoinID(k.txhash, k.index), h) == k;
    }
  }

  /**
   * The spend update sets the three spend columns of every row whose
   * creation columns name a spent coin, overwriting any earlier spend,
   * and touches nothing else.
   */
  lemma ApplySpendsAt(coins: map<CoinKey, CoinRow>, h: Height, spent: map<CoinID, SpendBy>, k: CoinKey)
    ensures k in ApplySpends(coins, h, spent) <==> k in coins
    ensures k in coins && IdOf(coins[k]) !in spent ==> ApplySpends(coins, h, spent)[k] == coins[k]
    ensures k in coins && IdOf(coins[k]) in spent ==>
      var r, s := ApplySpends(coins, h, spent)[k], spent[IdOf(coins[k])];
      && r.spendTxhash == Some(s.txhash) && r.spendIndex == Some(s.index) && r.spendHeight == Some(h)
      && r.(spendTxhash := None, spendIndex := None, spendHeight := None)
         == coins[k].(spendTxhash := None, spendIndex := None, spendHeight := None)
  {
  }

  /** Inserts precede updates: a coin created and spent in one block ends up spent. */
  lemma CreatedAndSpentInOneBlock(t: Tables, h: Height, blk: Block, w: Writes, id: CoinID)
    requires WF(t)
    requires id in w.newCoins && id in w.spent
    ensures KeyOf(id, h) in Commit(t, h, blk, w).coins
    ensures Commit(t, h, blk, w).coins[KeyOf(id, h)].spendTxhash == Some(w.spent[id].txhash)
    ensures Commit(t, h, blk, w).coins[KeyOf(id, h)].spendHeight == Some(h)
  {
    var k := KeyOf(id, h);
    InsertCoinsAt(t.coins, h, w.newCoins, k);
    var ins := InsertCoins(t.coins, h, w.newCoins);
    assert IdOf(ins[k]) == id;
    ApplySpendsAt(ins, h, w.spent, k);
  }

  lemma {:induction false} InsertTxsIdempotent(txvars: map<TxHash, TxRow>, txs: seq<Transaction>)
    ensures InsertTxs(InsertTxs(txvars, txs), txs) == InsertTxs(txvars, txs)
  {
    var once := InsertTxs(txvars, txs);
    forall t ensures Get(InsertTxs(once, txs), t) == Get(once, t) {
      InsertTxsAt(txvars, txs, t);
      InsertTxsAt(once, txs, t);
    }
    MapsEqualByGet(InsertTxs(once, txs), once);
  }

  lemma InsertCoinsAgain(coins: map<CoinKey, CoinRow>, h: Height, newCoins: map<CoinID, CoinData>, spent: map<CoinID, SpendBy>)
    ensures var once := ApplySpends(InsertCoins(coins, h, newCoins), h, spent);
            InsertCoins(once, h, newCoins) == once
  {
    var ins := InsertCoins(coins, h, newCoins);
    var once := ApplySpends(ins, h, spent);
    forall k ensures Get(InsertCoins(once, h, newCoins), k) == Get(once, k) {
      InsertCoinsAt(once, h, newCoins, k);
      InsertCoinsAt(coins, h, newCoins, k);
      ApplySpendsAt(ins, h, spent, k);
    }
    MapsEqualByGet(InsertCoins(once, h, newCoins), once);
  }

  lemma SpendsAgain(coins: map<CoinKey, CoinRow>, h: Height, spent: map<CoinID, SpendBy>)
    ensures ApplySpends(ApplySpends(coins, h, spent), h, spent) == ApplySpends(coins, h, spent)
  {
  }

  lemma RecommitKeepsCoins(coins: map<CoinKey, CoinRow>, h: Height, newCoins: map<CoinID, CoinData>, spent: map<CoinID, SpendBy>)
    ensures var once := ApplySpends(InsertCoins(coins, h, newCoins), h, spent);
            ApplySpends(InsertCoins(once, h, newCoins), h, spent) == once
  {
    InsertCoinsAgain(coins, h, newCoins, spent);
    SpendsAgain(InsertCoins(coins, h, newCoins), h, spent);
  }

  /**
   * Committing a height a second time, as the pass that resumes at the
   * highest indexed height does, leaves coins, headvars and txvars as the
   * first commit left them, whatever stakes it brings.
   */
  lemma RecommitKeepsRows(t: Tables, h: Height, blk: Block, w: Writes, stakes: Option<map<TxHash, StakeDoc>>)
    ensures var once := Commit(t, h, blk, w);
            var twice := Commit(once, h, blk, w.(stakes := stakes));
            twice.coins == once.coins && twice.headvars == once.headvars && twice.txvars == once.txvars
  {
    var once := Commit(t, h, blk, w);
    RecommitKeepsCoins(t.coins, h, w.newCoins, w.spent);
    InsertTxsIdempotent(t.txvars, blk.transactions);
  }

  /** The same commit twice is the commit once. */
  lemma CommitIdempotent(t: Tables, h: Height, blk: Block, w: Writes)
    ensures Commit(Commit(t, h, blk, w), h, blk, w) == Commit(t, h, blk, w)
  {
    RecommitKeepsRows(t, h, blk, w, w.stakes);
    var once := Commit(t, h, blk, w);
    if w.stakes.Some? {
      var added := map x | x in w.stakes.value :: StakeRowOf(w.stakes.value[x]);
      assert once.stakes == added + t.stakes;
      assert added + (added + t.stakes) == added + t.stakes;
    }
  }

  /** Each coin row after the commit is well formed and created at an indexed height or at `h`. */
  lemma CommitCoinWF(t: Tables, h: Height, w: Writes, k: CoinKey)
    requires WF(t)
    requires forall x | x in t.headvars :: x <= h
    requires k in ApplySpends(InsertCoins(t.coins, h, w.newCoins), h, w.spent)
    ensures CoinRowWF(k, ApplySpends(InsertCoins(t.coins, h, w.newCoins), h, w.spent)[k])
    ensures k.height in t.headvars || k.height == h
  {
    var ins := InsertCoins(t.coins, h, w.newCoins);
    InsertCoinsAt(t.coins, h, w.newCoins, k);
    ApplySpendsAt(ins, h, w.spent, k);
    if k !in t.coins {
      FreshRowDecodes(CoinID(k.txhash, k.index), h, w.newCoins[CoinID(k.txhash, k.index)]);
    }
  }

  /** The head insert keeps every head row well formed and adds `h`. */
  lemma InsertHeadWF(headvars: map<Height, HeadRow>, h: Height, header: Header)
    requires forall x | x in headvars :: HeadRowWF(x, headvars[x])
    ensures forall x | x in InsertHead(headvars, h, header) :: HeadRowWF(x, InsertHead(headvars, h, header)[x])
    ensures InsertHead(headvars, h, header).Keys == headvars.Keys + {h}
  {
  }

  /**
   * A commit keeps the store well formed, provided no height above `h`
   * is indexed yet (true when the pass moves upwards from the highest
   * indexed height).
   */
  lemma CommitPreservesWF(t: Tables, h: Height, blk: Block, w: Writes)
    requires WF(t)
    requires forall x | x in t.headvars :: x <= h
    ensures WF(Commit(t, h, blk, w))
    ensures Commit(t, h, blk, w).headvars.Keys == t.headvars.Keys + {h}
  {
    var c := Commit(t, h, blk, w);
    InsertHeadWF(t.headvars, h, blk.header);
    forall k | k in c.coins ensures CoinRowWF(k, c.coins[k]) && k.height in c.headvars {
      CommitCoinWF(t, h, w, k);
    }
  }

  // ---------------------------------------------------------------------
  // A pass over heights.

  /** Every snapshot lookup of the outputs `idxs` of transaction `hash` succeeds. */
  predicate LookupsOk(client: Client, h: Height, hash: TxHash, idxs: seq<Byte>)
  {
    idxs == [] ||
    (LookupsOk(client, h, hash, idxs[..|idxs| - 1]) && client.coin(h, CoinID(hash, idxs[|idxs| - 1])).Ok?)
  }

  /** Every snapshot lookup the transactions `txs` need succeeds. */
  predicate TxsLookupsOk(client: Client, h: Height, txs: seq<Transaction>)
  {
    txs == [] ||
    (TxsLookupsOk(client, h, txs[..|txs| - 1]) &&
     TxOk(client, h, txs[|txs| - 1]))
  }

  /** Every snapshot lookup of the outputs one transaction overrides succeeds. */
  predicate TxOk(client: Client, h: Height, tx: Transaction)
  {
    LookupsOk(client, h, tx.hashNosigs, OverrideIndices(tx))
  }

  /** Every coin lookup the block at `h` needs: the proposer reward and each override. */
  predicate SnapshotsOk(client: Client, h: Height, blk: Block)
  {
    client.coin(h, ProposerReward(client, h)).Ok? && TxsLookupsOk(client, h, blk.transactions)
  }

  lemma {:induction false} LookupsOkMeaning(client: Client, h: Height, hash: TxHash, idxs: seq<Byte>)
    ensures LookupsOk(client, h, hash, idxs) <==> forall k | 0 <= k < |idxs| :: client.coin(h, CoinID(hash, idxs[k])).Ok?
  {
    if idxs != [] {
      var init := idxs[..|idxs| - 1];
      LookupsOkMeaning(client, h, hash, init);
      assert forall k | 0 <= k < |init| :: init[k] == idxs[k];
    }
  }

  lemma {:induction false} TxsLookupsOkMeaning(client: Client, h: Height, txs: seq<Transaction>)
    ensures TxsLookupsOk(client, h, txs) <==> forall j | 0 <= j < |txs| :: TxOk(client, h, txs[j])
  {
    if txs != [] {
      var init := txs[..|txs| - 1];
      TxsLookupsOkMeaning(client, h, init);
      if TxsLookupsOk(client, h, txs) {
        forall j | 0 <= j < |txs|
          ensures TxOk(client, h, txs[j])
        {
          if j < |init| {
            assert init[j] == txs[j];
          }
        }
      } else if TxsLookupsOk(client, h, init) {
        assert !TxOk(client, h, txs[|txs| - 1]);
      } else {
        var j :| 0 <= j < |init| && !TxOk(client, h, init[j]);
        assert init[j] == txs[j];
      }
    }
  }

  /**
   * The lookups of a block succeed exactly when the proposer-reward
   * lookup and every lookup of every transaction's outputs succeed.
   */
  lemma SnapshotsOkMeaning(client: Client, h: Height, blk: Block)
    ensures SnapshotsOk(client, h, blk) <==>
      && client.coin(h, ProposerReward(client, h)).Ok?
      && forall j, k | 0 <= j < |blk.transactions| && 0 <= k < |OverrideIndices(blk.transactions[j])| ::
           client.coin(h, CoinID(blk.transactions[j].hashNosigs, OverrideIndices(blk.transactions[j])[k])).Ok?
  {
    var txs := blk.transactions;
    TxsLookupsOkMeaning(client, h, txs);
    forall j | 0 <= j < |txs| {
      LookupsOkMeaning(client, h, txs[j].hashNosigs, OverrideIndices(txs[j]));
    }
  }

  /** A failed lookup among the first transactions fails the block's lookups. */
  lemma {:induction false} TxsLookupsOkPrefix(client: Client, h: Height, txs: seq<Transaction>, j: nat)
    requires j <= |txs| && TxsLookupsOk(client, h, txs)
    ensures TxsLookupsOk(client, h, txs[..j])
  {
    if j < |txs| {
      var init := txs[..|txs| - 1];
      TxsLookupsOkPrefix(client, h, init, j);
      assert init[..j] == txs[..j];
    } else {
      assert txs[..j] == txs;
    }
  }

  /** A failed lookup among the first outputs fails the transaction's lookups. */
  lemma {:induction false} LookupsOkPrefix(client: Client, h: Height, hash: TxHash, idxs: seq<Byte>, k: nat)
    requires k <= |idxs| && LookupsOk(client, h, hash, idxs)
    ensures LookupsOk(client, h, hash, idxs[..k])
  {
    if k < |idxs| {
      var init := idxs[..|idxs| - 1];
      LookupsOkPrefix(client, h, hash, init, k);
      assert init[..k] == idxs[..k];
    } else {
      assert idxs[..k] == idxs;
    }
  }

  /** Whether the stakes are fetched: only when the stakes hash moved since the last block of the pass. */
  predicate FetchStakes(last: Option<HashVal>, blk: Block)
  {
    last != Some(blk.header.stakesHash)
  }

  datatype StepResult = StepResult(tables: Tables, lastStakes: Option<HashVal>)

  /** The block at `h` and everything it will write. */
  datatype Fetched = Fetched(blk: Block, writes: Writes)

  /**
   * The requests of one iteration at height `h`, in the order they are
   * made: the block, the coin lookups, and the stakers when the stakes
   * hash moved. Nothing is written yet.
   */
  function Fetch(client: Client, h: Height, last: Option<HashVal>): Result<Fetched, NetError>
  {
    match client.block(h)
    case Err(e) => Err(e)
    case Ok(blk) =>
      if !SnapshotsOk(client, h, blk) then Err(NetError)
      else
        match (if FetchStakes(last, blk) then client.stakers(h) else Ok(None))
        case Err(e) => Err(e)
        case Ok(stakes) => Ok(Fetched(blk, Writes(NewCoins(client, h, blk), Spent(blk.transactions), stakes)))
  }

  /**
   * One iteration of the pass at height `h`: all requests first, then the
   * commit. Any failed request ends the pass with nothing written for `h`.
   */
  function Step(t: Tables, client: Client, h: Height, last: Option<HashVal>): Result<StepResult, NetError>
  {
    match Fetch(client, h, last)
    case Err(e) => Err(e)
    case Ok(f) => Ok(StepResult(Commit(t, h, f.blk, f.writes), Some(f.blk.header.stakesHash)))
  }

  /**
   * When the stakes hash did not move, the stakers are not asked for: the
   * iteration succeeds exactly when the coin lookups do, whatever the
   * stakers request would answer, and leaves the stakes table alone.
   */
  lemma StepKeepsStakesWhenUnchanged(t: Tables, client: Client, h: Height, last: Option<HashVal>)
    requires client.block(h).Ok? && last == Some(client.block(h).value.header.stakesHash)
    ensures Step(t, client, h, last).Ok? <==> SnapshotsOk(client, h, client.block(h).value)
    ensures Step(t, client, h, last).Ok? ==>
      Step(t, client, h, last).value.tables.stakes == t.stakes && Step(t, client, h, last).value.lastStakes == last
  {
  }

  /**
   * When the stakes hash moved, the stakers are fetched: the iteration
   * fails exactly when that request does, and otherwise inserts what it
   * returned.
   */
  lemma StepFetchesStakesWhenMoved(t: Tables, client: Client, h: Height, last: Option<HashVal>)
    requires client.block(h).Ok? && last != Some(client.block(h).value.header.stakesHash)
    requires SnapshotsOk(client, h, client.block(h).value)
    ensures Step(t, client, h, last).Ok? <==> client.stakers(h).Ok?
    ensures Step(t, client, h, last).Ok? ==>
      && Step(t, client, h, last).value.tables.stakes
         == (match client.stakers(h).value
             case None => t.stakes
             case Some(docs) => InsertStakes(t.stakes, docs))
      && Step(t, client, h, last).value.lastStakes == Some(client.block(h).value.header.stakesHash)
  {
  }

  lemma StepPreservesWF(t: Tables, client: Client, h: Height, last: Option<HashVal>)
    requires WF(t) && forall x | x in t.headvars :: x <= h
    requires Step(t, client, h, last).Ok?
    ensures WF(Step(t, client, h, last).value.tables)
    ensures Step(t, client, h, last).value.tables.headvars.Keys == t.headvars.Keys + {h}
  {
    var f := Fetch(client, h, last).value;
    CommitPreservesWF(t, h, f.blk, f.writes);
  }

  datatype PassState = PassState(tables: Tables, lastStakes: Option<HashVal>, outcome: Result<(), NetError>)

  /** An iteration of a pass, as a function of the store, the height and the last stakes hash. */
  type StepFn = (Tables, Height, Option<HashVal>) -> Result<StepResult, NetError>

  /** The iteration the indexer runs against `client`. */
  function StepOf(client: Client): StepFn
  {
    (t: Tables, h: Height, last: Option<HashVal>) => Step(t, client, h, last)
  }

  /**
   * One more iteration at height `h`, unless the pass has already
   * stopped: a failed request stops it with the store as it was.
   */
  function Advance(p: PassState, step: StepFn, h: Height): PassState
  {
    if p.outcome.Err? then p
    else
      match step(p.tables, h, p.lastStakes)
      case Err(e) => PassState(p.tables, p.lastStakes, Err(e))
      case Ok(s) => PassState(s.tables, s.lastStakes, Ok(()))
  }

  /**
   * The first `n` iterations of a pass starting at `start`, stopping at
   * the first failure; `last_stakes` starts out as `None`.
   */
  function Pass(t: Tables, step: StepFn, start: Height, n: nat): PassState
  {
    if n == 0 then PassState(t, None, Ok(()))
    else Advance(Pass(t, step, start, n - 1), step, start + n - 1)
  }

  /**
   * An iteration that keeps the invariant `inv` of the store and indexes
   * exactly its height (for the indexer, `inv` is `WF`).
   */
  ghost predicate IndexesItsHeight(step: StepFn, inv: Tables -> bool)
  {
    forall t: Tables, h: Height, last: Option<HashVal> |
      inv(t) && (forall x | x in t.headvars :: x <= h) && step(t, h, last).Ok? ::
        inv(step(t, h, last).value.tables) && step(t, h, last).value.tables.headvars.Keys == t.headvars.Keys + {h}
  }

  lemma StepOfIndexesItsHeight(client: Client)
    ensures IndexesItsHeight(StepOf(client), WF)
  {
    forall t: Tables, h: Height, last: Option<HashVal> |
      WF(t) && (forall x | x in t.headvars :: x <= h) && StepOf(client)(t, h, last).Ok?
      ensures WF(StepOf(client)(t, h, last).value.tables)
      ensures StepOf(client)(t, h, last).value.tables.headvars.Keys == t.headvars.Keys + {h}
    {
      StepPreservesWF(t, client, h, last);
    }
  }

  /** The heights `start..start + m`. */
  function HeightsFrom(start: Height, m: nat): (r: set<Height>)
    ensures forall x | x in r :: start <= x < start + m
    ensures m > 0 ==> start + m - 1 in r
  {
    if m == 0 then {} else HeightsFrom(start, m - 1) + {start + m - 1}
  }

  /** How many heights of the first `n` iterations of a pass were committed. */
  function Completed(t: Tables, step: StepFn, start: Height, n: nat): (m: nat)
    ensures m <= n
    ensures Pass(t, step, start, n).outcome.Ok? ==> m == n
  {
    if n == 0 || Pass(t, step, start, n).outcome.Ok? then n
    else Completed(t, step, start, n - 1)
  }

  /** One iteration keeps the store well formed and indexes its height exactly when it succeeds. */
  lemma AdvanceIndexes(p: PassState, step: StepFn, h: Height, inv: Tables -> bool)
    requires IndexesItsHeight(step, inv)
    requires inv(p.tables) && forall x | x in p.tables.headvars :: x <= h
    ensures inv(Advance(p, step, h).tables)
    ensures Advance(p, step, h).outcome.Ok? ==> p.outcome.Ok?
    ensures Advance(p, step, h).tables.headvars.Keys
         == p.tables.headvars.Keys + (if Advance(p, step, h).outcome.Ok? && p.outcome.Ok? then {h} else {})
  {
  }

  /**
   * Heights are committed whole and in order: after a pass, the indexed
   * heights are the old ones plus an unbroken run from `start`, the whole
   * run when no request failed; the store stays well formed.
   */
  lemma {:induction false} PassCommitsInOrder(t: Tables, step: StepFn, start: Height, n: nat, inv: Tables -> bool)
    requires IndexesItsHeight(step, inv)
    requires inv(t) && forall x | x in t.headvars :: x <= start
    ensures inv(Pass(t, step, start, n).tables)
    ensures Pass(t, step, start, n).tables.headvars.Keys
         == t.headvars.Keys + HeightsFrom(start, Completed(t, step, start, n))
  {
    if n == 0 {
      assert t.headvars.Keys == t.headvars.Keys + HeightsFrom(start, 0);
    } else {
      PassCommitsInOrder(t, step, start, n - 1, inv);
      PassStep(t, step, start, n, inv);
    }
  }

  /** The inductive step of `PassCommitsInOrder`: from `n - 1` iterations to `n`. */
  lemma PassStep(t: Tables, step: StepFn, start: Height, n: nat, inv: Tables -> bool)
    requires IndexesItsHeight(step, inv) && n > 0
    requires forall x | x in t.headvars :: x <= start
    requires inv(Pass(t, step, start, n - 1).tables)
    requires Pass(t, step, start, n - 1).tables.headvars.Keys
          == t.headvars.Keys + HeightsFrom(start, Completed(t, step, start, n - 1))
    ensures inv(Pass(t, step, start, n).tables)
    ensures Pass(t, step, start, n).tables.headvars.Keys
         == t.headvars.Keys + HeightsFrom(start, Completed(t, step, start, n))
  {
    var p := Pass(t, step, start, n - 1);
    var h := start + n - 1;
    var run := HeightsFrom(start, Completed(t, step, start, n - 1));
    assert forall x | x in run :: x <= h;
    AdvanceIndexes(p, step, h, inv);
    if Pass(t, step, start, n).outcome.Ok? {
      PassStepCommits(t, step, start, n);
    } else {
      assert Completed(t, step, start, n) == Completed(t, step, start, n - 1);
    }
  }

  /** A successful `n`-th iteration adds height `start + n - 1` to the run. */
  lemma PassStepCommits(t: Tables, step: StepFn, start: Height, n: nat)
    requires n > 0 && Pass(t, step, start, n).outcome.Ok?
    requires Pass(t, step, start, n - 1).tables.headvars.Keys
          == t.headvars.Keys + HeightsFrom(start, Completed(t, step, start, n - 1))
    requires Pass(t, step, start, n).tables.headvars.Keys
          == Pass(t, step, start, n - 1).tables.headvars.Keys + {start + n - 1}
    ensures Pass(t, step, start, n).tables.headvars.Keys
         == t.headvars.Keys + HeightsFrom(start, Completed(t, step, start, n))
  {
    var h := start + n - 1;
    assert Completed(t, step, start, n) == n && Completed(t, step, start, n - 1) == n - 1;
    var run := HeightsFrom(start, n - 1);
    assert HeightsFrom(start, n) == run + {h};
    assert (t.headvars.Keys + run) + {h} == t.headvars.Keys + (run + {h});
  }

  /** After a pass, no indexed height lies above the last height it tried. */
  lemma PassStaysBelow(t: Tables, step: StepFn, start: Height, n: nat, inv: Tables -> bool)
    requires IndexesItsHeight(step, inv)
    requires inv(t) && forall x | x in t.headvars :: x <= start
    ensures forall x | x in Pass(t, step, start, n).tables.headvars :: x <= start || x < start + n
  {
    PassCommitsInOrder(t, step, start, n, inv);
    var m := Completed(t, step, start, n);
    assert forall x | x in HeightsFrom(start, m) :: x < start + m;
  }

  /** The greatest indexed height, 0 when none is: `coalesce(max(height), 0)`. */
  ghost function MaxHeightOf(heights: set<Height>): (r: Height)
    ensures heights == {} ==> r == 0
    ensures heights != {} ==> r in heights && forall x | x in heights :: x <= r
  {
    if heights == {} then 0
    else
      MaxExists(heights);
      var r :| r in heights && forall x | x in heights :: x <= r; r
  }

  /**
   * A pass from the highest indexed height up to the tip that meets no
   * failure leaves the tip as the highest indexed height: the next pass
   * starts there again.
   */
  lemma PassCatchesUp(t: Tables, step: StepFn, top: Height, inv: Tables -> bool)
    requires IndexesItsHeight(step, inv)
    requires inv(t)
    requires MaxHeightOf(t.headvars.Keys) <= top
    requires Pass(t, step, MaxHeightOf(t.headvars.Keys), top - MaxHeightOf(t.headvars.Keys) + 1).outcome.Ok?
    ensures MaxHeightOf(Pass(t, step, MaxHeightOf(t.headvars.Keys), top - MaxHeightOf(t.headvars.Keys) + 1).tables.headvars.Keys) == top
  {
    var start := MaxHeightOf(t.headvars.Keys);
    var n := top - start + 1;
    PassCommitsInOrder(t, step, start, n, inv);
    PassStaysBelow(t, step, start, n, inv);
    var keys := Pass(t, step, start, n).tables.headvars.Keys;
    assert top in HeightsFrom(start, n);
    assert forall x | x in keys :: x <= top;
  }

  // ---------------------------------------------------------------------
  // height_info

  /** `HeightInfo` */
  datatype HeightInfo = HeightInfo(height: Height, blkhash: HashVal, feePool: U128, feeMultiplier: U128, doscSpeed: U128)

  /** The row-to-`HeightInfo` conversion of `height_info`. */
  function DecodeHead(r: HeadRow): HeightInfo
    requires |r.feePool| == 16 && |r.feeMultiplier| == 16 && |r.doscSpeed| == 16
  {
    HeightInfo(r.height, r.blkhash, FromBeBytes(r.feePool), FromBeBytes(r.feeMultiplier), FromBeBytes(r.doscSpeed))
  }

  /** A headvars row written for a header reads back as that header's values. */
  lemma HeadRowRoundTrip(h: Height, header: Header)
    ensures DecodeHead(HeadRowOf(h, header)) ==
      HeightInfo(h, header.hash, header.feePool, header.feeMultiplier, header.doscSpeed)
  {
    RoundTripU128(header.feePool);
    RoundTripU128(header.feeMultiplier);
    RoundTripU128(header.doscSpeed);
  }
}
