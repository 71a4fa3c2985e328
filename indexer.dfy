/**
 * The indexer object: the four tables it owns, its read-only queries
 * (`max_height`, `height_info`, `query_coins`, `txhash_to_height`) and
 * one round of `indexer_loop_once`, each written as the loops and single
 * statements the source runs and proved against the functions of `Apply`.
 */
module Index {
  import opened Wrappers
  import opened Codec
  import opened Structs
  import opened Schema
  import opened Query
  import opened Apply

  // ---------------------------------------------------------------------
  // Single statements of the commit, and why the order of a HashMap walk
  // does not matter.

  /** The insert of one new coin row, ignored when its key is taken. */
  function InsertCoin(coins: map<CoinKey, CoinRow>, h: Height, id: CoinID, d: CoinData): map<CoinKey, CoinRow>
  {
    if KeyOf(id, h) in coins then coins else coins[KeyOf(id, h) := FreshRow(id, h, d)]
  }

  /** Inserting any one new coin first and the others after is inserting them all. */
  lemma InsertCoinsPeel(coins: map<CoinKey, CoinRow>, h: Height, rest: map<CoinID, CoinData>, id: CoinID)
    requires id in rest
    ensures InsertCoins(InsertCoin(coins, h, id, rest[id]), h, rest - {id}) == InsertCoins(coins, h, rest)
  {
    var one := InsertCoin(coins, h, id, rest[id]);
    forall k ensures Get(InsertCoins(one, h, rest - {id}), k) == Get(InsertCoins(coins, h, rest), k) {
      InsertCoinsAt(one, h, rest - {id}, k);
      InsertCoinsAt(coins, h, rest, k);
      if k == KeyOf(id, h) {
        assert CoinID(k.txhash, k.index) == id;
      }
    }
    MapsEqualByGet(InsertCoins(one, h, rest - {id}), InsertCoins(coins, h, rest));
  }

  /** The spend update of one entry of `spent_coins`. */
  function SpendCoin(coins: map<CoinKey, CoinRow>, h: Height, id: CoinID, s: SpendBy): map<CoinKey, CoinRow>
  {
    map k | k in coins :: SpendRow(coins[k], h, map[id := s])
  }

  /** Running any one spend update first and the others after is running them all. */
  lemma ApplySpendsPeel(coins: map<CoinKey, CoinRow>, h: Height, rest: map<CoinID, SpendBy>, id: CoinID)
    requires id in rest
    ensures ApplySpends(SpendCoin(coins, h, id, rest[id]), h, rest - {id}) == ApplySpends(coins, h, rest)
  {
    var one := SpendCoin(coins, h, id, rest[id]);
    forall k | k in coins
      ensures ApplySpends(one, h, rest - {id})[k] == ApplySpends(coins, h, rest)[k]
    {
      assert IdOf(one[k]) == IdOf(coins[k]);
    }
  }

  /** The insert of one stake row, ignored when its hash is taken. */
  function InsertStake(stakes: map<TxHash, StakeRow>, t: TxHash, doc: StakeDoc): map<TxHash, StakeRow>
  {
    if t in stakes then stakes else stakes[t := StakeRowOf(doc)]
  }

  /** Inserting any one stake document first and the others after is inserting them all. */
  lemma InsertStakesPeel(stakes: map<TxHash, StakeRow>, docs: map<TxHash, StakeDoc>, t: TxHash)
    requires t in docs
    ensures InsertStakes(InsertStake(stakes, t, docs[t]), docs - {t}) == InsertStakes(stakes, docs)
  {
    var lhs := InsertStakes(InsertStake(stakes, t, docs[t]), docs - {t});
    var rhs := InsertStakes(stakes, docs);
    assert lhs.Keys == rhs.Keys;
    forall x | x in lhs ensures lhs[x] == rhs[x] {
    }
  }

  // ---------------------------------------------------------------------
  // Gathering one height's writes.

  /** Files a transaction's outputs in `new_coins`, one loop step per output. */
  method InsertTxOutputs(m0: map<CoinID, CoinData>, hash: TxHash, outs: seq<CoinData>) returns (m: map<CoinID, CoinData>)
    ensures m == InsertOutputs(m0, hash, outs)
  {
    m := m0;
    for i := 0 to |outs|
      invariant m == InsertOutputs(m0, hash, outs[..i])
    {
      assert outs[..i + 1][..i] == outs[..i];
      m := m[CoinID(hash, i % 256) := outs[i]];
    }
    assert outs[..|outs|] == outs;
  }

  /**
   * The snapshot lookups of one transaction: each looked-up output is
   * removed and replaced by the snapshot's coin when it has one; a failed
   * lookup fails the height.
   */
  method OverrideTx(m0: map<CoinID, CoinData>, client: Client, h: Height, hash: TxHash, idxs: seq<Byte>)
    returns (r: Result<map<CoinID, CoinData>, NetError>)
    ensures r.Ok? <==> LookupsOk(client, h, hash, idxs)
    ensures r.Ok? ==> r.value == Override(m0, client, h, hash, idxs)
  {
    var m := m0;
    for k := 0 to |idxs|
      invariant m == Override(m0, client, h, hash, idxs[..k])
      invariant LookupsOk(client, h, hash, idxs[..k])
    {
      var id := CoinID(hash, idxs[k]);
      assert idxs[..k + 1][..k] == idxs[..k];
      ghost var prev := m;
      m := m - {id};
      match client.coin(h, id) {
        case Err(e) =>
          if LookupsOk(client, h, hash, idxs) {
            LookupsOkPrefix(client, h, hash, idxs, k + 1);
          }
          return Err(e);
        case Ok(found) =>
          if found.Some? {
            m := m[id := found.value];
            assert m == prev[id := found.value];
          }
      }
    }
    assert idxs[..|idxs|] == idxs;
    return Ok(m);
  }

  /**
   * `new_coins` for the block at `h`: the proposer reward, then each
   * transaction's outputs and snapshot lookups. It fails exactly when
   * one of the lookups does.
   */
  method CollectCoins(client: Client, h: Height, blk: Block) returns (r: Result<map<CoinID, CoinData>, NetError>)
    ensures r.Ok? <==> SnapshotsOk(client, h, blk)
    ensures r.Ok? ==> r.value == NewCoins(client, h, blk)
  {
    var start := CollectReward(client, h);
    if start.Err? {
      return start;
    }
    var m := start.value;
    var txs := blk.transactions;
    for j := 0 to |txs|
      invariant m == NewCoinsFold(RewardStart(client, h), client, h, txs[..j])
      invariant TxsLookupsOk(client, h, txs[..j])
    {
      assert txs[..j + 1][..j] == txs[..j];
      var next := CollectTxCoins(m, client, h, txs[j]);
      if next.Err? {
        if TxsLookupsOk(client, h, txs) {
          TxsLookupsOkPrefix(client, h, txs, j + 1);
        }
        return next;
      }
      m := next.value;
    }
    assert txs[..|txs|] == txs;
    return Ok(m);
  }

  /** Starts `new_coins` with the proposer-reward coin when the snapshot has one; a failed lookup is an error. */
  method CollectReward(client: Client, h: Height) returns (r: Result<map<CoinID, CoinData>, NetError>)
    ensures r.Ok? <==> client.coin(h, ProposerReward(client, h)).Ok?
    ensures r.Ok? ==> r.value == RewardStart(client, h)
  {
    var reward := ProposerReward(client, h);
    match client.coin(h, reward) {
      case Err(e) =>
        return Err(e);
      case Ok(found) =>
        if found.Some? {
          return Ok(map[reward := found.value]);
        }
        return Ok(map[]);
    }
  }

  /** One transaction's part of `new_coins`: its outputs, then its snapshot lookups. */
  method CollectTxCoins(m: map<CoinID, CoinData>, client: Client, h: Height, tx: Transaction)
    returns (r: Result<map<CoinID, CoinData>, NetError>)
    ensures r.Ok? <==> TxOk(client, h, tx)
    ensures r.Ok? ==> r.value == TxCoins(m, client, h, tx)
  {
    var ins := InsertTxOutputs(m, tx.hashNosigs, tx.outputs);
    r := OverrideTx(ins, client, h, tx.hashNosigs, OverrideIndices(tx));
  }

  /** Records a transaction's inputs in `spent_coins`, one loop step per input. */
  method InsertTxInputs(m0: map<CoinID, SpendBy>, hash: TxHash, ins: seq<CoinID>) returns (m: map<CoinID, SpendBy>)
    ensures m == InsertInputs(m0, hash, ins)
  {
    m := m0;
    for i := 0 to |ins|
      invariant m == InsertInputs(m0, hash, ins[..i])
    {
      assert ins[..i + 1][..i] == ins[..i];
      m := m[ins[i] := SpendBy(hash, i)];
    }
    assert ins[..|ins|] == ins;
  }

  /** `spent_coins` for the block: every input of every transaction, later spenders winning. */
  method CollectSpent(blk: Block) returns (m: map<CoinID, SpendBy>)
    ensures m == Spent(blk.transactions)
  {
    m := map[];
    var txs := blk.transactions;
    for j := 0 to |txs|
      invariant m == SpentFold(map[], txs[..j])
    {
      assert txs[..j + 1][..j] == txs[..j];
      m := InsertTxInputs(m, txs[j].hashNosigs, txs[j].inputs);
    }
    assert txs[..|txs|] == txs;
  }

  // ---------------------------------------------------------------------
  // Reading the store.

  /** The key the row's own creation columns name. */
  function RowKey(r: CoinRow): CoinKey
  {
    KeyOf(IdOf(r), r.createHeight)
  }

  /** `rows` lists every row of `coins` exactly once, in some order. */
  ghost predicate Enumerates(rows: seq<CoinRow>, coins: map<CoinKey, CoinRow>)
  {
    && (forall k | k in coins :: coins[k] in rows)
    && (forall i | 0 <= i < |rows| :: RowKey(rows[i]) in coins && coins[RowKey(rows[i])] == rows[i])
    && (forall i, j | 0 <= i < j < |rows| :: rows[i] != rows[j])
  }

  /** The rows of a well-formed `coins` table are well formed. */
  lemma EnumeratedRowsWF(rows: seq<CoinRow>, coins: map<CoinKey, CoinRow>)
    requires forall k | k in coins :: CoinRowWF(k, coins[k])
    requires Enumerates(rows, coins)
    ensures RowsWF(rows)
  {
    forall r | r in rows ensures RowWF(r) {
      var i :| 0 <= i < |rows| && rows[i] == r;
      assert coins[RowKey(rows[i])] == r;
    }
  }

  /** The table holds a row with spend txhash `t`. */
  ghost predicate SpentByTx(coins: map<CoinKey, CoinRow>, t: TxHash)
  {
    exists k | k in coins :: coins[k].spendTxhash == Some(t)
  }

  /** `spend_txhash = ?` holds of exactly the rows spent by `t`. */
  lemma SpendTxhashClause(r: CoinRow, t: TxHash)
    ensures HoldsAll([Eq(Field.SpendTxhash, Text(t))], r) <==> r.spendTxhash == Some(t)
  {
    HoldsAllSingle(Eq(Field.SpendTxhash, Text(t)), r);
  }

  /** The number of heights `our_highest..=their_highest` covers. */
  function Rounds(start: Height, top: Height): (n: nat)
    ensures start <= top ==> start + n == top + 1
    ensures top < start ==> n == 0
  {
    if top < start then 0 else top - start + 1
  }

  /** Once a pass has stopped, further iterations change nothing. */
  lemma {:induction false} PassStaysStopped(t: Tables, step: StepFn, start: Height, k: nat, n: nat)
    requires k <= n && Pass(t, step, start, k).outcome.Err?
    ensures Pass(t, step, start, n) == Pass(t, step, start, k)
  {
    if n > k {
      PassStaysStopped(t, step, start, k, n - 1);
    }
  }

  /** The coin inserts of one height, walking `new_coins` in any order. */
  method InsertNewCoins(c0: map<CoinKey, CoinRow>, h: Height, newCoins: map<CoinID, CoinData>)
    returns (coins: map<CoinKey, CoinRow>)
    ensures coins == InsertCoins(c0, h, newCoins)
  {
    coins := c0;
    var rest := newCoins;
    while rest != map[]
      invariant InsertCoins(coins, h, rest) == InsertCoins(c0, h, newCoins)
      decreases rest.Keys
    {
      var id :| id in rest;
      InsertCoinsPeel(coins, h, rest, id);
      coins := InsertCoin(coins, h, id, rest[id]);
      rest := rest - {id};
    }
    assert InsertCoins(coins, h, rest) == coins;
  }

  /** The spend updates of one height, walking `spent_coins` in any order. */
  method ApplySpendUpdates(c0: map<CoinKey, CoinRow>, h: Height, spent: map<CoinID, SpendBy>)
    returns (coins: map<CoinKey, CoinRow>)
    ensures coins == ApplySpends(c0, h, spent)
  {
    coins := c0;
    var rest := spent;
    while rest != map[]
      invariant ApplySpends(coins, h, rest) == ApplySpends(c0, h, spent)
      decreases rest.Keys
    {
      var id :| id in rest;
      ApplySpendsPeel(coins, h, rest, id);
      coins := SpendCoin(coins, h, id, rest[id]);
      rest := rest - {id};
    }
    assert ApplySpends(coins, h, rest) == coins;
  }

  /** The stake inserts of one height, walking the stakers map in any order. */
  method InsertStakeDocs(s0: map<TxHash, StakeRow>, docs: map<TxHash, StakeDoc>) returns (stakes: map<TxHash, StakeRow>)
    ensures stakes == InsertStakes(s0, docs)
  {
    stakes := s0;
    var rest := docs;
    while rest != map[]
      invariant InsertStakes(stakes, rest) == InsertStakes(s0, docs)
      decreases rest.Keys
    {
      var t :| t in rest;
      InsertStakesPeel(stakes, rest, t);
      stakes := InsertStake(stakes, t, rest[t]);
      rest := rest - {t};
    }
    assert InsertStakes(stakes, rest) == stakes;
  }

  /** The txvars inserts of one height, in block order. */
  method InsertTxRows(v0: map<TxHash, TxRow>, txs: seq<Transaction>) returns (txvars: map<TxHash, TxRow>)
    ensures txvars == InsertTxs(v0, txs)
  {
    txvars := v0;
    for i := 0 to |txs|
      invariant txvars == InsertTxs(v0, txs[..i])
    {
      assert txs[..i + 1][..i] == txs[..i];
      if txs[i].hashNosigs !in txvars {
        txvars := txvars[txs[i].hashNosigs := TxRowOf(txs[i])];
      }
    }
    assert txs[..|txs|] == txs;
  }

  /** The loop keeps the store well formed, however far it gets. */
  lemma LoopKeepsWF(t: Tables, client: Client, start: Height, n: nat)
    requires WF(t) && forall x | x in t.headvars :: x <= start
    ensures WF(Pass(t, StepOf(client), start, n).tables)
  {
    StepOfIndexesItsHeight(client);
    PassCommitsInOrder(t, StepOf(client), start, n, WF);
  }

  /** A headvars row reads back as the header it was written from. */
  lemma HeadRowReadsBack(h: Height, r: HeadRow)
    requires HeadRowWF(h, r)
    ensures forall hd | r == HeadRowOf(h, hd) ::
      DecodeHead(r) == Apply.HeightInfo(h, hd.hash, hd.feePool, hd.feeMultiplier, hd.doscSpeed)
  {
    forall hd | r == HeadRowOf(h, hd)
      ensures DecodeHead(r) == Apply.HeightInfo(h, hd.hash, hd.feePool, hd.feeMultiplier, hd.doscSpeed)
    {
      HeadRowRoundTrip(h, hd);
    }
  }

  /** One more iteration of a pass is an `Advance` at the next height. */
  lemma PassUnfold(t: Tables, step: StepFn, start: Height, k: nat, h: Height)
    requires h == start + k
    ensures Pass(t, step, start, k + 1) == Advance(Pass(t, step, start, k), step, h)
  {
  }

  // ---------------------------------------------------------------------
  // The indexer object.

  /** `Indexer`: the database it owns, as its four tables. */
  class Indexer {
    var coins: map<CoinKey, CoinRow>
    var headvars: map<Height, HeadRow>
    var stakes: map<TxHash, StakeRow>
    var txvars: map<TxHash, TxRow>

    function Store(): Tables
      reads this
    {
      Tables(coins, headvars, stakes, txvars)
    }

    /** The store is as the indexer writes it. */
    ghost predicate Valid()
      reads this
    {
      WF(Store())
    }

    /** `Indexer::new` on a fresh database: the four tables, empty. */
    constructor ()
      ensures Valid()
      ensures coins == map[] && headvars == map[] && stakes == map[] && txvars == map[]
    {
      coins := map[];
      headvars := map[];
      stakes := map[];
      txvars := map[];
    }

    /** The greatest height in `headvars`, 0 when the table is empty. */
    method MaxHeight() returns (r: Height)
      ensures headvars == map[] ==> r == 0
      ensures headvars != map[] ==> r in headvars && forall x | x in headvars :: x <= r
      ensures r == MaxHeightOf(headvars.Keys)
    {
      r := 0;
      var left := headvars.Keys;
      while left != {}
        invariant left <= headvars.Keys
        invariant r == 0 || r in headvars
        invariant forall x | x in headvars && x !in left :: x <= r
        decreases left
      {
        var x :| x in left;
        if r < x {
          r := x;
        }
        left := left - {x};
      }
      if headvars != map[] && r !in headvars {
        var x :| x in headvars;
        assert x <= r;
      }
      var m := MaxHeightOf(headvars.Keys);
      assert m <= r && r <= m;
    }

    /**
     * `height_info`: the headvars row of height `h` as a `HeightInfo`,
     * when that height is indexed.
     */
    function HeightInfo(h: Height): (r: Option<Apply.HeightInfo>)
      reads this
      requires Valid()
      ensures r.Some? <==> h in headvars
      ensures r.Some? ==> r.value.height == h
      ensures r.Some? ==> forall hd | headvars[h] == HeadRowOf(h, hd) ::
        r.value == Apply.HeightInfo(h, hd.hash, hd.feePool, hd.feeMultiplier, hd.doscSpeed)
    {
      if h in headvars then
        HeadRowReadsBack(h, headvars[h]);
        Some(DecodeHead(headvars[h]))
      else None
    }

    /** The rows of `coins`, in the order a scan meets them. */
    method ScanCoins() returns (rows: seq<CoinRow>)
      requires Valid()
      ensures Enumerates(rows, coins)
      ensures RowsWF(rows)
    {
      rows := [];
      var left := coins.Keys;
      while left != {}
        invariant left <= coins.Keys
        invariant forall k | k in coins && k !in left :: coins[k] in rows
        invariant forall i | 0 <= i < |rows| ::
          RowKey(rows[i]) in coins && RowKey(rows[i]) !in left && coins[RowKey(rows[i])] == rows[i]
        invariant forall i, j | 0 <= i < j < |rows| :: rows[i] != rows[j]
        decreases left
      {
        var k :| k in left;
        assert RowKey(coins[k]) == k;
        rows := rows + [coins[k]];
        left := left - {k};
      }
      EnumeratedRowsWF(rows, coins);
    }

    /** `query_coins`: a builder with no filters over the current `coins` table. */
    method QueryCoins() returns (q: CoinQuery)
      requires Valid()
      ensures fresh(q) && q.Valid() && q.filters == [] && q.params == []
      ensures Enumerates(q.rows, coins) && RowsWF(q.rows)
    {
      var rows := ScanCoins();
      q := new CoinQuery(rows);
    }

    /**
     * `txhash_to_height`: the spend height of a coin that `t` spent, or
     * `None` when no coin was spent by `t`.
     */
    method TxhashToHeight(t: TxHash) returns (r: Option<Height>)
      requires Valid()
      ensures r.None? <==> !SpentByTx(coins, t)
      ensures r.Some? ==> exists k | k in coins :: coins[k].spendTxhash == Some(t) && coins[k].spendHeight == r
    {
      var q := QueryCoins();
      q.SpendTxhash(t);
      var cs := q.Clauses();
      assert cs == [Eq(Field.SpendTxhash, Text(t))];
      var res := q.Iter();
      SelectedRowsDecode(q.rows, cs);
      var sel := Select(q.rows, cs);
      var items := res.value;
      if items == [] {
        r := None;
        if SpentByTx(coins, t) {
          var k :| k in coins && coins[k].spendTxhash == Some(t);
          SpendTxhashClause(coins[k], t);
          SelectMembership(q.rows, cs, coins[k]);
        }
      } else {
        DecodeRowsAt(sel, 0);
        var row := sel[0];
        SelectMembership(q.rows, cs, row);
        SpendTxhashClause(row, t);
        DecodeFaithful(row);
        assert RowWF(row);
        r := Some(items[0].spendInfo.value.spendHeight);
        var i :| 0 <= i < |q.rows| && q.rows[i] == row;
        assert coins[RowKey(q.rows[i])] == row;
      }
    }

    /**
     * The database transaction of one height: the coin inserts in any
     * order, then the spend updates in any order, the headvars row, the
     * stake rows in any order and the txvars rows in block order.
     */
    method CommitBlock(h: Height, blk: Block, w: Writes)
      modifies this
      ensures Store() == Commit(old(Store()), h, blk, w)
    {
      var inserted := InsertNewCoins(coins, h, w.newCoins);
      coins := ApplySpendUpdates(inserted, h, w.spent);
      headvars := InsertHead(headvars, h, blk.header);
      if w.stakes.Some? {
        stakes := InsertStakeDocs(stakes, w.stakes.value);
      }
      txvars := InsertTxRows(txvars, blk.transactions);
    }

    /**
     * One iteration of the loop of `indexer_loop_once` at height `h`:
     * the block, the coin lookups, the stakers when the stakes hash moved,
     * and only then the commit. On a failed request nothing is written.
     */
    method IndexHeight(client: Client, h: Height, last: Option<HashVal>) returns (res: Result<Option<HashVal>, NetError>)
      modifies this
      ensures var p := Advance(PassState(old(Store()), last, Ok(())), StepOf(client), h);
        Store() == p.tables && res == (if p.outcome.Ok? then Ok(p.lastStakes) else Err(p.outcome.error))
    {
      var blk: Block;
      match client.block(h) {
        case Err(e) =>
          return Err(e);
        case Ok(b) =>
          blk := b;
      }
      var newCoins := CollectCoins(client, h, blk);
      if newCoins.Err? {
        assert !SnapshotsOk(client, h, blk);
        assert Fetch(client, h, last) == Err(NetError);
        assert Step(old(Store()), client, h, last) == Err(NetError);
        assert newCoins.error == NetError;
        return Err(newCoins.error);
      }
      var spent := CollectSpent(blk);
      var docs: Option<map<TxHash, StakeDoc>> := None;
      if last != Some(blk.header.stakesHash) {
        match client.stakers(h) {
          case Err(e) =>
            return Err(e);
          case Ok(s) =>
            docs := s;
        }
      }
      CommitBlock(h, blk, Writes(newCoins.value, spent, docs));
      return Ok(Some(blk.header.stakesHash));
    }

    /**
     * `indexer_loop_once`: from the highest indexed height up to the
     * tip, one iteration per height, stopping at the first failure. The
     * store ends as the pass `Pass` describes and stays well formed.
     */
    method LoopOnce(client: Client) returns (res: Result<(), NetError>)
      requires Valid()
      modifies this
      ensures Valid()
      ensures client.latestHeight.Err? ==> res == Err(client.latestHeight.error) && Store() == old(Store())
      ensures client.latestHeight.Ok? ==>
        var start := MaxHeightOf(old(headvars).Keys);
        var p := Pass(old(Store()), StepOf(client), start, Rounds(start, client.latestHeight.value));
        Store() == p.tables && res == p.outcome
    {
      var start := MaxHeight();
      if client.latestHeight.Err? {
        return Err(client.latestHeight.error);
      }
      ghost var t0 := Store();
      res := IndexRange(client, start, client.latestHeight.value);
      LoopKeepsWF(t0, client, start, Rounds(start, client.latestHeight.value));
    }

    /** The loop of `indexer_loop_once`: the heights `start..=top` in order. */
    method IndexRange(client: Client, start: Height, top: Height) returns (res: Result<(), NetError>)
      modifies this
      ensures var p := Pass(old(Store()), StepOf(client), start, Rounds(start, top));
        Store() == p.tables && res == p.outcome
    {
      ghost var n := Rounds(start, top);
      ghost var t0 := Store();
      assert t0 == old(Store());
      var last: Option<HashVal> := None;
      var h := start;
      ghost var k: nat := 0;
      while h <= top
        invariant h == start + k && k <= n
        invariant Pass(t0, StepOf(client), start, k) == PassState(Store(), last, Ok(()))
        decreases top + 1 - h
      {
        PassUnfold(t0, StepOf(client), start, k, h);
        var r := IndexHeight(client, h, last);
        if r.Err? {
          PassStaysStopped(t0, StepOf(client), start, k + 1, n);
          return Err(r.error);
        }
        last := r.value;
        h := h + 1;
        k := k + 1;
      }
      assert k == n;
      return Ok(());
    }
  }
}
