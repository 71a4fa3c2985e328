/**
 * The four tables the indexer writes, as maps keyed by their UNIQUE
 * columns. Every table is declared `ON CONFLICT IGNORE`: inserting a row
 * whose key is already present leaves the table as it was.
 */
module Schema {
  import opened Wrappers
  import opened Codec
  import opened Structs

  /** The UNIQUE columns of `coins`: `(create_txhash, create_index, create_height)`. */
  datatype CoinKey = CoinKey(txhash: TxHash, index: Byte, height: Height)

  /**
   * A row of `coins`. The spend columns are NULL (`None`) until an update
   * sets them; `value` holds the 16-byte big-endian encoding of the amount.
   */
  datatype CoinRow = CoinRow(
    createTxhash: TxHash,
    createIndex: Byte,
    createHeight: Height,
    spendTxhash: Option<TxHash>,
    spendIndex: Option<nat>,
    spendHeight: Option<Height>,
    value: seq<Byte>,
    denom: seq<Byte>,
    covhash: Address,
    additionalData: seq<Byte>)

  /** A row of `headvars`; the three parameters are stored big-endian. */
  datatype HeadRow = HeadRow(
    height: Height,
    blkhash: HashVal,
    feePool: seq<Byte>,
    feeMultiplier: seq<Byte>,
    doscSpeed: seq<Byte>)

  /** A row of `stakes`, keyed by the staking transaction's hash. */
  datatype StakeRow = StakeRow(pubkey: seq<Byte>, eStart: nat, ePostEnd: nat, staked: seq<Byte>)

  /**
   * A row of `txvars`, keyed by the transaction's `hash_nosigs`. The JSON
   * hex encodings of covenants and signatures are kept as the sequences
   * they encode; `kind` is kept as the kind it encodes.
   */
  datatype TxRow = TxRow(kind: TxKind, fee: seq<Byte>, covenants: seq<seq<Byte>>, data: seq<Byte>, sigs: seq<seq<Byte>>)

  /** The whole store. */
  datatype Tables = Tables(
    coins: map<CoinKey, CoinRow>,
    headvars: map<Height, HeadRow>,
    stakes: map<TxHash, StakeRow>,
    txvars: map<TxHash, TxRow>)

  /** The UNIQUE key of the row created for `id` at `height`. */
  function KeyOf(id: CoinID, height: Height): (k: CoinKey)
    ensures k.txhash == id.txhash && k.index == id.index && k.height == height
  {
    CoinKey(id.txhash, id.index, height)
  }

  /** The coin a row describes, as the spend update's WHERE clause sees it. */
  function IdOf(r: CoinRow): CoinID
  {
    CoinID(r.createTxhash, r.createIndex)
  }

  /**
   * Every row the indexer writes has this shape: its key columns agree
   * with its key, its three spend columns are all NULL or all set, a coin
   * is never spent below its creation height, and the value is 16 bytes.
   */
  ghost predicate CoinRowWF(k: CoinKey, r: CoinRow)
  {
    && r.createTxhash == k.txhash && r.createIndex == k.index && r.createHeight == k.height
    && r.spendTxhash.Some? == r.spendIndex.Some?
    && r.spendTxhash.Some? == r.spendHeight.Some?
    && (r.spendHeight.Some? ==> r.spendHeight.value >= r.createHeight)
    && |r.value| == 16
  }

  ghost predicate HeadRowWF(h: Height, r: HeadRow)
  {
    r.height == h && |r.feePool| == 16 && |r.feeMultiplier| == 16 && |r.doscSpeed| == 16
  }

  /**
   * The invariant of the store: every row well formed, and every coin
   * created at a height whose `headvars` row exists (both are written in
   * the same transaction).
   */
  ghost predicate WF(t: Tables)
  {
    && (forall k | k in t.coins :: CoinRowWF(k, t.coins[k]) && k.height in t.headvars)
    && (forall h | h in t.headvars :: HeadRowWF(h, t.headvars[h]))
  }

  /** A finite, non-empty set of heights has a greatest element. */
  lemma MaxExists(heights: set<Height>)
    requires heights != {}
    ensures exists r :: r in heights && forall x | x in heights :: x <= r
  {
    var y :| y in heights;
    if heights != {y} {
      var rest := heights - {y};
      MaxExists(rest);
      var r :| r in rest && forall x | x in rest :: x <= r;
      var top := if r < y then y else r;
      forall x | x in heights ensures x <= top {
        if x != y {
          assert x in rest;
        }
      }
    }
  }

  /** A finite, non-empty set of heights has a least element. */
  lemma MinExists(heights: set<Height>)
    requires heights != {}
    ensures exists r :: r in heights && forall x | x in heights :: r <= x
  {
    var y :| y in heights;
    var lower := set x | x in heights && x < y;
    if lower == {} {
      forall x | x in heights ensures y <= x {
        assert x !in lower;
      }
    } else {
      assert y !in lower;
      MinExists(lower);
      var r :| r in lower && forall x | x in lower :: r <= x;
      forall x | x in heights ensures r <= x {
        if x < y {
          assert x in lower;
        }
      }
    }
  }
}
