/**
 * The chain-side values the indexer consumes (blocks, transactions, coins,
 * stake documents) and the network client it reads them from. Hashes,
 * addresses and the client's answers are opaque: the indexer never looks
 * inside them, only stores and compares them.
 */
module Structs {
  import opened Wrappers
  import opened Codec

  /** A transaction hash; every hash the indexer handles is opaque. */
  type TxHash = nat
  /** A block hash or a stakes-map hash. */
  type HashVal = nat
  /** An address (a covenant hash). */
  type Address = nat

  /** A block height; heights are `u64` in the source, unbounded here. */
  type Height = nat

  /** One output `index` (a `u8`) of the transaction with hash `txhash`. */
  datatype CoinID = CoinID(txhash: TxHash, index: Byte)

  /** The content of a coin. `denom` is the byte form `Denom::to_bytes` stores. */
  datatype CoinData = CoinData(covhash: Address, value: U128, denom: seq<Byte>, additionalData: seq<Byte>)

  /** Transaction kinds; the three Melswap kinds get special treatment. */
  datatype TxKind = Normal | Stake | DoscMint | Swap | LiqDeposit | LiqWithdraw | Faucet

  /**
   * A transaction. `hashNosigs` is the value of `hash_nosigs()`, a hash of
   * the other fields that this model takes as given.
   */
  datatype Transaction = Transaction(
    kind: TxKind,
    hashNosigs: TxHash,
    inputs: seq<CoinID>,
    outputs: seq<CoinData>,
    fee: U128,
    covenants: seq<seq<Byte>>,
    data: seq<Byte>,
    sigs: seq<seq<Byte>>)

  /** The parts of a block header the indexer reads; `hash` is `header.hash()`. */
  datatype Header = Header(
    hash: HashVal,
    stakesHash: HashVal,
    feePool: U128,
    feeMultiplier: U128,
    doscSpeed: U128)

  datatype Block = Block(header: Header, transactions: seq<Transaction>)

  /** A decoded stake document. */
  datatype StakeDoc = StakeDoc(pubkey: seq<Byte>, eStart: nat, ePostEnd: nat, symsStaked: U128)

  /** The one way a request to the network can go wrong. */
  datatype NetError = NetError

  /**
   * The network client as an oracle, fixed for one pass of the indexer.
   * - `latestHeight`: `latest_snapshot()` and its header's height;
   * - `block(h)`: `get_older(h)` followed by `current_block()`;
   * - `coin(h, id)`: `get_coin(id)` on the snapshot at height `h`;
   * - `stakers(h)`: `get_stakers_raw(h)`, already deserialised;
   * - `rewardHash(h)`: the hash part of `CoinID::proposer_reward(h)`, whose
   *   index is 0.
   */
  datatype Client = Client(
    latestHeight: Result<Height, NetError>,
    block: Height -> Result<Block, NetError>,
    coin: (Height, CoinID) -> Result<Option<CoinData>, NetError>,
    stakers: Height -> Result<Option<map<TxHash, StakeDoc>>, NetError>,
    rewardHash: Height -> TxHash)

  /** `CoinID::proposer_reward(height)` */
  function ProposerReward(client: Client, height: Height): (id: CoinID)
    ensures id.index == 0
  {
    CoinID(client.rewardHash(height), 0)
  }

  /** What the snapshot at `height` says about `id`, once the request succeeded. */
  function SnapCoin(client: Client, height: Height, id: CoinID): Option<CoinData>
  {
    match client.coin(height, id)
    case Ok(answer) => answer
    case Err(_) => None
  }
}
