/** The interface the gateway needs from the tonlib client: the records it
    returns, the calls it offers, and an abstract client that answers them.
    The client itself (network, protocol, synchronisation) is outside the
    model: a `Backend` is an arbitrary total answer to every call, and every
    stream it produces is a finite sequence. */
module Tonlib {
  import opened Wrappers
  import opened Integers
  import opened JsonValue

  /** A fully identified block. */
  datatype BlockIdExt = BlockIdExt(workchain: i64, shard: i64, seqno: u64, rootHash: string, fileHash: string)

  /** A transaction of a block as the block's transaction stream lists it;
      `account` arrives in base64. */
  datatype ShortTxId = ShortTxId(account: string, hash: string, lt: string, mode: int)

  /** A transaction cursor; `lt` is the logical time as decimal text. */
  datatype InternalTransactionId = InternalTransactionId(hash: string, lt: string)

  /** A transaction of an account's history; only its id is read here. */
  datatype RawTransaction = RawTransaction(transactionId: InternalTransactionId, details: Json)

  /** The client's point lookups, with the arguments the gateway passes. */
  datatype Query =
    | GetMasterchainInfo
    | LookUpBlockBySeqno(workchain: i64, shard: i64, seqno: u64)
    | LookUpBlockByLt(workchain: i64, shard: i64, lt: i64)
    | GetShards(seqno: u64)
    | GetBlockHeader(workchain: i64, shard: i64, seqno: u64)
    | RawGetAccountState(address: string)
    | GetAccountState(address: string)
    | SendMessage(boc: string)

  /** One use of the client by a request: a point lookup or the opening of a
      stream. */
  datatype Call =
    | Point(query: Query)
    | TxStream(block: BlockIdExt)
    | AccountTxStream(address: string)
    | AccountTxStreamFrom(address: string, from: InternalTransactionId)

  /** An abstract client: what each lookup answers (the JSON the gateway
      forwards, or the client's error message) and what each stream yields. */
  datatype Backend = Backend(
    answer: Query -> Result<Json, string>,
    blockTxs: BlockIdExt -> seq<ShortTxId>,
    accountTxs: string -> seq<RawTransaction>,
    accountTxsFrom: (string, InternalTransactionId) -> seq<RawTransaction>)

  /** serde's treatment of the tonlib records, left abstract: reading a block
      id out of a lookup's JSON can fail, writing a block id or a short
      transaction id cannot, and writing a raw transaction can. */
  datatype Serde = Serde(
    blockIdFromJson: Json -> Result<BlockIdExt, string>,
    blockIdToJson: BlockIdExt -> Json,
    shortTxToJson: ShortTxId -> Json,
    rawTxToJson: RawTransaction -> Result<Json, string>)
}
