/** The request types and the handlers of `RpcServer`. A handler's outcome
    is its result together with the calls it made on the client, in order,
    so that "no call is made" is something a contract can say. */
module RpcServer {
  import opened Wrappers
  import opened Integers
  import opened JsonValue
  import opened Tonlib
  import opened Envelope
  import Codec
  import Pagination

  datatype LookupBlockParams = LookupBlockParams(
    workchain: i64, shard: string, seqno: Option<u64>, lt: Option<i64>, unixtime: Option<u64>)

  datatype ShardsParams = ShardsParams(seqno: u64)

  datatype BlockHeaderParams = BlockHeaderParams(
    workchain: i64, shard: string, seqno: u64, rootHash: Option<string>, fileHash: Option<string>)

  /** `root_hash`, `file_hash`, `after_lt` and `after_hash` are accepted and
      ignored. */
  datatype BlockTransactionsParams = BlockTransactionsParams(
    workchain: i64, shard: string, seqno: u64, rootHash: Option<string>, fileHash: Option<string>,
    afterLt: Option<i64>, afterHash: Option<string>, count: Option<u8>)

  datatype AddressParams = AddressParams(address: string)

  /** `archival` is accepted and ignored. */
  datatype TransactionsParams = TransactionsParams(
    address: string, limit: Option<u16>, lt: Option<string>, hash: Option<string>,
    toLt: Option<string>, archival: Option<bool>)

  datatype SendBocParams = SendBocParams(boc: string)

  /** The methods, one variant per `method` tag. */
  datatype Method =
    | LookupBlock(lookup: LookupBlockParams)
    | Shards(shards: ShardsParams)
    | BlockHeader(header: BlockHeaderParams)
    | BlockTransactions(blockTxs: BlockTransactionsParams)
    | AddressInformation(address: AddressParams)
    | ExtendedAddressInformation(extended: AddressParams)
    | Transactions(txs: TransactionsParams)
    | SendBoc(send: SendBocParams)
    | MasterchainInfo

  datatype JsonRequest = JsonRequest(jsonrpc: string, id: u64, call: Method)

  /** A handler's result and the client calls it made. */
  datatype Outcome = Outcome(result: Result<Json, Failure>, calls: seq<Call>)

  const UNIXTIME_UNSUPPORTED: string := "unixtime is not supported"
  const NO_LOOKUP_KEY: string := "seqno or lt or unixtime must be provided"
  const DEFAULT_BLOCK_TX_COUNT: u8 := 200
  const DEFAULT_TX_LIMIT: u16 := 10

  /** A client error, as the handler passes it on. */
  function Lift(r: Result<Json, string>): Result<Json, Failure> {
    match r
    case Ok(v) => Ok(v)
    case Err(m) => Err(Failed(m))
  }

  /** One point lookup, whose answer is the handler's result. */
  function Ask(b: Backend, q: Query): Outcome {
    Outcome(Lift(b.answer(q)), [Point(q)])
  }

  function MasterChainInfo(b: Backend): (o: Outcome)
    ensures o.calls == [Point(GetMasterchainInfo)]
    ensures o.result == Lift(b.answer(GetMasterchainInfo))
  {
    Ask(b, GetMasterchainInfo)
  }

  /** The way `lookupBlock` finds its block. */
  datatype Lookup = BySeqno(seqno: u64) | ByLt(lt: i64)

  /** `lookup_block`'s match on (seqno, lt, unixtime): exactly one positive
      seqno or exactly one positive lt picks a lookup; a lone unixtime is
      refused as unsupported; every other combination (nothing given, more
      than one given, a zero seqno, a non-positive lt) is refused as missing. */
  function ResolveLookup(seqno: Option<u64>, lt: Option<i64>, unixtime: Option<u64>): (r: Result<Lookup, string>)
    ensures (r.Ok? && r.value.BySeqno?) <==> seqno.Some? && seqno.value > 0 && lt.None? && unixtime.None?
    ensures (r.Ok? && r.value.ByLt?) <==> seqno.None? && lt.Some? && lt.value > 0 && unixtime.None?
    ensures r.Ok? ==> r == if seqno.Some? then Ok(BySeqno(seqno.value)) else Ok(ByLt(lt.value))
    ensures r == Err(UNIXTIME_UNSUPPORTED) <==> seqno.None? && lt.None? && unixtime.Some?
    ensures r.Err? ==> r.error in {UNIXTIME_UNSUPPORTED, NO_LOOKUP_KEY}
  {
    if seqno.Some? && lt.None? && unixtime.None? && seqno.value > 0 then Ok(BySeqno(seqno.value))
    else if seqno.None? && lt.Some? && unixtime.None? && lt.value > 0 then Ok(ByLt(lt.value))
    else if seqno.None? && lt.None? && unixtime.Some? then Err(UNIXTIME_UNSUPPORTED)
    else Err(NO_LOOKUP_KEY)
  }

  /** `lookup_block`: the shard is parsed before anything else, so a bad
      shard is reported, and nothing asked of the client, whatever the other
      parameters are; then at most the one chosen lookup is made. */
  function LookupBlockHandler(b: Backend, p: LookupBlockParams): (o: Outcome)
    ensures ParseI64(p.shard).Err? ==> o == Outcome(Err(BadInteger(ParseI64(p.shard).error)), [])
    ensures ParseI64(p.shard).Ok? && ResolveLookup(p.seqno, p.lt, p.unixtime).Err? ==>
      o == Outcome(Err(Failed(ResolveLookup(p.seqno, p.lt, p.unixtime).error)), [])
    ensures ParseI64(p.shard).Ok? && ResolveLookup(p.seqno, p.lt, p.unixtime).Ok? ==>
      var shard, how := ParseI64(p.shard).value, ResolveLookup(p.seqno, p.lt, p.unixtime).value;
      var q := if how.BySeqno? then LookUpBlockBySeqno(p.workchain, shard, how.seqno)
               else LookUpBlockByLt(p.workchain, shard, how.lt);
      o.calls == [Point(q)] && o.result == Lift(b.answer(q))
  {
    match ParseI64(p.shard)
    case Err(k) => Outcome(Err(BadInteger(k)), [])
    case Ok(shard) =>
      match ResolveLookup(p.seqno, p.lt, p.unixtime)
      case Err(m) => Outcome(Err(Failed(m)), [])
      case Ok(BySeqno(seqno)) => Ask(b, LookUpBlockBySeqno(p.workchain, shard, seqno))
      case Ok(ByLt(lt)) => Ask(b, LookUpBlockByLt(p.workchain, shard, lt))
  }

  function ShardsHandler(b: Backend, p: ShardsParams): (o: Outcome)
    ensures o.calls == [Point(GetShards(p.seqno))]
    ensures o.result == Lift(b.answer(GetShards(p.seqno)))
  {
    Ask(b, GetShards(p.seqno))
  }

  /** `get_block_header`: the shard is parsed before the client is asked. */
  function BlockHeaderHandler(b: Backend, p: BlockHeaderParams): (o: Outcome)
    ensures ParseI64(p.shard).Err? ==> o == Outcome(Err(BadInteger(ParseI64(p.shard).error)), [])
    ensures ParseI64(p.shard).Ok? ==>
      var q := GetBlockHeader(p.workchain, ParseI64(p.shard).value, p.seqno);
      o.calls == [Point(q)] && o.result == Lift(b.answer(q))
  {
    match ParseI64(p.shard)
    case Err(k) => Outcome(Err(BadInteger(k)), [])
    case Ok(shard) => Ask(b, GetBlockHeader(p.workchain, shard, p.seqno))
  }

  /** The account of a block transaction as callers see it:
      `"<workchain>:<hex>"`, the hexadecimal of the bytes the base64 account
      encodes. */
  function RewriteAccount(workchain: i64, tx: ShortTxId): (r: ShortTxId)
    requires Codec.Decode(tx.account).Ok?
    ensures r.hash == tx.hash && r.lt == tx.lt && r.mode == tx.mode
    ensures r.account == FormatI64(workchain) + ":" + Codec.Base64ToHex(tx.account).value
  {
    Codec.DecodeOkIff(tx.account);
    tx.(account := FormatI64(workchain) + ":" + Codec.Base64ToHex(tx.account).value)
  }

  /** Nothing is lost in the rewrite: the text before the colon reads back
      as the workchain and the text after it names exactly the bytes whose
      base64 is the original account. */
  lemma RewriteAccountReversible(workchain: i64, tx: ShortTxId)
    requires Codec.Decode(tx.account).Ok?
    ensures var w, a := FormatI64(workchain), RewriteAccount(workchain, tx).account;
      && a[..|w|] == w && a[|w|] == ':'
      && ParseI64(a[..|w|]) == Ok(workchain)
      && Codec.HexDecode(a[|w| + 1..]).Some?
      && Codec.Encode(Codec.HexDecode(a[|w| + 1..]).value) == tx.account
  {
    Codec.DecodeOkIff(tx.account);
    ParseFormatI64(workchain);
    var w, a := FormatI64(workchain), RewriteAccount(workchain, tx).account;
    assert a[|w| + 1..] == Codec.Base64ToHex(tx.account).value;
  }

  predicate AccountsDecode(txs: seq<ShortTxId>) {
    forall i :: 0 <= i < |txs| ==> Codec.Decode(txs[i].account).Ok?
  }

  /** The `map` over the block's transaction stream: every transaction,
      in stream order, with its account rewritten. Nothing is dropped:
      `count` does not cut the list. */
  function RewriteAccounts(workchain: i64, txs: seq<ShortTxId>): (r: seq<ShortTxId>)
    requires AccountsDecode(txs)
    ensures |r| == |txs|
    ensures forall i :: 0 <= i < |txs| ==> r[i] == RewriteAccount(workchain, txs[i])
    decreases |txs|
  {
    if txs == [] then []
    else
      assert AccountsDecode(txs[1..]) by {
        forall i | 0 <= i < |txs[1..]| ensures Codec.Decode(txs[1..][i].account).Ok? {
          assert txs[1..][i] == txs[i + 1];
        }
      }
      [RewriteAccount(workchain, txs[0])] + RewriteAccounts(workchain, txs[1..])
  }

  /** The object `get_block_transactions` returns. */
  function BlockTransactionsJson(serde: Serde, block: BlockIdExt, count: u8, txs: seq<ShortTxId>): Json {
    Object([
      ("@type", String("blocks.transactions")),
      ("id", serde.blockIdToJson(block)),
      ("incomplete", Bool(false)),
      ("req_count", Number(count)),
      ("transactions", Array(seq(|txs|, i requires 0 <= i < |txs| => serde.shortTxToJson(txs[i]))))])
  }

  /** The accounts `get_block_transactions` rewrites all decode, whenever it
      gets as far as the block's stream: otherwise its `unwrap` panics. */
  predicate BlockTxsDecodable(b: Backend, serde: Serde, p: BlockTransactionsParams) {
    match ParseI64(p.shard)
    case Err(_) => true
    case Ok(shard) =>
      match b.answer(LookUpBlockBySeqno(p.workchain, shard, p.seqno))
      case Err(_) => true
      case Ok(j) =>
        match serde.blockIdFromJson(j)
        case Err(_) => true
        case Ok(block) => AccountsDecode(b.blockTxs(block))
  }

  /** `get_block_transactions`: parse the shard, look the block up by seqno,
      read its id, open its transaction stream and return every transaction
      with the account rewritten against the workchain of the block found,
      echoing `count` (200 when absent) as `req_count`. */
  function BlockTransactionsHandler(b: Backend, serde: Serde, p: BlockTransactionsParams): (o: Outcome)
    requires BlockTxsDecodable(b, serde, p)
    ensures ParseI64(p.shard).Err? ==> o == Outcome(Err(BadInteger(ParseI64(p.shard).error)), [])
    ensures ParseI64(p.shard).Ok? ==>
      var q := LookUpBlockBySeqno(p.workchain, ParseI64(p.shard).value, p.seqno);
      && |o.calls| >= 1 && o.calls[0] == Point(q)
      && (o.result.Ok? <==> b.answer(q).Ok? && serde.blockIdFromJson(b.answer(q).value).Ok?)
      && (b.answer(q).Err? ==> o == Outcome(Err(Failed(b.answer(q).error)), [Point(q)]))
      && (b.answer(q).Ok? && serde.blockIdFromJson(b.answer(q).value).Err? ==>
            o == Outcome(Err(Failed(serde.blockIdFromJson(b.answer(q).value).error)), [Point(q)]))
      && (o.result.Ok? ==>
            var block := serde.blockIdFromJson(b.answer(q).value).value;
            var stream := b.blockTxs(block);
            && o.calls == [Point(q), TxStream(block)]
            && o.result.value == BlockTransactionsJson(serde, block, p.count.UnwrapOr(DEFAULT_BLOCK_TX_COUNT),
                                                       RewriteAccounts(block.workchain, stream)))
  {
    match ParseI64(p.shard)
    case Err(k) => Outcome(Err(BadInteger(k)), [])
    case Ok(shard) =>
      var count := p.count.UnwrapOr(DEFAULT_BLOCK_TX_COUNT);
      var q := LookUpBlockBySeqno(p.workchain, shard, p.seqno);
      match b.answer(q)
      case Err(m) => Outcome(Err(Failed(m)), [Point(q)])
      case Ok(blockJson) =>
        match serde.blockIdFromJson(blockJson)
        case Err(m) => Outcome(Err(Failed(m)), [Point(q)])
        case Ok(block) =>
          var txs := RewriteAccounts(block.workchain, b.blockTxs(block));
          Outcome(Ok(BlockTransactionsJson(serde, block, count, txs)), [Point(q), TxStream(block)])
  }

  function AddressInformationHandler(b: Backend, p: AddressParams): (o: Outcome)
    ensures o.calls == [Point(RawGetAccountState(p.address))]
    ensures o.result == Lift(b.answer(RawGetAccountState(p.address)))
  {
    Ask(b, RawGetAccountState(p.address))
  }

  function ExtendedAddressInformationHandler(b: Backend, p: AddressParams): (o: Outcome)
    ensures o.calls == [Point(GetAccountState(p.address))]
    ensures o.result == Lift(b.answer(GetAccountState(p.address)))
  {
    Ask(b, GetAccountState(p.address))
  }

  /** The stream `get_transactions` reads: from the caller's cursor when both
      its `lt` and `hash` are given, from the latest transaction otherwise. */
  function TxSource(p: TransactionsParams): (c: Call)
    ensures c.AccountTxStreamFrom? <==> p.lt.Some? && p.hash.Some?
    ensures c.AccountTxStreamFrom? ==> c == AccountTxStreamFrom(p.address, InternalTransactionId(p.hash.value, p.lt.value))
    ensures c.AccountTxStream? <==> !(p.lt.Some? && p.hash.Some?)
    ensures c.AccountTxStream? ==> c.address == p.address
  {
    if p.lt.Some? && p.hash.Some? then AccountTxStreamFrom(p.address, InternalTransactionId(p.hash.value, p.lt.value))
    else AccountTxStream(p.address)
  }

  function Stream(b: Backend, c: Call): seq<RawTransaction>
    requires c.AccountTxStream? || c.AccountTxStreamFrom?
  {
    if c.AccountTxStream? then b.accountTxs(c.address) else b.accountTxsFrom(c.address, c.from)
  }

  /** `to_lt.and_then(|x| x.parse::<i64>().ok())`: a bound only when the text
      parses; an unparsable one is dropped without an error. */
  function ToLtBound(toLt: Option<string>): (r: Option<i64>)
    ensures r.Some? <==> toLt.Some? && ParseI64(toLt.value).Ok?
    ensures r.Some? ==> ParseI64(toLt.value) == Ok(r.value)
  {
    match toLt
    case None => None
    case Some(s) => ParseI64(s).ToOption()
  }

  /** The transactions whose logical time `get_transactions` reads all have a
      readable one: otherwise its `unwrap` panics. */
  predicate TxTimesReadable(b: Backend, p: TransactionsParams) {
    Pagination.Examinable(Stream(b, TxSource(p)), ToLtBound(p.toLt), p.limit.UnwrapOr(DEFAULT_TX_LIMIT))
  }

  /** The page `get_transactions` collects: a prefix of the chosen stream of
      at most `limit` (10 when absent) transactions, all above `to_lt` when it
      parses, stopping early only at the first one that is not. */
  function TransactionPage(b: Backend, p: TransactionsParams): (page: seq<RawTransaction>)
    requires TxTimesReadable(b, p)
    ensures Pagination.IsPage(Stream(b, TxSource(p)), ToLtBound(p.toLt), p.limit.UnwrapOr(DEFAULT_TX_LIMIT), page)
  {
    Pagination.Collect(Stream(b, TxSource(p)), ToLtBound(p.toLt), p.limit.UnwrapOr(DEFAULT_TX_LIMIT))
  }

  /** `get_transactions`: opens exactly one stream, the one `TxSource` picks,
      and returns the page as a JSON array, or the error of the first
      transaction that fails to serialise. */
  function TransactionsHandler(b: Backend, serde: Serde, p: TransactionsParams): (o: Outcome)
    requires TxTimesReadable(b, p)
    ensures o.calls == [TxSource(p)]
    ensures var page := TransactionPage(b, p);
      && (o.result.Ok? <==> forall i :: 0 <= i < |page| ==> serde.rawTxToJson(page[i]).Ok?)
      && (o.result.Ok? ==>
            && o.result.value.Array? && |o.result.value.items| == |page|
            && forall i :: 0 <= i < |page| ==> serde.rawTxToJson(page[i]) == Ok(o.result.value.items[i]))
      && (o.result.Err? ==>
            exists i :: && 0 <= i < |page| && serde.rawTxToJson(page[i]).Err?
                        && o.result == Err(Failed(serde.rawTxToJson(page[i]).error))
                        && forall j :: 0 <= j < i ==> serde.rawTxToJson(page[j]).Ok?)
  {
    match SerializeSeq(serde.rawTxToJson, TransactionPage(b, p))
    case Ok(items) => Outcome(Ok(Array(items)), [TxSource(p)])
    case Err(m) => Outcome(Err(Failed(m)), [TxSource(p)])
  }

  /** `send_boc`: a boc that is not base64 is refused before the client is
      asked; otherwise the client is sent the canonical re-encoding of its
      bytes, which for an accepted boc is the boc itself. */
  function SendBocHandler(b: Backend, p: SendBocParams): (o: Outcome)
    ensures Codec.Decode(p.boc).Err? ==> o == Outcome(Err(BadBase64(Codec.Decode(p.boc).error)), [])
    ensures Codec.Decode(p.boc).Ok? ==>
      o.calls == [Point(SendMessage(p.boc))] && o.result == Lift(b.answer(SendMessage(p.boc)))
    ensures o.calls != [] <==> Codec.IsBase64(p.boc)
  {
    Codec.DecodeOkIff(p.boc);
    match Codec.Decode(p.boc)
    case Err(e) => Outcome(Err(BadBase64(e)), [])
    case Ok(bytes) => Ask(b, SendMessage(Codec.Encode(bytes)))
  }
}
