/** `dispatch_method`: run the handler a request names and wrap whatever it
    produces in the response envelope; and the HTTP boundary before it,
    where a body that does not decode as a request never reaches it. */
module Dispatch {
  import opened Wrappers
  import opened Integers
  import opened Tonlib
  import opened Envelope
  import opened RpcServer
  import Codec

  /** The requests on which no handler panics (see the two `unwrap`s). */
  predicate NoPanic(b: Backend, serde: Serde, m: Method) {
    match m
    case BlockTransactions(p) => BlockTxsDecodable(b, serde, p)
    case Transactions(p) => TxTimesReadable(b, p)
    case _ => true
  }

  /** The shard text a method carries, for the three that carry one. */
  function ShardOf(m: Method): Option<string> {
    match m
    case LookupBlock(p) => Some(p.shard)
    case BlockHeader(p) => Some(p.shard)
    case BlockTransactions(p) => Some(p.shard)
    case _ => None
  }

  /** The handler of each method. A shard that is not an `i64` and a boc that
      is not base64 fail before any client call; every other method calls
      the client at least once, and no method makes more than two calls. */
  function Handle(b: Backend, serde: Serde, m: Method): (o: Outcome)
    requires NoPanic(b, serde, m)
    ensures ShardOf(m).Some? && ParseI64(ShardOf(m).value).Err? ==>
      o == Outcome(Err(BadInteger(ParseI64(ShardOf(m).value).error)), [])
    ensures m.SendBoc? && !Codec.IsBase64(m.send.boc) ==> o.calls == [] && o.result.Err?
    ensures o.calls == [] ==> o.result.Err?
    ensures |o.calls| <= 2
    ensures (m.Shards? || m.AddressInformation? || m.ExtendedAddressInformation? || m.Transactions? || m.MasterchainInfo?)
      ==> |o.calls| == 1
    ensures m.MasterchainInfo? ==> o == MasterChainInfo(b)
    ensures m.LookupBlock? ==> o == LookupBlockHandler(b, m.lookup)
    ensures m.Shards? ==> o == ShardsHandler(b, m.shards)
    ensures m.BlockHeader? ==> o == BlockHeaderHandler(b, m.header)
    ensures m.BlockTransactions? ==> o == BlockTransactionsHandler(b, serde, m.blockTxs)
    ensures m.AddressInformation? ==> o == AddressInformationHandler(b, m.address)
    ensures m.ExtendedAddressInformation? ==> o == ExtendedAddressInformationHandler(b, m.extended)
    ensures m.Transactions? ==> o == TransactionsHandler(b, serde, m.txs)
    ensures m.SendBoc? ==> o == SendBocHandler(b, m.send)
  {
    match m
    case MasterchainInfo => MasterChainInfo(b)
    case LookupBlock(p) => LookupBlockHandler(b, p)
    case Shards(p) => ShardsHandler(b, p)
    case BlockHeader(p) => BlockHeaderHandler(b, p)
    case BlockTransactions(p) => BlockTransactionsHandler(b, serde, p)
    case AddressInformation(p) => AddressInformationHandler(b, p)
    case ExtendedAddressInformation(p) => ExtendedAddressInformationHandler(b, p)
    case Transactions(p) => TransactionsHandler(b, serde, p)
    case SendBoc(p) => SendBocHandler(b, p)
  }

  /** The client call each method makes once its parameters are accepted,
      as `dispatch_method` routes it: the call names the method's own
      query, with the method's own parameters. */
  lemma RoutedCalls(b: Backend, serde: Serde, m: Method)
    requires NoPanic(b, serde, m)
    ensures m.MasterchainInfo? ==> Handle(b, serde, m).calls == [Point(GetMasterchainInfo)]
    ensures m.Shards? ==> Handle(b, serde, m).calls == [Point(GetShards(m.shards.seqno))]
    ensures m.AddressInformation? ==>
      Handle(b, serde, m).calls == [Point(RawGetAccountState(m.address.address))]
    ensures m.ExtendedAddressInformation? ==>
      Handle(b, serde, m).calls == [Point(GetAccountState(m.extended.address))]
    ensures m.BlockHeader? && ParseI64(m.header.shard).Ok? ==>
      Handle(b, serde, m).calls == [Point(GetBlockHeader(m.header.workchain, ParseI64(m.header.shard).value, m.header.seqno))]
    ensures m.BlockTransactions? && ParseI64(m.blockTxs.shard).Ok? ==>
      Handle(b, serde, m).calls[0] == Point(LookUpBlockBySeqno(m.blockTxs.workchain, ParseI64(m.blockTxs.shard).value, m.blockTxs.seqno))
    ensures m.Transactions? ==> Handle(b, serde, m).calls == [TxSource(m.txs)]
    ensures m.SendBoc? && Codec.IsBase64(m.send.boc) ==>
      Handle(b, serde, m).calls == [Point(SendMessage(m.send.boc))]
  {
    if m.SendBoc? {
      Codec.DecodeOkIff(m.send.boc);
    }
  }

  /** The envelope a request gets and the client calls made for it. */
  datatype Reply = Reply(response: JsonResponse, calls: seq<Call>)

  /** `dispatch_method` on a decoded request: the response echoes the
      request's id, is well formed, is a success exactly when the handler
      succeeded, and reports every failure with the one internal error code
      and the failure's text. The request's `jsonrpc` field is not looked at. */
  function DispatchMethod(b: Backend, serde: Serde, req: JsonRequest): (r: Reply)
    requires NoPanic(b, serde, req.call)
    ensures WellFormed(r.response) && r.response.id == req.id
    ensures r.calls == Handle(b, serde, req.call).calls
    ensures r.response.ok <==> Handle(b, serde, req.call).result.Ok?
    ensures r.response.ok ==> r.response.result == Some(Handle(b, serde, req.call).result.value)
    ensures !r.response.ok ==>
      r.response.error == Some(JsonError(INTERNAL_ERROR, Message(Handle(b, serde, req.call).result.error)))
  {
    var o := Handle(b, serde, req.call);
    match o.result
    case Ok(v) => Reply(Success(req.id, v), o.calls)
    case Err(e) => Reply(Error(req.id, e), o.calls)
  }

  /** What the HTTP endpoint sends back. */
  datatype HttpReply = Rejected(reason: string) | Replied(response: JsonResponse, calls: seq<Call>)

  /** The POST endpoint: a body that does not decode as a request (malformed
      JSON, an unknown `method` tag, parameters of the wrong shape) is
      rejected by the JSON extractor before `dispatch_method` runs, so it
      gets no envelope and causes no client call. */
  function Serve(b: Backend, serde: Serde, body: Result<JsonRequest, string>): (r: HttpReply)
    requires body.Ok? ==> NoPanic(b, serde, body.value.call)
    ensures r.Rejected? <==> body.Err?
    ensures r.Replied? ==>
      && WellFormed(r.response) && r.response.id == body.value.id
      && (!r.response.ok ==> r.response.error.value.code == INTERNAL_ERROR)
    ensures body.Ok? ==>
      r == Replied(DispatchMethod(b, serde, body.value).response, DispatchMethod(b, serde, body.value).calls)
    ensures body.Ok? ==>
      && r.calls == Handle(b, serde, body.value.call).calls
      && (r.response.ok <==> Handle(b, serde, body.value.call).result.Ok?)
  {
    match body
    case Err(reason) => Rejected(reason)
    case Ok(req) =>
      var reply := DispatchMethod(b, serde, req);
      Replied(reply.response, reply.calls)
  }
}
