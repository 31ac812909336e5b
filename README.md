# tonlibjson-jsonrpc request handling, modelled in Dafny

The gateway takes JSON-RPC-shaped requests over HTTP and forwards each one to a
TON blockchain client (tonlib). It supports block lookup, shard listing, block
headers, block and account transactions, account state and message
submission. This project models the request-handling layer of
`tonlibjson-jsonrpc/src/main.rs` and proves properties about it:

- **The response envelope.** `JsonResponse::new` and `JsonResponse::error`, the
  wire form of the envelope, and the way `dispatch_method` wraps every outcome
  (`Envelope`, `Dispatch`).
- **The handlers of `RpcServer`** (`RpcServer`):
  - how `lookupBlock` resolves `seqno`, `lt` and `unixtime`;
  - how a shard string is checked before any client call;
  - the rewrite of block-transaction accounts to `"<workchain>:<hex>"`;
  - the choice of stream for `getTransactions`;
  - the base64 check in `sendBoc`.
- **The pagination pipeline** of `getTransactions` (`Pagination`): an optional
  short-circuiting `take_while(lt > to_lt)`, then `take(limit)`, then
  `collect`.
- **The identifier codec** `base64_to_hex`: standard base64 as in section 4 of
  RFC 4648, and lowercase hexadecimal as in section 8 (`Codec`).
- **Rust's `str::parse::<i64>`** and the decimal `Display` of an `i64`
  (`Integers`). The gateway uses them on shards, on `to_lt`, on transaction
  logical times and on the workchain prefix.

The tonlib client is a `Backend`: a datatype of total functions that answer
every point lookup and produce every stream as a finite sequence. The serde
conversions of tonlib's records are a `Serde` datatype of functions of the same
kind. Each handler returns an `Outcome`: its result together with the list of
client calls it made, in order. A contract can therefore say "no client call
was made" as `calls == []`.

Files: `wrappers.dfy` (Option, Result), `integers.dfy`, `codec.dfy`,
`json.dfy` (the JSON value), `tonlib.dfy` (the client interface),
`envelope.dfy`, `pagination.dfy`, `server.dfy`, `dispatch.dfy`, and
`scenarios.dfy` (small worked inputs).

Three behaviours of the code are easy to misread:

- A body that does not decode as a request gets no envelope. This covers an
  unknown `method` tag and parameters of the wrong shape. axum's JSON extractor
  rejects such a body before `dispatch_method` runs (main.rs:248;
  `Dispatch.Serve`).
- `getBlockTransactions` does not cut the list to `count`. It only echoes
  `count` as `req_count` (main.rs:174, 199).
- The account prefix is the workchain of the block the lookup returned,
  `block.workchain` (main.rs:185).

## Model

| member | source | states |
|---|---|---|
| `Integers.ParseI64` | tonlibjson-jsonrpc/src/main.rs:148 | fails with Empty exactly on the empty text; succeeds exactly when the text is an optional sign and digits denoting a value in the 64-bit range, and then returns that value; any other text fails with the overflow in the sign's direction when its leading digits already exceed the range, and with InvalidDigit otherwise, a lone sign included |
| `Integers.FormatI64` | tonlibjson-jsonrpc/src/main.rs:185 | the `{}` text of an `i64`: a `-` exactly for negative values, never a `+`, then decimal digits with no leading zero |
| `Integers.ParseFormatI64` | tonlibjson-jsonrpc/src/main.rs:185 | the decimal text written for any `i64` (as in the `"{}:{}"` prefix) parses back to the same number |
| `Codec.Decode` | tonlibjson-jsonrpc/src/main.rs:299 | whatever standard base64 decoding accepts is the canonical encoding of the bytes it returns; a length that is not a multiple of four is refused |
| `Codec.Encode` | tonlibjson-jsonrpc/src/main.rs:242 | the padded base64 text has a length that is a multiple of four and is empty exactly for no bytes; `Codec.DecodeEncode` is its inverse |
| `Codec.DecodeEncode` | tonlibjson-jsonrpc/src/main.rs:299 | decoding the base64 encoding of any bytes gives those bytes back |
| `Codec.DecodeOkIff` | tonlibjson-jsonrpc/src/main.rs:299 | decoding succeeds exactly on the texts that are the base64 encoding of some bytes |
| `Codec.Hex` | tonlibjson-jsonrpc/src/main.rs:300 | the hexadecimal text has two characters per byte, all lowercase hex digits |
| `Codec.HexDecodeHex` | tonlibjson-jsonrpc/src/main.rs:300 | the hexadecimal text names exactly the bytes it was written from |
| `Codec.Base64ToHex` | tonlibjson-jsonrpc/src/main.rs:298-303 | fails exactly when the input is not valid base64; on success the output is lowercase hex of even length, twice the byte count, naming exactly the bytes whose base64 encoding is the input |
| `Codec.Base64ToHexEncode` | tonlibjson-jsonrpc/src/main.rs:298-303 | base64-encoding any bytes and passing them through the codec gives the hexadecimal form of those bytes |
| `Envelope.Success` | tonlibjson-jsonrpc/src/main.rs:114-122 | a well-formed envelope with `ok`, the given result, no error, version "2.0" and the given id |
| `Envelope.Error` | tonlibjson-jsonrpc/src/main.rs:124-132 | a well-formed envelope without `ok` or result, with error code -32603 and the error's text, version "2.0" and the given id |
| `Envelope.Message` | tonlibjson-jsonrpc/src/main.rs:128 | a client or serde error's text passes through unchanged; a shard parse error's text is Rust's `ParseIntError` text for its kind (`IntErrorMessage`), non-empty and distinct from every other kind's text; a base64 error's text is non-empty |
| `Envelope.ToJson` | tonlibjson-jsonrpc/src/main.rs:102-111 | the wire object's keys are exactly `ok`, `error` when an error is present, `result` when a result is present, `jsonrpc` and `id`, once each and in that order; it carries `ok` and `id` with the envelope's values |
| `Envelope.ToJsonValues` | tonlibjson-jsonrpc/src/main.rs:102-111 | the wire object carries the version under `jsonrpc`, the result as it is under `result`, and the error as its code and message under `error` |
| `Envelope.WireShape` | tonlibjson-jsonrpc/src/main.rs:102-111 | on the wire a well-formed envelope has `result` exactly when it is a success and `error` exactly when it is a failure |
| `JsonValue.SerializeSeq` | tonlibjson-jsonrpc/src/main.rs:237 | serialising a list succeeds exactly when every element serialises, and then gives each element's value in order; otherwise it gives the error of the first element that fails |
| `Pagination.Collect` | tonlibjson-jsonrpc/src/main.rs:225-235 | the page is a prefix of the stream in stream order and no longer than the limit; with a bound, every item is newer than the bound and the page stops early only before the first item that is not; without a bound it has min(limit, stream length) items |
| `Pagination.PageUnique` | tonlibjson-jsonrpc/src/main.rs:225-235 | any sequence with the page properties is the pipeline's result, so those properties determine the page |
| `Pagination.CollectIsTakeOfTakeWhile` | tonlibjson-jsonrpc/src/main.rs:225-233 | when every logical time parses, the pipeline equals `take(limit)` applied to `take_while(lt > to_lt)` of the whole stream |
| `Pagination.CollectUnboundedIsTake` | tonlibjson-jsonrpc/src/main.rs:229-233 | without a bound no logical time is read and the pipeline is `take(limit)` alone |
| `RpcServer.MasterChainInfo` | tonlibjson-jsonrpc/src/main.rs:142-144 | one call to `get_masterchain_info`, whose answer is the result |
| `RpcServer.ResolveLookup` | tonlibjson-jsonrpc/src/main.rs:150-155 | a seqno lookup exactly when only a positive seqno is given; an lt lookup exactly when only a positive lt is given; "unixtime is not supported" exactly when only unixtime is given; "seqno or lt or unixtime must be provided" for every other combination |
| `RpcServer.LookupBlockHandler` | tonlibjson-jsonrpc/src/main.rs:146-156 | an unparsable shard fails with the parse error and no call, whatever the other parameters are; a refused combination fails with its message and no call; otherwise exactly the chosen lookup is made, with the parsed shard, and its answer is the result |
| `RpcServer.ShardsHandler` | tonlibjson-jsonrpc/src/main.rs:158-160 | one call to `get_shards` with the given seqno, whose answer is the result |
| `RpcServer.BlockHeaderHandler` | tonlibjson-jsonrpc/src/main.rs:162-170 | an unparsable shard fails with no call; otherwise exactly one `get_block_header` call with the parsed shard, whose answer is the result |
| `RpcServer.RewriteAccount` | tonlibjson-jsonrpc/src/main.rs:184-189 | the account becomes the workchain, a colon and the codec's hex of the original account; hash, lt and mode are unchanged |
| `RpcServer.RewriteAccountReversible` | tonlibjson-jsonrpc/src/main.rs:185 | the rewritten account splits back into the workchain, which parses, and a hex part naming exactly the bytes of the original base64 account |
| `RpcServer.RewriteAccounts` | tonlibjson-jsonrpc/src/main.rs:180-192 | the result has the same length as the block's stream and holds, in stream order, each transaction rewritten |
| `RpcServer.BlockTransactionsHandler` | tonlibjson-jsonrpc/src/main.rs:172-202 | an unparsable shard fails with no call; otherwise the first call is the seqno lookup; a failed lookup, or a block JSON that does not read as a block id, fails with that error after the lookup alone, with no stream opened; otherwise it opens that block's stream and returns every transaction, rewritten against the found block's workchain, with `req_count` equal to `count` (200 when absent) |
| `RpcServer.AddressInformationHandler` | tonlibjson-jsonrpc/src/main.rs:204-206 | one call to `raw_get_account_state` for the address, whose answer is the result |
| `RpcServer.ExtendedAddressInformationHandler` | tonlibjson-jsonrpc/src/main.rs:208-210 | one call to `get_account_state` for the address, whose answer is the result |
| `RpcServer.TxSource` | tonlibjson-jsonrpc/src/main.rs:219-224 | the stream starts from the cursor (hash, lt) exactly when both `lt` and `hash` are given, and from the latest transaction otherwise |
| `RpcServer.ToLtBound` | tonlibjson-jsonrpc/src/main.rs:215 | there is a bound exactly when `to_lt` is given and parses, and it is the parsed value; an unparsable `to_lt` is dropped without an error |
| `RpcServer.TransactionPage` | tonlibjson-jsonrpc/src/main.rs:212-235 | the transactions collected form a page of the chosen stream, with the limit defaulting to 10 and the bound taken from `to_lt` |
| `RpcServer.TransactionsHandler` | tonlibjson-jsonrpc/src/main.rs:212-238 | exactly one call, opening the chosen stream; succeeds exactly when every transaction of the page serialises, and then returns a JSON array of their values in page order; otherwise fails with the error of the first transaction that does not serialise |
| `RpcServer.SendBocHandler` | tonlibjson-jsonrpc/src/main.rs:240-245 | a boc that is not base64 fails with the decode error and no call; otherwise exactly one `send_message` call with the canonical re-encoding, which is the boc itself, and its answer is the result |
| `Dispatch.Handle` | tonlibjson-jsonrpc/src/main.rs:251-261 | each method's outcome is exactly its own handler's, with that method's parameters; a shard that does not parse fails before any client call; a boc that is not base64 makes no call; an outcome without calls is a failure; no request makes more than two calls |
| `Dispatch.RoutedCalls` | tonlibjson-jsonrpc/src/main.rs:251-261 | the client call each method makes once its parameters are accepted: `get_masterchain_info`, `get_shards(seqno)`, `raw_get_account_state` for `getAddressInformation`, `get_account_state` for `getExtendedAddressInformation`, `get_block_header` with the parsed shard, the seqno lookup first for `getBlockTransactions`, the chosen account stream for `getTransactions`, and `send_message` with the boc for `sendBoc` |
| `Dispatch.DispatchMethod` | tonlibjson-jsonrpc/src/main.rs:248-269 | the response echoes the request's id and is well formed; it is a success exactly when the handler succeeded, carrying its result; every failure has code -32603 and the failure's text; the calls are the handler's |
| `Dispatch.Serve` | tonlibjson-jsonrpc/src/main.rs:248-268 | a body that does not decode as a request is rejected without an envelope; a decoded request is answered with exactly the envelope and calls `dispatch_method` builds from that request's own handler: well formed, with its id, the handler's calls, ok exactly when the handler succeeded, and code -32603 on failure |
| `Scenarios.TakeWhileThenTake` | tonlibjson-jsonrpc/src/main.rs:225-235 | logical times 100, 90, 80, 70 with bound 80 and limit 10 give 100, 90 |
| `Scenarios.LimitBeforeBound` | tonlibjson-jsonrpc/src/main.rs:225-235 | the same stream and bound under limit 1 give 100 alone |
| `Scenarios.NothingAbove` | tonlibjson-jsonrpc/src/main.rs:225-235 | the same stream under bound 1000 gives nothing |
| `Scenarios.BoundIsStrict` | tonlibjson-jsonrpc/src/main.rs:226-228 | bound 50 over 100, 60, 50, 40 gives 100, 60 |
| `Scenarios.LimitOnly` | tonlibjson-jsonrpc/src/main.rs:232-235 | limit 2 without a bound keeps the first two of five, even when a later logical time does not parse |
| `Scenarios.LookupChoices` | tonlibjson-jsonrpc/src/main.rs:150-155 | seqno 5 alone picks the seqno lookup; seqno 0, nothing, or seqno with lt is refused; unixtime alone is unsupported |
| `Scenarios.SmallIdentifier` | tonlibjson-jsonrpc/src/main.rs:298-303 | the bytes 1, 2, 3 are "AQID" in base64 and "010203" in hex |
| `Scenarios.ParseErrors` | tonlibjson-jsonrpc/src/main.rs:148 | a shard "1x" and a shard "-" are both rejected as InvalidDigit |

## Left out

- `main` (process start-up, the config file, client build and synchronisation, the router, socket binding): I/O and bootstrap only.
- The tonlib client's operations: each is a field of `Backend`, an arbitrary total function, so no property of the client is assumed. Streams are finite sequences. Their laziness shows only in which logical times are read.
- async/await and tokio scheduling: each request is handled as one sequential computation.
- serde: decoding a request body is an abstract `Result` given to `Dispatch.Serve`. The conversions of tonlib records are the fields of `Serde`. The JSON field layout of `BlockIdExt`, `ShortTxId` and `RawTransaction` is not modelled.
- `serde_json::to_value` applied to a value that is already a `serde_json::Value` is the identity. For `MasterchainInfo`, the answer of the `GetMasterchainInfo` lookup already stands for the serialised value, so a serialisation failure there is a client error in the model.
- JSON numbers are integers; floating point is not modelled.
- The key order of the object built with `json!` is the order written, which is also serde_json's sorted order for these keys.
- `println!` logging (lines 183 and 249).
- The two `unwrap` panics are preconditions, not outcomes: `RpcServer.BlockTxsDecodable` for an account that is not base64, and `RpcServer.TxTimesReadable` for a logical time that does not parse. Each one covers exactly the items the source reads.
- `Codec.Decode`: models strict base64 as in section 4 of RFC 4648, with a length that is a multiple of four, padding only at the end and zero leftover bits. Some releases of the base64 crate also accept unpadded input; the crate version is not part of this model. The crate's choice among its error variants, and the byte offsets it reports for non-ASCII input, are approximated: the model reports the first offending character, counted in characters.
- Workchain, shard and seqno use the widths of the request parameters (`i64`, `u64`); a transaction's `mode` is an unbounded integer passed through unchanged. The field widths inside tonlib's own records are not part of this model.
- The parameters the code accepts and ignores (`root_hash`, `file_hash`, `after_lt`, `after_hash`, `archival`, and the request's `jsonrpc`) are fields of the model's records that no handler reads.
- HTTP status codes and the text of axum's rejection response.
