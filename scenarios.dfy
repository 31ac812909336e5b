/** Concrete requests and streams, worked through the model: the behaviour
    the gateway is expected to show on small inputs. */
module Scenarios {
  import opened Wrappers
  import opened Integers
  import opened JsonValue
  import opened Tonlib
  import opened Pagination
  import opened RpcServer
  import Codec

  /** A transaction of an account's history with logical time `lt`. */
  function Tx(lt: string): RawTransaction {
    RawTransaction(InternalTransactionId("", lt), Null)
  }

  /** The logical times the scenarios below read. */
  lemma Times()
    ensures LtOf(Tx("100")) == Ok(100) && LtOf(Tx("90")) == Ok(90) && LtOf(Tx("80")) == Ok(80)
    ensures LtOf(Tx("60")) == Ok(60) && LtOf(Tx("50")) == Ok(50)
  {
    ParseFormatI64(100);
    ParseFormatI64(90);
    ParseFormatI64(80);
    ParseFormatI64(60);
    ParseFormatI64(50);
    assert FormatI64(100) == "100";
  }

  /** Logical times 100, 90, 80, 70 and the bound "lt > 80": the two newer
      transactions under the default limit. */
  lemma TakeWhileThenTake()
    ensures var src := [Tx("100"), Tx("90"), Tx("80"), Tx("70")];
      Examinable(src, Some(80), 10) && Collect(src, Some(80), 10) == [Tx("100"), Tx("90")]
  {
    Times();
    var src := [Tx("100"), Tx("90"), Tx("80"), Tx("70")];
    assert src[1..][1..] == [Tx("80"), Tx("70")];
    assert Collect(src[1..][1..], Some(80), 8) == [];
  }

  /** The same stream under a limit of 1: only the newest transaction. */
  lemma LimitBeforeBound()
    ensures var src := [Tx("100"), Tx("90"), Tx("80"), Tx("70")];
      Examinable(src, Some(80), 1) && Collect(src, Some(80), 1) == [Tx("100")]
  {
    Times();
  }

  /** The same stream under the bound 1000: nothing is newer. */
  lemma NothingAbove()
    ensures var src := [Tx("100"), Tx("90"), Tx("80"), Tx("70")];
      Examinable(src, Some(1000), 10) && Collect(src, Some(1000), 10) == []
  {
    Times();
  }

  /** `to_lt = 50` over logical times 100, 60, 50, 40 stops before 50,
      because 50 > 50 does not hold. */
  lemma BoundIsStrict()
    ensures var src := [Tx("100"), Tx("60"), Tx("50"), Tx("40")];
      Examinable(src, Some(50), 10) && Collect(src, Some(50), 10) == [Tx("100"), Tx("60")]
  {
    Times();
    var src := [Tx("100"), Tx("60"), Tx("50"), Tx("40")];
    assert src[1..][1..] == [Tx("50"), Tx("40")];
    assert Collect(src[1..][1..], Some(50), 8) == [];
  }

  /** `limit = 2` over five transactions and no `to_lt` keeps the first two,
      in source order, without reading any logical time. */
  lemma LimitOnly()
    ensures Collect([Tx("5"), Tx("4"), Tx("3"), Tx("x"), Tx("1")], None, 2) == [Tx("5"), Tx("4")]
  {
  }

  /** `lookupBlock` with only seqno 5 looks the block up by seqno; with seqno
      0, with nothing, or with seqno and lt together it is refused; with only
      a unixtime it is refused as unsupported. */
  lemma LookupChoices()
    ensures ResolveLookup(Some(5), None, None) == Ok(BySeqno(5))
    ensures ResolveLookup(Some(0), None, None) == Err(NO_LOOKUP_KEY)
    ensures ResolveLookup(None, None, None) == Err(NO_LOOKUP_KEY)
    ensures ResolveLookup(Some(5), Some(7), None) == Err(NO_LOOKUP_KEY)
    ensures ResolveLookup(None, None, Some(1600000000)) == Err(UNIXTIME_UNSUPPORTED)
  {
  }

  /** The bytes 1, 2, 3 are "AQID" in base64 and "010203" in hexadecimal. */
  lemma SmallIdentifier()
    ensures Codec.Encode([1, 2, 3]) == "AQID"
    ensures Codec.Base64ToHex("AQID") == Ok("010203")
  {
    var b: seq<Codec.byte> := [1, 2, 3];
    assert b[3..] == [];
    assert Codec.Encode(b) == Codec.EncodeGroup(1, 2, 3);
    assert Codec.EncodeGroup(1, 2, 3) == [Codec.SymbolOf(0), Codec.SymbolOf(16), Codec.SymbolOf(8), Codec.SymbolOf(3)];
    assert b[1..] == [2, 3] && b[1..][1..] == [3];
    assert Codec.Hex(b) == "010203";
    Codec.Base64ToHexEncode(b);
  }

  /** Rejected shards: a stray character after a digit, and a lone sign. */
  lemma ParseErrors()
    ensures ParseI64("1x") == Err(InvalidDigit)
    ensures ParseI64("-") == Err(InvalidDigit)
  {
  }
}
