/** The pipeline `get_transactions` runs over an account's transaction
    stream: an optional short-circuiting `take_while(lt > to_lt)`, then
    `take(limit)`, then `collect`. Streams are finite sequences here; the
    laziness of the source shows only in which transactions have their
    logical time read. */
module Pagination {
  import opened Wrappers
  import opened Integers
  import opened Tonlib

  /** `tx.transaction_id.lt.parse::<i64>()`. */
  function LtOf(tx: RawTransaction): Result<i64, IntErrorKind> {
    ParseI64(tx.transactionId.lt)
  }

  predicate LtReadable(tx: RawTransaction) {
    LtOf(tx).Ok?
  }

  /** The `take_while` condition: the transaction is newer than the bound. */
  predicate Above(tx: RawTransaction, toLt: i64)
    requires LtReadable(tx)
  {
    LtOf(tx).value > toLt
  }

  /** Every transaction whose logical time the pipeline reads has a readable
      one. `take` stops pulling after `limit` items and `take_while` stops
      at the first item failing its condition, so only a prefix is read; an
      unreadable time there makes the source's `unwrap` panic. */
  predicate Examinable(src: seq<RawTransaction>, toLt: Option<i64>, limit: nat)
    decreases |src|
  {
    || limit == 0
    || src == []
    || toLt.None?
    || (LtReadable(src[0]) && (Above(src[0], toLt.value) ==> Examinable(src[1..], toLt, limit - 1)))
  }

  /** What a page of the stream is: a prefix of the source in source order,
      no longer than `limit`, every transaction above the bound when there is
      one, and stopping early only at the first transaction that is not. */
  ghost predicate IsPage(src: seq<RawTransaction>, toLt: Option<i64>, limit: nat, page: seq<RawTransaction>) {
    && |page| <= |src| && page == src[..|page|]
    && |page| <= limit
    && (toLt.Some? ==> forall i :: 0 <= i < |page| ==> LtReadable(page[i]) && Above(page[i], toLt.value))
    && (|page| < limit && |page| < |src| ==> toLt.Some? && LtReadable(src[|page|]) && !Above(src[|page|], toLt.value))
  }

  /** The pipeline itself, item by item as the stream is pulled. */
  function Collect(src: seq<RawTransaction>, toLt: Option<i64>, limit: nat): (page: seq<RawTransaction>)
    requires Examinable(src, toLt, limit)
    ensures IsPage(src, toLt, limit, page)
    ensures toLt.None? ==> |page| == if limit < |src| then limit else |src|
    decreases |src|
  {
    if limit == 0 || src == [] then []
    else if toLt.Some? && !Above(src[0], toLt.value) then []
    else
      var rest := Collect(src[1..], toLt, limit - 1);
      PageCons(src, toLt, limit, rest);
      [src[0]] + rest
  }

  /** A page of the tail, after a first transaction the pipeline keeps, is a
      page of the whole stream. */
  lemma PageCons(src: seq<RawTransaction>, toLt: Option<i64>, limit: nat, rest: seq<RawTransaction>)
    requires limit > 0 && src != []
    requires toLt.Some? ==> LtReadable(src[0]) && Above(src[0], toLt.value)
    requires IsPage(src[1..], toLt, limit - 1, rest)
    ensures IsPage(src, toLt, limit, [src[0]] + rest)
  {
    var page := [src[0]] + rest;
    assert page == src[..|page|];
    assert forall i :: 1 <= i < |page| ==> page[i] == rest[i - 1];
  }

  /** A page is determined by the source, the bound and the limit: the
      pipeline's result is the only sequence with the properties of a page. */
  lemma {:induction false} PageUnique(src: seq<RawTransaction>, toLt: Option<i64>, limit: nat, page: seq<RawTransaction>)
    requires Examinable(src, toLt, limit)
    requires IsPage(src, toLt, limit, page)
    ensures page == Collect(src, toLt, limit)
    decreases |src|
  {
    var r := Collect(src, toLt, limit);
    PageNotShorter(src, toLt, limit, page, r);
    PageNotShorter(src, toLt, limit, r, page);
  }

  /** A page cannot stop before another page of the same stream ends: where
      it stops, the other would hold a transaction that is not above the
      bound. */
  lemma PageNotShorter(src: seq<RawTransaction>, toLt: Option<i64>, limit: nat, p: seq<RawTransaction>, q: seq<RawTransaction>)
    requires IsPage(src, toLt, limit, p) && IsPage(src, toLt, limit, q)
    ensures |p| >= |q|
  {
  }

  /** `take_while(lt > to_lt)` over a whole stream whose times all read. */
  function TakeWhileAbove(src: seq<RawTransaction>, toLt: i64): seq<RawTransaction>
    requires forall i :: 0 <= i < |src| ==> LtReadable(src[i])
    decreases |src|
  {
    if src == [] || !Above(src[0], toLt) then [] else [src[0]] + TakeWhileAbove(src[1..], toLt)
  }

  /** `take(n)`. */
  function Take(s: seq<RawTransaction>, n: nat): seq<RawTransaction> {
    if n < |s| then s[..n] else s
  }

  /** On a stream whose times all read, the pipeline is the composition of
      the two stream combinators, in the order the source applies them. */
  lemma {:induction false} CollectIsTakeOfTakeWhile(src: seq<RawTransaction>, toLt: i64, limit: nat)
    requires forall i :: 0 <= i < |src| ==> LtReadable(src[i])
    ensures Examinable(src, Some(toLt), limit)
    ensures Collect(src, Some(toLt), limit) == Take(TakeWhileAbove(src, toLt), limit)
    decreases |src|
  {
    if limit != 0 && src != [] && Above(src[0], toLt) {
      assert forall i :: 0 <= i < |src[1..]| ==> src[1..][i] == src[i + 1];
      CollectIsTakeOfTakeWhile(src[1..], toLt, limit - 1);
      CollectIsTakeOfTakeWhileStep(src, toLt, limit);
    }
  }

  /** The inductive step of `CollectIsTakeOfTakeWhile`: a leading
      transaction above the bound is kept by both sides. */
  lemma CollectIsTakeOfTakeWhileStep(src: seq<RawTransaction>, toLt: i64, limit: nat)
    requires forall i :: 0 <= i < |src| ==> LtReadable(src[i])
    requires limit != 0 && src != [] && Above(src[0], toLt)
    requires Examinable(src[1..], Some(toLt), limit - 1)
    requires Collect(src[1..], Some(toLt), limit - 1) == Take(TakeWhileAbove(src[1..], toLt), limit - 1)
    ensures Examinable(src, Some(toLt), limit)
    ensures Collect(src, Some(toLt), limit) == Take(TakeWhileAbove(src, toLt), limit)
  {
    var tail := TakeWhileAbove(src[1..], toLt);
    assert TakeWhileAbove(src, toLt) == [src[0]] + tail;
    assert Collect(src, Some(toLt), limit) == [src[0]] + Take(tail, limit - 1);
  }

  /** Without a bound, the pipeline is `take(limit)` alone. */
  lemma CollectUnboundedIsTake(src: seq<RawTransaction>, limit: nat)
    ensures Examinable(src, None, limit)
    ensures Collect(src, None, limit) == Take(src, limit)
  {
  }
}
