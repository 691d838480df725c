/**
 * Reading the production log page by page (main/prog/prog_log.cpp, read and read_entry). An
 * entry is its id, its encoded length and whether the store yields at least its header.
 */
module LogPaging {
  import opened Base

  datatype Entry = Entry(id: nat, len: nat, readable: bool)

  /** Largest response frame; the output stream of LOG_READ is shorter than this. */
  const TX_BUF_SIZE := 1024
  const ENTRY_OVERHEAD := 3

  /** Bytes of n as a base-128 varint. */
  function VarintLen(n: nat): (r: nat)
    ensures r >= 1
  {
    if n < 128 then 1 else 1 + VarintLen(n / 128)
  }

  function Pow128(k: nat): nat { if k == 0 then 1 else 128 * Pow128(k - 1) }

  /** Seven bits go into each byte, and no byte is wasted. */
  lemma {:induction false} VarintLenExact(n: nat)
    ensures n < Pow128(VarintLen(n)) && (n > 0 ==> Pow128(VarintLen(n) - 1) <= n)
  {
    if n >= 128 {
      VarintLenExact(n / 128);
      assert Pow128(VarintLen(n)) == 128 * Pow128(VarintLen(n / 128));
      assert Pow128(VarintLen(n) - 1) == 128 * Pow128(VarintLen(n / 128) - 1);
    }
  }

  /** Tag, length prefix and body of one entry in the response. */
  function EncodedSize(e: Entry): nat { 1 + VarintLen(e.len) + e.len }

  /** Bytes taken by n entries from position k on. */
  function TotalSize(es: seq<Entry>, k: nat, n: nat): nat
    requires k + n <= |es|
  {
    if n == 0 then 0 else TotalSize(es, k, n - 1) + EncodedSize(es[k + n - 1])
  }

  predicate Ordered(es: seq<Entry>) {
    forall i, j :: 0 <= i < j < |es| ==> es[i].id < es[j].id
  }

  /** Position of the first entry with an id above afterId. */
  function FirstAfter(es: seq<Entry>, afterId: nat): (k: nat)
    ensures k <= |es|
  {
    if es == [] then 0
    else if es[|es| - 1].id <= afterId then |es|
    else FirstAfter(es[..|es| - 1], afterId)
  }

  lemma {:induction false} FirstAfterMeans(es: seq<Entry>, afterId: nat)
    requires Ordered(es)
    ensures forall i :: 0 <= i < |es| ==> (i < FirstAfter(es, afterId) <==> es[i].id <= afterId)
  {
    if es != [] && es[|es| - 1].id > afterId {
      FirstAfterMeans(es[..|es| - 1], afterId);
    }
  }

  /** The 3-byte estimate is never short for an entry that fits the response buffer. */
  lemma OverheadSuffices(e: Entry)
    requires e.len + ENTRY_OVERHEAD <= TX_BUF_SIZE
    ensures EncodedSize(e) <= e.len + ENTRY_OVERHEAD
  {
    assert VarintLen(e.len / 128) == 1;
  }

  /** Entry k is deliverable next to n bytes already written. */
  predicate Fits(e: Entry, used: nat, room: nat) { e.readable && used + e.len + ENTRY_OVERHEAD <= room }

  /** Each of n entries from position k on fitted when its turn came. */
  predicate EachFitted(es: seq<Entry>, k: nat, n: nat, room: nat) {
    k + n <= |es| && forall i :: 0 <= i < n ==> Fits(es[k + i], TotalSize(es, k, i), room)
  }

  /** One read emits n entries from position k: each fitted, and nothing more would fit. */
  predicate IsPage(es: seq<Entry>, k: nat, n: nat, room: nat) {
    EachFitted(es, k, n, room) && (k + n < |es| ==> !Fits(es[k + n], TotalSize(es, k, n), room))
  }

  /** What fitted under the estimate fits the buffer. */
  lemma {:induction false} NeverOverruns(es: seq<Entry>, k: nat, n: nat, room: nat)
    requires EachFitted(es, k, n, room) && room <= TX_BUF_SIZE
    ensures TotalSize(es, k, n) <= room && (n > 0 <==> TotalSize(es, k, n) > 0)
  {
    if n > 0 {
      assert Fits(es[k + (n - 1)], TotalSize(es, k, n - 1), room);
      OverheadSuffices(es[k + n - 1]);
    }
  }

  lemma EmitNext(es: seq<Entry>, k: nat, n: nat, room: nat)
    requires EachFitted(es, k, n, room) && k + n < |es| && Fits(es[k + n], TotalSize(es, k, n), room)
    ensures EachFitted(es, k, n + 1, room) && es[k..k + n + 1] == es[k..k + n] + [es[k + n]]
  {
  }

  /** The page at a position is determined: it is the longest run of entries that fits. */
  lemma PageUnique(es: seq<Entry>, k: nat, n: nat, m: nat, room: nat)
    requires IsPage(es, k, n, room) && IsPage(es, k, m, room)
    ensures n == m
  {
  }

  /** Reading on from the id of entry k continues at k + 1. */
  lemma AfterEntry(es: seq<Entry>, k: nat)
    requires Ordered(es) && k < |es|
    ensures FirstAfter(es, es[k].id) == k + 1
  {
    FirstAfterMeans(es, es[k].id);
    assert k + 1 < |es| ==> es[k].id < es[k + 1].id;
  }

  /**
   * read: entries go out while they fit under the estimate. The stream never holds more than
   * maxSize bytes, and what was emitted is exactly the page at afterId.
   */
  method ReadPage(es: seq<Entry>, afterId: nat, maxSize: nat) returns (r: Err, out: seq<Entry>, written: nat)
    requires Ordered(es) && maxSize <= TX_BUF_SIZE
    ensures var k := FirstAfter(es, afterId);
            && IsPage(es, k, |out|, maxSize) && out == es[k..k + |out|]
            && written == TotalSize(es, k, |out|) <= maxSize
            && (r != Ok <==> out == [] && k < |es| && !es[k].readable)
  {
    var k, cursor, n := FirstAfter(es, afterId), afterId, 0;
    out, written := [], 0;
    while true
      invariant n == |out| && EachFitted(es, k, n, maxSize) && out == es[k..k + n]
      invariant written == TotalSize(es, k, n) && FirstAfter(es, cursor) == k + n
      decreases |es| - n
    {
      NeverOverruns(es, k, n, maxSize);
      var next := FirstAfter(es, cursor);
      if next == |es| {
        return Ok, out, written;
      }
      var e := es[next];
      if !e.readable {
        return (if written > 0 then Ok else Fail), out, written;
      }
      if e.len + ENTRY_OVERHEAD > maxSize - written {
        return Ok, out, written;
      }
      AfterEntry(es, next);
      EmitNext(es, k, n, maxSize);
      out, written, cursor, n := out + [e], written + EncodedSize(e), e.id, n + 1;
    }
  }

  /** Everything from position k on can be delivered. */
  predicate AllFit(es: seq<Entry>, k: nat, maxSize: nat) {
    forall i :: k <= i < |es| ==> Fits(es[i], 0, maxSize)
  }

  /**
   * A host that keeps reading from the last id it got, until a page comes back empty, gets
   * entries in log order without repetition; and it gets the whole log exactly when every
   * entry is readable and fits a page of its own.
   */
  method PullLog(es: seq<Entry>, afterId: nat, maxSize: nat) returns (got: seq<Entry>)
    requires Ordered(es) && maxSize <= TX_BUF_SIZE
    ensures var k := FirstAfter(es, afterId);
            && k + |got| <= |es| && got == es[k..k + |got|]
            && (k + |got| == |es| <==> AllFit(es, k, maxSize))
  {
    var k, cursor, n := FirstAfter(es, afterId), afterId, 0;
    got := [];
    while true
      invariant |got| == n && k + n <= |es| && got == es[k..k + n] && FirstAfter(es, cursor) == k + n
      invariant forall i :: k <= i < k + n ==> Fits(es[i], 0, maxSize)
      decreases |es| - n
    {
      var r, page, w := ReadPage(es, cursor, maxSize);
      if page == [] {
        assert k + n < |es| ==> !Fits(es[k + n], 0, maxSize);
        return;
      }
      FitsAlone(es, k + n, |page|, maxSize);
      AfterEntry(es, k + n + |page| - 1);
      assert es[k..k + n] + es[k + n..k + n + |page|] == es[k..k + n + |page|];
      got, cursor, n := got + page, page[|page| - 1].id, n + |page|;
    }
  }

  lemma FitsAlone(es: seq<Entry>, k: nat, n: nat, room: nat)
    requires EachFitted(es, k, n, room)
    ensures forall i :: k <= i < k + n ==> Fits(es[i], 0, room)
  {
    forall i | k <= i < k + n
      ensures Fits(es[i], 0, room)
    {
      assert Fits(es[k + (i - k)], TotalSize(es, k, i - k), room);
    }
  }
}
