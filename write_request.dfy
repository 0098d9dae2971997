/**
 * A write request: an ordered, append-only batch of (series, timestamp, value)
 * triples, with structural, order-sensitive equality and a hash code that
 * depends only on the batch's contents.
 */
module WriteRequests {
  import opened DataPoints

  /**
   * The triples that adding `dps` to `series` appends, one per point and in
   * the order of `dps`.
   */
  function Appended(series: Series, dps: seq<DataPoint>): (r: seq<WritableDataPoint>)
    ensures |r| == |dps|
    ensures forall i :: 0 <= i < |dps| ==> r[i] == Entry(series, dps[i])
    ensures forall i :: 0 <= i < |r| ==> r[i].series == series
  {
    if dps == [] then [] else [Entry(series, dps[0])] + Appended(series, dps[1..])
  }

  /** Adding two lists in turn appends the same triples as adding their concatenation. */
  lemma AppendedConcat(series: Series, a: seq<DataPoint>, b: seq<DataPoint>)
    ensures Appended(series, a + b) == Appended(series, a) + Appended(series, b)
  {
  }

  /**
   * The contents after applying the single-point add to each point of `dps`
   * in turn, starting from `entries`.
   */
  function AddEach(entries: seq<WritableDataPoint>, series: Series, dps: seq<DataPoint>): seq<WritableDataPoint>
    decreases dps
  {
    if dps == [] then entries else AddEach(entries + [Entry(series, dps[0])], series, dps[1..])
  }

  /** The list add is the single-point add applied to each point in turn. */
  lemma {:induction false} AddEachIsAppended(entries: seq<WritableDataPoint>, series: Series, dps: seq<DataPoint>)
    ensures AddEach(entries, series, dps) == entries + Appended(series, dps)
    decreases dps
  {
    if dps != [] {
      AddEachIsAppended(entries + [Entry(series, dps[0])], series, dps[1..]);
      assert dps == [dps[0]] + dps[1..];
      AppendedConcat(series, [dps[0]], dps[1..]);
    }
  }

  /**
   * Nothing is de-duplicated: a point that occurs k times in `dps` gives a
   * triple that occurs k times among the appended ones.
   */
  lemma {:induction false} AppendedKeepsMultiplicity(series: Series, dps: seq<DataPoint>, dp: DataPoint)
    ensures multiset(Appended(series, dps))[Entry(series, dp)] == multiset(dps)[dp]
  {
    if dps != [] {
      AppendedKeepsMultiplicity(series, dps[1..], dp);
      assert dps == [dps[0]] + dps[1..];
      assert Appended(series, dps) == [Entry(series, dps[0])] + Appended(series, dps[1..]);
      EntryInjective(series, dps[0], dp);
    }
  }

  /**
   * Two entry lists are equal when they are walked side by side and every
   * pair of elements is equal and both end together, as java.util.List's
   * equality does.
   */
  function SameEntries(a: seq<WritableDataPoint>, b: seq<WritableDataPoint>): (r: bool)
    ensures r <==> |a| == |b| && forall i :: 0 <= i < |a| ==> a[i] == b[i]
  {
    if a == [] || b == [] then a == [] && b == []
    else a[0] == b[0] && SameEntries(a[1..], b[1..])
  }

  /** Java's 32-bit int arithmetic: the value congruent to `x` modulo 2^32 in the int range. */
  function Int32(x: int): (r: int)
    ensures -0x8000_0000 <= r < 0x8000_0000
    ensures (x - r) % 0x1_0000_0000 == 0
    ensures -0x8000_0000 <= x < 0x8000_0000 ==> r == x
  {
    var m := x % 0x1_0000_0000;
    if m < 0x8000_0000 then m else m - 0x1_0000_0000
  }

  /** Wrapping an intermediate result does not change the final 32-bit value. */
  lemma Int32AddWrapped(a: int, b: int)
    ensures Int32(a + Int32(b)) == Int32(a + b)
  {
  }

  class WriteRequest {
    /** The triples of the request, in insertion order. */
    var data: seq<WritableDataPoint>

    /** A fresh request holds no entries. */
    constructor ()
      ensures data == []
    {
      data := [];
    }

    /** Appends the triple for `dp` in `series`; returns this request for chaining. */
    method Add(series: Series, dp: DataPoint) returns (r: WriteRequest)
      modifies this
      ensures r == this
      ensures data == old(data) + [Entry(series, dp)]
      ensures |data| == |old(data)| + 1 && data[..|old(data)|] == old(data)
    {
      var w := Entry(series, dp);
      data := data + [w];
      r := this;
    }

    /**
     * Appends one triple per point of `dps`, in list order, all in `series`;
     * returns this request for chaining.
     */
    method AddAll(series: Series, dps: seq<DataPoint>) returns (r: WriteRequest)
      modifies this
      ensures r == this
      ensures data == old(data) + Appended(series, dps)
      ensures data == AddEach(old(data), series, dps)
      ensures dps == [] ==> data == old(data)
    {
      var i := 0;
      while i < |dps|
        invariant 0 <= i <= |dps|
        invariant data == old(data) + Appended(series, dps[..i])
      {
        var w := Entry(series, dps[i]);
        data := data + [w];
        AppendedConcat(series, dps[..i], [dps[i]]);
        assert dps[..i + 1] == dps[..i] + [dps[i]];
        i := i + 1;
      }
      assert dps[..i] == dps;
      AddEachIsAppended(old(data), series, dps);
      r := this;
    }

    /** The entries, in insertion order, as iterating over the request yields them. */
    function Iterator(): (it: seq<WritableDataPoint>)
      reads this
      ensures |it| == |data| && forall i :: 0 <= i < |data| ==> it[i] == data[i]
    {
      data
    }

    /**
     * Structural equality: false against null and against any object that is
     * not a write request, true against itself, and otherwise true exactly
     * when both requests hold the same triples in the same order.
     */
    predicate Equals(obj: object?)
      reads this, obj
      ensures obj == null ==> !Equals(obj)
      ensures obj == this ==> Equals(obj)
      ensures !(obj is WriteRequest) ==> !Equals(obj)
      ensures obj is WriteRequest ==> (Equals(obj) <==> data == (obj as WriteRequest).data)
    {
      if obj == null then false
      else if obj == this then true
      else if !(obj is WriteRequest) then false
      else
        var rhs := obj as WriteRequest;
        SameEntries(data, rhs.data)
    }

    /**
     * The hash code: HashCodeBuilder(257, 263) appending the entry list, i.e.
     * 257 * 263 plus the list's own hash, in 32-bit arithmetic. The list's
     * hash is given as `listHash`, a function of the entries only.
     */
    function HashCode(listHash: seq<WritableDataPoint> -> int): (h: int)
      reads this
      ensures -0x8000_0000 <= h < 0x8000_0000
      ensures h == Int32(257 * 263 + listHash(data))
    {
      Int32AddWrapped(257 * 263, listHash(data));
      Int32(257 * 263 + Int32(listHash(data)))
    }
  }

  /** Equality of requests is symmetric. */
  lemma EqualsSymmetric(a: WriteRequest, b: WriteRequest)
    ensures a.Equals(b) <==> b.Equals(a)
  {
  }

  /** Equality of requests is transitive. */
  lemma EqualsTransitive(a: WriteRequest, b: WriteRequest, c: WriteRequest)
    requires a.Equals(b) && b.Equals(c)
    ensures a.Equals(c)
  {
  }

  /** Requests that are equal have equal hash codes, whatever the list hash is. */
  lemma HashConsistentWithEquals(a: WriteRequest, b: WriteRequest, listHash: seq<WritableDataPoint> -> int)
    requires a.Equals(b)
    ensures a.HashCode(listHash) == b.HashCode(listHash)
  {
  }

  /** Two requests holding the same triples in a different order are not equal. */
  lemma ReorderedNotEqual(a: WriteRequest, b: WriteRequest)
    requires multiset(a.data) == multiset(b.data) && a.data != b.data
    ensures !a.Equals(b) && !b.Equals(a)
  {
  }

  /**
   * A client of the API: chained adds to a fresh request are iterated in the
   * order they were made, and adding the same point twice stores it twice.
   */
  method ChainedAdds(series: Series, first: DataPoint, second: DataPoint) returns (it: seq<WritableDataPoint>)
    ensures it == [Entry(series, first), Entry(series, second)]
    ensures first == second ==> multiset(it)[Entry(series, first)] == 2
  {
    var request := new WriteRequest();
    var chained := request.Add(series, first);
    chained := chained.Add(series, second);
    it := chained.Iterator();
  }
}
