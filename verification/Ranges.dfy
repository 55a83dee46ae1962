/** Splitting a body into byte ranges (core/services/download_service.py:81-98). */
module Ranges {
  import opened Bytes

  /** Both ends are included, as in a Range header. */
  datatype Span = Span(first: nat, last: nat) {
    function Length(): int { last - first + 1 }
  }

  /** The spans cover [0, total) in order, without gaps or overlaps, and none is empty. */
  predicate Tiles(spans: seq<Span>, total: nat) {
    if spans == [] then total == 0
    else
      var front, last := spans[..|spans| - 1], spans[|spans| - 1];
      last.first <= last.last && last.last + 1 == total && Tiles(front, last.first)
  }

  predicate Balanced(spans: seq<Span>) {
    forall i, j | 0 <= i < |spans| && 0 <= j < |spans| :: spans[i].Length() <= spans[j].Length() + 1
  }

  lemma Quotient(total: nat, count: nat)
    requires count > 0
    ensures var base, extra := total / count, total % count;
            && count * base + extra == total
            && 0 <= base && 0 <= extra < count
            && (base == 0 ==> extra == total < count)
            && (base > 0 ==> count <= total)
  {
    var base := total / count;
    if base > 0 { assert count * base >= count; }
  }

  method SplitRanges(totalSize: int, parts: int) returns (spans: seq<Span>)
    ensures |spans| == if totalSize <= 0 then 0 else Min(Max(1, parts), totalSize)
    ensures Tiles(spans, Max(0, totalSize))
    ensures Balanced(spans)
  {
    if totalSize <= 0 { return []; }
    var count := Max(1, parts);
    var base, extra := totalSize / count, totalSize % count;
    Quotient(totalSize, count);
    spans := [];
    var offset: nat := 0;
    for index := 0 to count
      invariant offset == index * base + Min(index, extra)
      invariant |spans| == if base > 0 then index else Min(index, extra)
      invariant Tiles(spans, offset)
      invariant forall i | 0 <= i < |spans| :: base <= spans[i].Length() <= base + 1
    {
      var span := base + if index < extra then 1 else 0;
      assert (index + 1) * base == index * base + base;
      if span > 0 {
        var next := Span(offset, offset + span - 1);
        assert (spans + [next])[..|spans|] == spans;
        spans := spans + [next];
        offset := offset + span;
      }
    }
  }

  /** The spans before span `i` tile what lies before it. */
  lemma {:induction false} TilesUpTo(spans: seq<Span>, total: nat, i: nat)
    requires Tiles(spans, total) && i < |spans|
    ensures spans[i].first <= spans[i].last < total
    ensures Tiles(spans[..i], spans[i].first) && Tiles(spans[..i + 1], spans[i].last + 1)
    decreases |spans|
  {
    var front := spans[..|spans| - 1];
    if i == |spans| - 1 {
      assert spans[..i + 1] == spans;
    } else {
      TilesUpTo(front, spans[|spans| - 1].first, i);
      assert front[..i] == spans[..i] && front[..i + 1] == spans[..i + 1];
    }
  }

  /** Counters that have not passed their span's length never add up to more than the total, and full ones add up to
      it. */
  lemma {:induction false} CountersSum(spans: seq<Span>, total: nat, counters: seq<nat>)
    requires Tiles(spans, total) && |counters| == |spans|
    requires forall i | 0 <= i < |spans| :: counters[i] <= spans[i].Length()
    ensures Sum(counters) <= total
    ensures (forall i | 0 <= i < |spans| :: counters[i] == spans[i].Length()) ==> Sum(counters) == total
    decreases |spans|
  {
    if spans != [] {
      var n := |spans| - 1;
      CountersSum(spans[..n], spans[n].first, counters[..n]);
    }
  }
}
