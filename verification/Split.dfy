/** How a parallel-for range is cut into batches (src/fly_job.c). */
module Split {

  /** A half-open range of indices; it is empty when `hi <= lo`. */
  datatype Span = Span(lo: int, hi: int)

  predicate Inside(sp: Span, i: int) {
    sp.lo <= i < sp.hi
  }

  /** C division: the quotient is rounded toward zero. */
  function TruncDiv(a: int, b: int): (q: int)
    requires b > 0
  {
    if a >= 0 then a / b else -((-a) / b)
  }

  /** The size every batch starts with: never 0, but negative for a range that runs backwards. */
  function BatchSize(count: int, nb: int): int
    requires nb > 0
  {
    var q := TruncDiv(count, nb);
    if q == 0 then q + 1 else q
  }

  /** What is added to the end of the last batch. */
  function Surplus(count: int, nb: int): int
    requires nb > 0
  {
    if count > nb && count % nb != 0 then count % nb else 0
  }

  function SpanAt(start: int, end: int, nb: int, i: int): Span
    requires nb > 0
  {
    var lo := start + i * BatchSize(end - start, nb);
    var hi := lo + BatchSize(end - start, nb);
    Span(lo, if i == nb - 1 then hi + Surplus(end - start, nb) else hi)
  }

  /** The batches of a job over [start, end) when it is cut for `nb` workers. */
  function Spans(start: int, end: int, nb: int): (s: seq<Span>)
    requires nb > 0
  {
    seq(nb, i requires 0 <= i < nb => SpanAt(start, end, nb, i))
  }

  ghost predicate Covered(s: seq<Span>, i: int) {
    exists b :: 0 <= b < |s| && Inside(s[b], i)
  }

  ghost predicate Disjoint(s: seq<Span>) {
    forall b, c, i :: 0 <= b < c < |s| && Inside(s[b], i) ==> !Inside(s[c], i)
  }

  lemma QuotientBounds(count: int, nb: int)
    requires nb > 0
    ensures count >= nb ==> BatchSize(count, nb) == count / nb >= 1
    ensures -nb < count < nb ==> BatchSize(count, nb) == 1
    ensures count <= -nb ==> BatchSize(count, nb) <= -1
  {
    if count >= nb {
      assert count / nb >= 1;
    } else if count > -nb {
      if count >= 0 {
        assert count / nb == 0;
      } else {
        assert (-count) / nb == 0;
      }
    } else {
      assert (-count) / nb >= 1;
    }
  }

  /** The batch size times the number of batches, plus the surplus, is the whole count. */
  lemma SizesAddUp(count: int, nb: int)
    requires nb > 0 && count >= nb
    ensures nb * BatchSize(count, nb) + Surplus(count, nb) == count
    ensures 0 <= Surplus(count, nb) < nb
  {
    QuotientBounds(count, nb);
    assert count == nb * (count / nb) + count % nb;
    if count == nb {
      assert count / nb == 1;
    }
  }

  /** Cutting is an exact ordered partition as soon as there is an index for every batch. */
  lemma ExactPartition(start: int, end: int, nb: int)
    requires nb > 0 && end - start >= nb
    ensures var s := Spans(start, end, nb);
            && |s| == nb
            && s[0].lo == start
            && s[nb - 1].hi == end
            && (forall b :: 0 <= b < nb - 1 ==> s[b].hi == s[b + 1].lo)
            && (forall b :: 0 <= b < nb - 1 ==> s[b].hi - s[b].lo == (end - start) / nb)
            && (end - start) / nb >= 1
            && 0 <= (s[nb - 1].hi - s[nb - 1].lo) - (end - start) / nb < nb
  {
    var count := end - start;
    var size := BatchSize(count, nb);
    QuotientBounds(count, nb);
    SizesAddUp(count, nb);
    forall b | 0 <= b < nb - 1
      ensures SpanAt(start, end, nb, b).hi == SpanAt(start, end, nb, b + 1).lo
    {
      assert (b + 1) * size == b * size + size;
    }
    assert (nb - 1) * size + size == nb * size;
  }

  /** With fewer indices than batches the cut is `nb` single indices from `start`, whatever `end` is. */
  lemma ShortRangeIsSingletons(start: int, end: int, nb: int)
    requires nb > 0 && -nb < end - start < nb
    ensures Spans(start, end, nb) == seq(nb, i => Span(start + i, start + i + 1))
  {
    QuotientBounds(end - start, nb);
  }

  /** A range that runs backwards by `nb` or more is cut into empty batches. */
  lemma BackwardRangeIsEmpty(start: int, end: int, nb: int)
    requires nb > 0 && end - start <= -nb
    ensures forall b :: 0 <= b < nb ==> Spans(start, end, nb)[b].hi < Spans(start, end, nb)[b].lo
    ensures forall b :: 0 <= b < nb ==> Spans(start, end, nb)[b].lo - Spans(start, end, nb)[b].hi == (start - end) / nb
  {
    QuotientBounds(end - start, nb);
  }

  lemma {:induction false} ContiguousOrder(start: int, end: int, nb: int, b: int, c: int)
    requires nb > 0 && end - start >= nb && 0 <= b < c < nb
    ensures Spans(start, end, nb)[b].hi <= Spans(start, end, nb)[c].lo
    decreases c - b
  {
    ExactPartition(start, end, nb);
    var s := Spans(start, end, nb);
    if b + 1 < c {
      ContiguousOrder(start, end, nb, b + 1, c);
      assert s[b].hi == s[b + 1].lo;
      assert s[b + 1].lo <= s[b + 1].hi;
    }
  }

  /** No index lies in two batches, for every range. */
  lemma SpansDisjoint(start: int, end: int, nb: int)
    requires nb > 0
    ensures Disjoint(Spans(start, end, nb))
  {
    var s := Spans(start, end, nb);
    if end - start >= nb {
      forall b, c, i | 0 <= b < c < |s| && Inside(s[b], i)
        ensures !Inside(s[c], i)
      {
        ContiguousOrder(start, end, nb, b, c);
      }
    } else if end - start > -nb {
      ShortRangeIsSingletons(start, end, nb);
    } else {
      BackwardRangeIsEmpty(start, end, nb);
    }
  }

  /** In a contiguous cut every index between the first start and the end of batch `b` lies in some batch. */
  lemma {:induction false} PrefixCovers(start: int, end: int, nb: int, b: int, i: int)
    requires nb > 0 && end - start >= nb && 0 <= b < nb
    requires start <= i < Spans(start, end, nb)[b].hi
    ensures Covered(Spans(start, end, nb), i)
    decreases b
  {
    var s := Spans(start, end, nb);
    ExactPartition(start, end, nb);
    if i < s[b].lo {
      assert s[b - 1].hi == s[b].lo;
      PrefixCovers(start, end, nb, b - 1, i);
    } else {
      assert Inside(s[b], i);
    }
  }

  /** The indices some batch runs: [start, end), or `nb` of them from `start` when there are fewer than `nb`. */
  function CoveredEnd(start: int, end: int, nb: int): int
    requires nb > 0
  {
    if -nb < end - start < nb then start + nb else end
  }

  lemma CoveredRange(start: int, end: int, nb: int, i: int)
    requires nb > 0
    ensures Covered(Spans(start, end, nb), i) <==> start <= i < CoveredEnd(start, end, nb)
  {
    var s := Spans(start, end, nb);
    if end - start >= nb {
      ExactPartition(start, end, nb);
      if start <= i < end {
        PrefixCovers(start, end, nb, nb - 1, i);
      }
      if Covered(s, i) {
        var b :| 0 <= b < |s| && Inside(s[b], i);
        if b > 0 { ContiguousOrder(start, end, nb, 0, b); }
        if b < nb - 1 { ContiguousOrder(start, end, nb, b, nb - 1); }
      }
    } else if end - start > -nb {
      ShortRangeIsSingletons(start, end, nb);
      if start <= i < start + nb {
        assert Inside(s[i - start], i);
      }
    } else {
      BackwardRangeIsEmpty(start, end, nb);
    }
  }

  /** The batches cover exactly the requested indices if and only if the range, forward or backward, has
      at least one index per batch. */
  lemma CoversExactlyIff(start: int, end: int, nb: int)
    requires nb > 0
    ensures (forall i :: Covered(Spans(start, end, nb), i) <==> start <= i < end)
            <==> (end - start >= nb || end - start <= -nb)
  {
    forall i
      ensures Covered(Spans(start, end, nb), i) <==> start <= i < CoveredEnd(start, end, nb)
    {
      CoveredRange(start, end, nb, i);
    }
    if -nb < end - start < nb {
      var extra := if end >= start then end else start;
      assert Covered(Spans(start, end, nb), extra);
      assert !(start <= extra < end);
    }
  }

  /** Concrete case: one index for two workers runs index 1 as well. */
  lemma ShortRangeOverruns()
    ensures Covered(Spans(0, 1, 2), 1)
  {
    CoveredRange(0, 1, 2, 1);
  }

  predicate Fits32(x: int) {
    -0x8000_0000 <= x < 0x8000_0000
  }

  lemma TimesKeepsOrder(a: int, b: int, q: nat)
    requires a <= b
    ensures a * q <= b * q
  {
    var d: nat := b - a;
    assert d * q >= 0;
    assert b * q == a * q + d * q;
  }

  lemma ProductWithin(i: int, nb: int, q: int)
    requires 0 <= i < nb && q >= 0
    ensures 0 <= i * q && i * q + q <= nb * q
  {
    TimesKeepsOrder(0, i, q);
    TimesKeepsOrder(i + 1, nb, q);
    assert i * q + q == (i + 1) * q;
  }

  /** Where batch `i` starts and, before the surplus, ends: between start and end, in the range's own direction. */
  lemma SpanWithin(start: int, end: int, nb: int, i: int)
    requires nb > 0 && 0 <= i < nb
    ensures var offset := i * BatchSize(end - start, nb);
            var next := offset + BatchSize(end - start, nb);
            && (end - start >= nb ==> 0 <= offset <= next <= end - start)
            && (end - start <= -nb ==> end - start <= next <= offset <= 0)
            && (-nb < end - start < nb ==> offset == i && next == i + 1)
  {
    var count := end - start;
    var size := BatchSize(count, nb);
    QuotientBounds(count, nb);
    if count >= nb {
      SizesAddUp(count, nb);
      ProductWithin(i, nb, size);
    } else if count <= -nb {
      var q := (-count) / nb;
      ProductWithin(i, nb, q);
      assert nb * q <= -count;
      assert i * size == -(i * q);
    }
  }

  /** Every intermediate value of the cut fits a C int when start, end and their difference do and, for a short
      range, start + nb does too. */
  lemma NoOverflow(start: int, end: int, nb: int, i: int)
    requires 0 < nb && Fits32(nb) && Fits32(start) && Fits32(end) && Fits32(end - start)
    requires -nb < end - start < nb ==> Fits32(start + nb)
    requires 0 <= i < nb
    ensures var size := BatchSize(end - start, nb);
            Fits32(size) && Fits32(i * size) && Fits32(start + i * size) && Fits32(start + i * size + size)
    ensures Fits32(SpanAt(start, end, nb, i).hi)
  {
    QuotientBounds(end - start, nb);
    SpanWithin(start, end, nb, i);
    SpanWithin(start, end, nb, 0);
    if end - start >= nb && i == nb - 1 {
      ExactPartition(start, end, nb);
      assert Spans(start, end, nb)[i] == SpanAt(start, end, nb, i);
    }
  }
}
