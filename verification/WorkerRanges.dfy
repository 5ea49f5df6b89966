/** First-fit allocation of worker-index ranges (impulse/src/listener_group.rs). */
module WorkerRanges {
  import opened Prelude

  const USIZE_MAX: nat := 0xFFFF_FFFF_FFFF_FFFF

  function SaturatingAdd(a: nat, b: nat): nat { Min(a + b, USIZE_MAX) }

  /** The slots `start` to `end - 1` of one listener group. */
  datatype Range = Range(start: nat, end: nat)

  predicate Overlaps(r: Range, base: nat, count: nat) { base < r.end && r.start < base + count }

  /** `count` slots from `base` on meet no range of `rs`. */
  ghost predicate Free(rs: seq<Range>, base: nat, count: nat) {
    forall r <- rs :: !Overlaps(r, base, count)
  }

  ghost predicate LeastFree(rs: seq<Range>, base: nat, count: nat) {
    Free(rs, base, count) && forall c: nat :: c < base ==> !Free(rs, c, count)
  }

  function TotalSlots(rs: seq<Range>): int {
    if rs == [] then 0 else rs[0].end - rs[0].start + TotalSlots(rs[1..])
  }

  // ---- sort_unstable on (start, end) pairs ----

  predicate Leq(a: Range, b: Range) { a.start < b.start || (a.start == b.start && a.end <= b.end) }

  ghost predicate Sorted(rs: seq<Range>) { forall i, j :: 0 <= i < j < |rs| ==> Leq(rs[i], rs[j]) }

  function InsertSorted(r: Range, rs: seq<Range>): seq<Range> {
    if rs == [] || Leq(r, rs[0]) then [r] + rs else [rs[0]] + InsertSorted(r, rs[1..])
  }

  lemma {:induction false} InsertSortedSame(r: Range, rs: seq<Range>)
    ensures multiset(InsertSorted(r, rs)) == multiset(rs) + multiset{r}
    ensures TotalSlots(InsertSorted(r, rs)) == TotalSlots(rs) + r.end - r.start
  {
    var out := InsertSorted(r, rs);
    if rs == [] || Leq(r, rs[0]) {
      assert out[1..] == rs;
    } else {
      InsertSortedSame(r, rs[1..]);
      assert out[1..] == InsertSorted(r, rs[1..]);
      assert rs == [rs[0]] + rs[1..];
    }
  }

  lemma SortedCons(x: Range, rs: seq<Range>)
    requires Sorted(rs) && forall r <- rs :: Leq(x, r)
    ensures Sorted([x] + rs)
  {
    var out := [x] + rs;
    forall i, j | 0 <= i < j < |out| ensures Leq(out[i], out[j]) {
      assert out[j] == rs[j - 1];
    }
  }

  lemma {:induction false} InsertSortedSorted(r: Range, rs: seq<Range>)
    requires Sorted(rs)
    ensures Sorted(InsertSorted(r, rs))
  {
    if rs == [] || Leq(r, rs[0]) {
      SortedCons(r, rs);
    } else {
      InsertSortedSorted(r, rs[1..]);
      InsertSortedSame(r, rs[1..]);
      var tail := InsertSorted(r, rs[1..]);
      forall x | x in tail ensures Leq(rs[0], x) {
        assert x in multiset(tail);
        assert x == r || x in rs[1..];
      }
      SortedCons(rs[0], tail);
    }
  }

  function Sort(rs: seq<Range>): seq<Range> {
    if rs == [] then [] else InsertSorted(rs[0], Sort(rs[1..]))
  }

  lemma {:induction false} SortSorts(rs: seq<Range>)
    ensures Sorted(Sort(rs)) && multiset(Sort(rs)) == multiset(rs)
    ensures |Sort(rs)| == |rs| && TotalSlots(Sort(rs)) == TotalSlots(rs)
  {
    if rs == [] {
    } else {
      SortSorts(rs[1..]);
      InsertSortedSame(rs[0], Sort(rs[1..]));
      InsertSortedSorted(rs[0], Sort(rs[1..]));
      assert rs == [rs[0]] + rs[1..];
    }
    assert |multiset(Sort(rs))| == |multiset(rs)|;
  }

  lemma {:induction false} TotalSlotsPrefix(rs: seq<Range>, k: nat)
    requires k < |rs|
    ensures TotalSlots(rs[..k + 1]) == TotalSlots(rs[..k]) + rs[k].end - rs[k].start
  {
    if k == 0 {
    } else {
      TotalSlotsPrefix(rs[1..], k - 1);
      assert rs[..k + 1][1..] == rs[1..][..k] && rs[..k][1..] == rs[1..][..k - 1];
    }
  }

  /** Where the allocation loop stands before looking at `rs[k]`. */
  ghost predicate Scanned(rs: seq<Range>, k: nat, base: nat, count: nat) {
    && k <= |rs|
    && (forall j :: 0 <= j < k ==> rs[j].end <= base)
    && (forall c: nat :: c < base ==> !Free(rs, c, count))
    && base <= TotalSlots(rs[..k]) + k * (count - 1)
  }

  lemma ScannedFits(rs: seq<Range>, k: nat, base: nat, count: nat)
    requires Sorted(rs) && Scanned(rs, k, base, count)
    requires k < |rs| ==> base + count <= rs[k].start
    ensures LeastFree(rs, base, count)
  {
  }

  lemma ScannedNext(rs: seq<Range>, k: nat, base: nat, count: nat)
    requires Scanned(rs, k, base, count) && k < |rs| && rs[k].start < base + count && 1 <= count
    requires rs[k].start <= rs[k].end
    ensures Scanned(rs, k + 1, Max(base, rs[k].end), count)
  {
    var next := Max(base, rs[k].end);
    forall c: nat | c < next ensures !Free(rs, c, count) {
      if base <= c {
        assert Overlaps(rs[k], c, count);
      }
    }
    TotalSlotsPrefix(rs, k);
    assert (k + 1) * (count - 1) == k * (count - 1) + count - 1;
  }

  /** The allocation loop from `base` on over sorted ranges; the sum saturates at the machine word. */
  function FirstFit(rs: seq<Range>, base: nat, count: nat): nat {
    if rs == [] || SaturatingAdd(base, count) <= rs[0].start then base
    else FirstFit(rs[1..], Max(base, rs[0].end), count)
  }

  ghost predicate InWord(rs: seq<Range>) { forall r <- rs :: r.start < r.end <= USIZE_MAX }

  /** First fit is least fit as long as every range is proper and within the machine word. */
  lemma {:induction false} FirstFitLeast(rs: seq<Range>, k: nat, base: nat, count: nat)
    requires Sorted(rs) && Scanned(rs, k, base, count) && 1 <= count && InWord(rs)
    ensures var r := FirstFit(rs[k..], base, count);
            LeastFree(rs, r, count) && r <= TotalSlots(rs) + |rs| * (count - 1)
    decreases |rs| - k
  {
    if k == |rs| || SaturatingAdd(base, count) <= rs[k].start {
      ScannedFits(rs, k, base, count);
      GapsLeft(rs, k, base, count);
    } else {
      assert rs[k..][1..] == rs[k + 1..];
      ScannedNext(rs, k, base, count);
      FirstFitLeast(rs, k + 1, Max(base, rs[k].end), count);
    }
  }

  /**
    allocate_worker_index_base: first fit over the sorted ranges, and with proper ranges within the
    machine word the least base whose `count` slots meet no live range, at most the live slots plus
    one unusable gap per live range.
   */
  method Allocate(live: seq<Range>, count: nat) returns (base: nat)
    requires 1 <= count
    ensures base == FirstFit(Sort(live), 0, count)
    ensures InWord(live) ==> LeastFree(live, base, count) && base <= TotalSlots(live) + |live| * (count - 1)
  {
    var rs := Sort(live);
    base := 0;
    for k := 0 to |rs|
      invariant FirstFit(rs[k..], base, count) == FirstFit(rs, 0, count)
    {
      if SaturatingAdd(base, count) <= rs[k].start {
        AllocatedLeast(live, count);
        return;
      }
      assert rs[k..][1..] == rs[k + 1..];
      base := Max(base, rs[k].end);
    }
    AllocatedLeast(live, count);
  }

  lemma AllocatedLeast(live: seq<Range>, count: nat)
    requires 1 <= count
    ensures var base := FirstFit(Sort(live), 0, count);
            InWord(live) ==> LeastFree(live, base, count) && base <= TotalSlots(live) + |live| * (count - 1)
  {
    SortSorts(live);
    SameRanges(live, Sort(live), count);
    if InWord(live) {
      assert Sort(live)[0..] == Sort(live);
      FirstFitLeast(Sort(live), 0, 0, count);
    }
  }

  /** Sorting does not change which bases are free. */
  lemma SameRanges(live: seq<Range>, rs: seq<Range>, count: nat)
    requires multiset(live) == multiset(rs)
    ensures forall base: nat :: Free(live, base, count) <==> Free(rs, base, count)
    ensures forall r :: r in live <==> r in rs
  {
    assert forall r :: r in live <==> r in multiset(live);
    assert forall r :: r in rs <==> r in multiset(rs);
  }

  lemma MulGrows(k: nat, n: nat, m: nat)
    requires k <= n
    ensures k * m <= n * m
  {
    assert n * m == k * m + (n - k) * m;
  }

  lemma GapsLeft(rs: seq<Range>, k: nat, base: nat, count: nat)
    requires Scanned(rs, k, base, count) && 1 <= count
    requires forall r <- rs :: r.start <= r.end
    ensures base <= TotalSlots(rs) + |rs| * (count - 1)
  {
    PrefixSlots(rs, k);
    MulGrows(k, |rs|, count - 1);
  }

  lemma {:induction false} PrefixSlots(rs: seq<Range>, k: nat)
    requires k <= |rs| && forall r <- rs :: r.start <= r.end
    ensures TotalSlots(rs[..k]) <= TotalSlots(rs)
    decreases |rs| - k
  {
    if k < |rs| {
      TotalSlotsPrefix(rs, k);
      PrefixSlots(rs, k + 1);
    } else {
      assert rs[..k] == rs;
    }
  }

  lemma LeastFreeUnique(rs: seq<Range>, a: nat, b: nat, count: nat)
    requires LeastFree(rs, a, count) && LeastFree(rs, b, count)
    ensures a == b
  {
  }

  lemma {:induction false} ScanBounds(rs: seq<Range>, k: nat, base: nat, count: nat, least: nat)
    requires Sorted(rs) && Scanned(rs, k, base, count) && 1 <= count
    requires forall r <- rs :: r.start <= r.end
    requires LeastFree(rs, least, count)
    ensures least <= TotalSlots(rs) + |rs| * (count - 1)
    decreases |rs| - k
  {
    if k == |rs| || base + count <= rs[k].start {
      ScannedFits(rs, k, base, count);
      LeastFreeUnique(rs, base, least, count);
      GapsLeft(rs, k, base, count);
    } else {
      ScannedNext(rs, k, base, count);
      ScanBounds(rs, k + 1, Max(base, rs[k].end), count, least);
    }
  }

  /** The least free base is never above the live slots plus one unusable gap per range. */
  lemma LeastFreeBounded(rs: seq<Range>, least: nat, count: nat)
    requires LeastFree(rs, least, count) && 1 <= count && forall r <- rs :: r.start <= r.end
    ensures least <= TotalSlots(rs) + |rs| * (count - 1)
  {
    SortSorts(rs);
    SameRanges(rs, Sort(rs), count);
    ScanBounds(Sort(rs), 0, 0, count, least);
  }

  /** At the end of the machine word the saturated ranges are empty, and first fit gives one base twice. */
  lemma SaturationCollides()
    ensures FirstFit([Range(0, USIZE_MAX)], 0, 1) == USIZE_MAX
    ensures FirstFit([Range(0, USIZE_MAX), Range(USIZE_MAX, SaturatingAdd(USIZE_MAX, 1))], 0, 1) == USIZE_MAX
  {
    var rs := [Range(0, USIZE_MAX), Range(USIZE_MAX, USIZE_MAX)];
    assert rs[1..] == [Range(USIZE_MAX, USIZE_MAX)];
    assert [Range(0, USIZE_MAX)][1..] == [];
  }
}
