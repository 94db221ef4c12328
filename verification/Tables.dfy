/** Tables of integers with a default of 0, and the sum of their values. */
module Tables {

  function At(m: map<int, int>, k: int): int {
    if k in m then m[k] else 0
  }

  /** The entries from `lo` to before `hi`, summed. */
  function SumRange(m: map<int, int>, lo: int, hi: int): int
    requires lo <= hi
    decreases hi - lo
  {
    if lo == hi then 0 else SumRange(m, lo, hi - 1) + At(m, hi - 1)
  }

  ghost predicate Covers(m: map<int, int>, lo: int, hi: int) {
    lo <= hi && forall k :: k in m ==> lo <= k < hi
  }

  /** The values of the table sum to `total`: so does every range that covers its keys. */
  ghost predicate SumsTo(m: map<int, int>, total: int) {
    forall lo, hi :: Covers(m, lo, hi) ==> SumRange(m, lo, hi) == total
  }

  lemma {:induction false} RangeAdd(m: map<int, int>, k: int, d: int, lo: int, hi: int)
    requires lo <= hi
    ensures SumRange(m[k := At(m, k) + d], lo, hi) == SumRange(m, lo, hi) + if lo <= k < hi then d else 0
    decreases hi - lo
  {
    if lo < hi {
      RangeAdd(m, k, d, lo, hi - 1);
    }
  }

  lemma {:induction false} RangeEmpty(lo: int, hi: int)
    requires lo <= hi
    ensures SumRange(map[], lo, hi) == 0
    decreases hi - lo
  {
    if lo < hi {
      RangeEmpty(lo, hi - 1);
    }
  }

  lemma EmptySumsToZero()
    ensures SumsTo(map[], 0)
  {
    forall lo, hi | Covers(map[], lo, hi) ensures SumRange(map[], lo, hi) == 0 {
      RangeEmpty(lo, hi);
    }
  }

  lemma SumsToAdd(m: map<int, int>, total: int, k: int, d: int)
    requires SumsTo(m, total)
    ensures SumsTo(m[k := At(m, k) + d], total + d)
  {
    var m' := m[k := At(m, k) + d];
    forall lo, hi | Covers(m', lo, hi) ensures SumRange(m', lo, hi) == total + d {
      assert k in m';
      forall j | j in m ensures lo <= j < hi {
        assert j in m';
      }
      assert Covers(m, lo, hi);
      RangeAdd(m, k, d, lo, hi);
    }
  }
}
