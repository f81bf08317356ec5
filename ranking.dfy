/**
  `child_gap_ratio` (main.py:141-148): the per-state biometric sums divided by
  the per-state enrolment sums, aligned on the union of the two sets of
  states, ranked by `sort_values(ascending=False)`, and its first ten entries.
  Ratios are exact rationals instead of floats, with explicit infinities and
  an explicit undefined value for NaN.
 */
module Ranking {
  import opened Wrappers
  import opened Frames
  import opened Series
  import Groups

  /** A float the division can produce: a finite quotient `num / den`, an infinity, or NaN. */
  datatype Ratio = Finite(num: int, den: int) | PosInf | NegInf | Undefined

  predicate ValidRatio(q: Ratio) {
    q.Finite? ==> q.den > 0
  }

  /** `n / d` on two integers, as float division does it: x/0 is an infinity of x's sign, 0/0 is NaN. */
  function Divide(n: int, d: int): (q: Ratio)
    ensures ValidRatio(q)
    ensures q.Undefined? <==> n == 0 && d == 0
    ensures q.Finite? <==> d != 0
    ensures q.PosInf? <==> d == 0 && n > 0
    ensures q.NegInf? <==> d == 0 && n < 0
    ensures q.Finite? ==> q.num * d == n * q.den
  {
    if d > 0 then Finite(n, d)
    else if d < 0 then Finite(-n, -d)
    else if n > 0 then PosInf
    else if n < 0 then NegInf
    else Undefined
  }

  /** Series division: a label present on one side only gets NaN. */
  function AlignedDivide(n: Option<int>, d: Option<int>): Ratio {
    if n.Some? && d.Some? then Divide(n.value, d.value) else Undefined
  }

  /** `x` may come before `y` in a descending sort that puts NaN last. */
  predicate AtLeast(x: Ratio, y: Ratio) {
    y.Undefined?
    || (!x.Undefined? && (x.PosInf? || y.NegInf?
        || (x.Finite? && y.Finite? && x.num * y.den >= y.num * x.den)))
  }

  /** Any two ratios can be ordered. */
  lemma AtLeastTotal(x: Ratio, y: Ratio)
    ensures AtLeast(x, y) || AtLeast(y, x)
  {
  }

  lemma {:induction false} CrossMultiplied(a: int, b: int, c: int, d: int, e: int, f: int)
    requires b > 0 && d > 0 && f > 0
    requires a * d >= c * b && c * f >= e * d
    ensures a * f >= e * b
  {
    assert a * d * f >= c * b * f by {
      MultiplyBoth(a * d, c * b, f);
    }
    assert c * f * b >= e * d * b by {
      MultiplyBoth(c * f, e * d, b);
    }
    assert c * b * f == c * f * b;
    assert (a * f) * d >= (e * b) * d;
    if a * f < e * b {
      MultiplyBoth(e * b, a * f, d);
    }
  }

  lemma MultiplyBoth(x: int, y: int, k: int)
    requires x >= y && k >= 0
    ensures x * k >= y * k
  {
  }

  /** The order is transitive on valid ratios. */
  lemma {:induction false} AtLeastTransitive(x: Ratio, y: Ratio, z: Ratio)
    requires ValidRatio(x) && ValidRatio(y) && ValidRatio(z)
    requires AtLeast(x, y) && AtLeast(y, z)
    ensures AtLeast(x, z)
  {
    if x.Finite? && y.Finite? && z.Finite? {
      CrossMultiplied(x.num, x.den, y.num, y.den, z.num, z.den);
    }
  }

  /**
    `state_child_bio / state_child_enrol`: both indexes are ascending, and the
    result has the union of the labels, ascending, each with the quotient or NaN.
   */
  function Align(a: seq<(string, int)>, b: seq<(string, int)>): seq<(string, Ratio)>
    decreases |a| + |b|
  {
    if |a| == 0 && |b| == 0 then []
    else if |b| == 0 || (|a| > 0 && Less(a[0].0, b[0].0)) then [(a[0].0, Undefined)] + Align(a[1..], b)
    else if |a| == 0 || Less(b[0].0, a[0].0) then [(b[0].0, Undefined)] + Align(a, b[1..])
    else [(a[0].0, Divide(a[0].1, b[0].1))] + Align(a[1..], b[1..])
  }

  /** What `AlignSpec` promises of `Align(a, b)`. */
  predicate Aligned(a: seq<(string, int)>, b: seq<(string, int)>, r: seq<(string, Ratio)>) {
    && KeysAscending(r)
    && Keys(r) == Keys(a) + Keys(b)
    && forall k :: k in Keys(a) + Keys(b) ==> Lookup(r, k) == Some(AlignedDivide(Lookup(a, k), Lookup(b, k)))
  }

  /**
    The aligned quotient has the labels of both sides, ascending, and at each
    label the quotient of the two sides' values, NaN where one side lacks it.
   */
  lemma {:induction false} AlignSpec(a: seq<(string, int)>, b: seq<(string, int)>)
    requires KeysAscending(a) && KeysAscending(b)
    ensures Aligned(a, b, Align(a, b))
    decreases |a| + |b|
  {
    if |a| == 0 && |b| == 0 {
    } else if |b| == 0 || (|a| > 0 && Less(a[0].0, b[0].0)) {
      AscendingTail(a);
      AlignSpec(a[1..], b);
      AlignLeftFirst(a, b);
    } else if |a| == 0 || Less(b[0].0, a[0].0) {
      AscendingTail(b);
      AlignSpec(a, b[1..]);
      AlignRightFirst(a, b);
    } else {
      LessTotal(a[0].0, b[0].0);
      AscendingTail(a);
      AscendingTail(b);
      AlignSpec(a[1..], b[1..]);
      AlignBothFirst(a, b);
    }
  }

  /** The step of `AlignSpec` where the smallest label is only on the left. */
  lemma {:induction false} AlignLeftFirst(a: seq<(string, int)>, b: seq<(string, int)>)
    requires KeysAscending(a) && KeysAscending(b) && |a| > 0
    requires |b| == 0 || Less(a[0].0, b[0].0)
    requires Aligned(a[1..], b, Align(a[1..], b))
    ensures Aligned(a, b, Align(a, b))
  {
    AscendingTail(a);
    assert a == [a[0]] + a[1..];
    if |b| > 0 {
      BelowFirstIsAbsent(b, a[0].0);
      forall k | k in Keys(b) ensures Less(a[0].0, k) {
        AboveFirst(b, a[0].0, k);
      }
    }
    FirstKeyNotInTail(a);
    AscendingCons((a[0].0, Undefined), Align(a[1..], b));
  }

  /** The step of `AlignSpec` where the smallest label is only on the right. */
  lemma {:induction false} AlignRightFirst(a: seq<(string, int)>, b: seq<(string, int)>)
    requires KeysAscending(a) && KeysAscending(b) && |b| > 0
    requires |a| == 0 || Less(b[0].0, a[0].0)
    requires Aligned(a, b[1..], Align(a, b[1..]))
    ensures Aligned(a, b, Align(a, b))
  {
    AscendingTail(b);
    assert b == [b[0]] + b[1..];
    if |a| > 0 {
      BelowFirstIsAbsent(a, b[0].0);
      forall k | k in Keys(a) ensures Less(b[0].0, k) {
        AboveFirst(a, b[0].0, k);
      }
      assert !Less(a[0].0, b[0].0) by {
        LessIrreflexive(a[0].0);
        if Less(a[0].0, b[0].0) {
          LessTransitive(a[0].0, b[0].0, a[0].0);
        }
      }
    }
    FirstKeyNotInTail(b);
    AscendingCons((b[0].0, Undefined), Align(a, b[1..]));
  }

  /** The step of `AlignSpec` where both sides start with the same label. */
  lemma {:induction false} AlignBothFirst(a: seq<(string, int)>, b: seq<(string, int)>)
    requires KeysAscending(a) && KeysAscending(b) && |a| > 0 && |b| > 0 && a[0].0 == b[0].0
    requires Aligned(a[1..], b[1..], Align(a[1..], b[1..]))
    ensures Aligned(a, b, Align(a, b))
  {
    AscendingTail(a);
    AscendingTail(b);
    assert a == [a[0]] + a[1..];
    assert b == [b[0]] + b[1..];
    LessIrreflexive(a[0].0);
    FirstKeyNotInTail(a);
    FirstKeyNotInTail(b);
    AscendingCons((a[0].0, Divide(a[0].1, b[0].1)), Align(a[1..], b[1..]));
  }

  /** The first label of an ascending series is not among the labels after it. */
  lemma FirstKeyNotInTail(s: seq<(string, int)>)
    requires KeysAscending(s) && |s| > 0
    ensures s[0].0 !in Keys(s[1..])
  {
    AscendingTail(s);
    LessIrreflexive(s[0].0);
  }

  /** A label at or above the first label of an ascending series, other than it, lies above it. */
  lemma {:induction false} AboveFirst(s: seq<(string, int)>, x: string, k: string)
    requires KeysAscending(s) && |s| > 0 && Less(x, s[0].0) && k in Keys(s)
    ensures Less(x, k)
  {
    if k != s[0].0 {
      AscendingTail(s);
      LessTransitive(x, s[0].0, k);
    }
  }

  /** Every value of an aligned quotient is a valid ratio. */
  lemma {:induction false} AlignValid(a: seq<(string, int)>, b: seq<(string, int)>)
    ensures AllValid(Align(a, b))
    decreases |a| + |b|
  {
    if |a| == 0 && |b| == 0 {
    } else if |b| == 0 || (|a| > 0 && Less(a[0].0, b[0].0)) {
      AlignValid(a[1..], b);
    } else if |a| == 0 || Less(b[0].0, a[0].0) {
      AlignValid(a, b[1..]);
    } else {
      AlignValid(a[1..], b[1..]);
    }
  }

  /** Sorted for `sort_values(ascending=False)`: non-increasing, NaN at the end. */
  predicate SortedDescending(s: seq<(string, Ratio)>) {
    forall i, j :: 0 <= i < j < |s| ==> AtLeast(s[i].1, s[j].1)
  }

  predicate AllValid(s: seq<(string, Ratio)>) {
    forall i :: 0 <= i < |s| ==> ValidRatio(s[i].1)
  }

  /** Inserts an entry before the first entry it is at least as large as. */
  function Insert(e: (string, Ratio), s: seq<(string, Ratio)>): seq<(string, Ratio)> {
    if |s| == 0 || AtLeast(e.1, s[0].1) then [e] + s else [s[0]] + Insert(e, s[1..])
  }

  /**
    `sort_values(ascending=False)`. pandas leaves the order of equal values
    unspecified; this one puts a later entry before an equal earlier one, and
    the lemmas below promise only what pandas does: sorted, and a permutation.
   */
  function SortDescending(s: seq<(string, Ratio)>): seq<(string, Ratio)> {
    if |s| == 0 then [] else Insert(s[0], SortDescending(s[1..]))
  }

  /** Insertion adds the entry and loses none. */
  lemma {:induction false} InsertPermutes(e: (string, Ratio), s: seq<(string, Ratio)>)
    ensures multiset(Insert(e, s)) == multiset(s) + multiset{e}
  {
    if |s| > 0 && !AtLeast(e.1, s[0].1) {
      InsertPermutes(e, s[1..]);
      assert s == [s[0]] + s[1..];
    }
  }

  /** A bound on every value of `s` and on `e` bounds every value after insertion. */
  lemma {:induction false} InsertBounded(x: Ratio, e: (string, Ratio), s: seq<(string, Ratio)>)
    requires AtLeast(x, e.1) && forall j :: 0 <= j < |s| ==> AtLeast(x, s[j].1)
    ensures forall j :: 0 <= j < |Insert(e, s)| ==> AtLeast(x, Insert(e, s)[j].1)
  {
    if |s| > 0 && !AtLeast(e.1, s[0].1) {
      InsertBounded(x, e, s[1..]);
      assert forall j :: 0 < j < |Insert(e, s)| ==> Insert(e, s)[j] == Insert(e, s[1..])[j - 1];
    }
  }

  lemma {:induction false} InsertSorted(e: (string, Ratio), s: seq<(string, Ratio)>)
    requires ValidRatio(e.1) && AllValid(s) && SortedDescending(s)
    ensures SortedDescending(Insert(e, s)) && AllValid(Insert(e, s))
  {
    if |s| == 0 {
    } else if AtLeast(e.1, s[0].1) {
      forall j | 0 < j < |s| {
        AtLeastTransitive(e.1, s[0].1, s[j].1);
      }
    } else {
      var rest := Insert(e, s[1..]);
      InsertSorted(e, s[1..]);
      AtLeastTotal(e.1, s[0].1);
      InsertBounded(s[0].1, e, s[1..]);
      assert Insert(e, s) == [s[0]] + rest;
    }
  }

  /** The ranking is sorted descending with NaN last, and holds exactly the entries it was given. */
  lemma {:induction false} SortDescendingSpec(s: seq<(string, Ratio)>)
    requires AllValid(s)
    ensures SortedDescending(SortDescending(s)) && AllValid(SortDescending(s))
    ensures multiset(SortDescending(s)) == multiset(s)
  {
    if |s| > 0 {
      SortDescendingSpec(s[1..]);
      InsertSorted(s[0], SortDescending(s[1..]));
      InsertPermutes(s[0], SortDescending(s[1..]));
      assert s == [s[0]] + s[1..];
    }
  }

  /** Insertion adds the entry's label, and keeps labels distinct if it is new. */
  lemma {:induction false} InsertKeys(e: (string, Ratio), s: seq<(string, Ratio)>)
    ensures Keys(Insert(e, s)) == Keys(s) + {e.0}
    ensures DistinctKeys(s) && e.0 !in Keys(s) ==> DistinctKeys(Insert(e, s))
  {
    if |s| == 0 || AtLeast(e.1, s[0].1) {
      KeysCons(e, s);
      if DistinctKeys(s) && e.0 !in Keys(s) {
        DistinctCons(e, s);
      }
    } else {
      var rest := Insert(e, s[1..]);
      InsertKeys(e, s[1..]);
      KeysCons(s[0], rest);
      KeysCons(s[0], s[1..]);
      assert s == [s[0]] + s[1..];
      if DistinctKeys(s) && e.0 !in Keys(s) {
        DistinctTail(s);
        DistinctCons(s[0], rest);
      }
    }
  }

  /** Sorting keeps the labels, and keeps them distinct. */
  lemma {:induction false} SortDescendingKeys(s: seq<(string, Ratio)>)
    ensures Keys(SortDescending(s)) == Keys(s)
    ensures DistinctKeys(s) ==> DistinctKeys(SortDescending(s))
  {
    if |s| > 0 {
      SortDescendingKeys(s[1..]);
      InsertKeys(s[0], SortDescending(s[1..]));
      KeysCons(s[0], s[1..]);
      assert s == [s[0]] + s[1..];
      if DistinctKeys(s) {
        DistinctTail(s);
      }
    }
  }

  /** In a sorted ranking, every entry after a NaN is NaN. */
  lemma UndefinedLast(s: seq<(string, Ratio)>, i: int, j: int)
    requires SortedDescending(s) && 0 <= i < j < |s| && s[i].1.Undefined?
    ensures s[j].1.Undefined?
  {
    assert AtLeast(s[i].1, s[j].1);
  }

  /** In a descending ranking every +inf ratio comes before every finite ratio and every NaN. */
  lemma PosInfFirst(s: seq<(string, Ratio)>, i: int, j: int)
    requires SortedDescending(s) && 0 <= i < j < |s| && s[j].1.PosInf?
    ensures s[i].1.PosInf?
  {
    assert AtLeast(s[i].1, s[j].1);
  }

  /** `child_gap_ratio` (main.py:141-145). */
  function ChildGapRatio(biometric: seq<Row>, enrolment: seq<Row>): seq<(string, Ratio)> {
    SortDescending(Align(Groups.GroupSum(biometric, "bio_age_5_17"), Groups.GroupSum(enrolment, "age_0_5")))
  }

  /** The ratio main.py:145 computes for one state: NaN unless both sides have rows of that state. */
  function StateRatio(biometric: seq<Row>, enrolment: seq<Row>, state: string): Ratio {
    if Groups.HasState(biometric, state) && Groups.HasState(enrolment, state)
    then Divide(Groups.StateSum(biometric, state, "bio_age_5_17"), Groups.StateSum(enrolment, state, "age_0_5"))
    else Undefined
  }

  /**
    `child_gap_ratio` has one entry per state that occurs on either side, each
    the ratio of that state's biometric sum to its enrolment sum (NaN if it
    occurs on one side only or both sums are zero), ordered non-increasingly
    with NaN last; it is a permutation of the aligned quotient.
   */
  lemma {:induction false} ChildGapRatioSpec(biometric: seq<Row>, enrolment: seq<Row>)
    ensures var r := ChildGapRatio(biometric, enrolment);
      && SortedDescending(r)
      && DistinctKeys(r)
      && (forall k :: k in Keys(r) <==> Groups.HasState(biometric, k) || Groups.HasState(enrolment, k))
      && (forall i :: 0 <= i < |r| ==> r[i].1 == StateRatio(biometric, enrolment, r[i].0))
  {
    var bio := Groups.GroupSum(biometric, "bio_age_5_17");
    var enrol := Groups.GroupSum(enrolment, "age_0_5");
    var aligned := Align(bio, enrol);
    var r := SortDescending(aligned);
    AlignSpec(bio, enrol);
    AlignValid(bio, enrol);
    AscendingIsDistinct(aligned);
    SortDescendingSpec(aligned);
    SortDescendingKeys(aligned);
    forall k
      ensures k in Keys(r) <==> Groups.HasState(biometric, k) || Groups.HasState(enrolment, k)
    {
      Groups.GroupSumLookup(biometric, "bio_age_5_17", k);
      Groups.GroupSumLookup(enrolment, "age_0_5", k);
    }
    forall i | 0 <= i < |r|
      ensures r[i].1 == StateRatio(biometric, enrolment, r[i].0)
    {
      var k := r[i].0;
      assert r[i] in multiset(aligned);
      var j :| 0 <= j < |aligned| && aligned[j] == r[i];
      LookupEntry(aligned, j);
      KeysAreLabels(aligned);
      Groups.GroupSumLookup(biometric, "bio_age_5_17", k);
      Groups.GroupSumLookup(enrolment, "age_0_5", k);
    }
  }

  /** `head(n)`: the first `n` entries, or all of them if there are fewer. */
  function Head<T>(s: seq<T>, n: nat): (h: seq<T>)
    ensures |h| == if |s| < n then |s| else n
    ensures h <= s
  {
    if |s| < n then s else s[..n]
  }

  /** The first ten of a ranking are each at least as large as every entry left out. */
  lemma HeadIsTop(s: seq<(string, Ratio)>, n: nat)
    requires SortedDescending(s)
    ensures SortedDescending(Head(s, n))
    ensures forall i, j :: 0 <= i < |Head(s, n)| <= j < |s| ==> AtLeast(Head(s, n)[i].1, s[j].1)
  {
  }

  /**
    Three states on both sides and one on the biometric side only: a zero
    enrolment sum ranks first as +inf, equal sums give 1, and the one-sided
    state is NaN and ranks last.
   */
  lemma RankingExample()
    ensures Align([("A", 100), ("B", 50), ("C", 10), ("D", 7)], [("A", 50), ("B", 50), ("C", 0)])
         == [("A", Finite(100, 50)), ("B", Finite(50, 50)), ("C", PosInf), ("D", Undefined)]
    ensures SortDescending([("A", Finite(100, 50)), ("B", Finite(50, 50)), ("C", PosInf), ("D", Undefined)])
         == [("C", PosInf), ("A", Finite(100, 50)), ("B", Finite(50, 50)), ("D", Undefined)]
  {
  }
}
