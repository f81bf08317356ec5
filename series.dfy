/**
  A pandas Series indexed by state name, as a list of (label, value) entries,
  and the order Python compares strings in.
 */
module Series {
  import opened Wrappers

  /** Python's `str` order: code point by code point, a proper prefix first. */
  predicate Less(a: string, b: string)
    decreases |a|
  {
    if |a| == 0 then |b| > 0
    else |b| > 0 && (a[0] < b[0] || (a[0] == b[0] && Less(a[1..], b[1..])))
  }

  lemma {:induction false} LessIrreflexive(a: string)
    ensures !Less(a, a)
    decreases |a|
  {
    if |a| > 0 {
      LessIrreflexive(a[1..]);
    }
  }

  lemma {:induction false} LessTransitive(a: string, b: string, c: string)
    requires Less(a, b) && Less(b, c)
    ensures Less(a, c)
    decreases |a|
  {
    if |a| > 0 && a[0] == b[0] && b[0] == c[0] {
      LessTransitive(a[1..], b[1..], c[1..]);
    }
  }

  /** Any two different names are ordered one way or the other. */
  lemma {:induction false} LessTotal(a: string, b: string)
    ensures a == b || Less(a, b) || Less(b, a)
    decreases |a|
  {
    if |a| > 0 && |b| > 0 && a[0] == b[0] {
      LessTotal(a[1..], b[1..]);
      if a[1..] == b[1..] {
        assert a == [a[0]] + a[1..] && b == [b[0]] + b[1..];
      }
    }
  }

  /** The labels of a series. */
  function Keys<V>(s: seq<(string, V)>): set<string> {
    if |s| == 0 then {} else {s[0].0} + Keys(s[1..])
  }

  /** Each entry's label is a label of the series, and each label is some entry's. */
  lemma {:induction false} KeysAreLabels<V>(s: seq<(string, V)>)
    ensures forall i :: 0 <= i < |s| ==> s[i].0 in Keys(s)
    ensures forall k :: k in Keys(s) ==> exists i :: 0 <= i < |s| && s[i].0 == k
  {
    if |s| > 0 {
      KeysAreLabels(s[1..]);
      assert forall i :: 0 < i < |s| ==> s[i] == s[1..][i - 1];
      forall k | k in Keys(s)
        ensures exists i :: 0 <= i < |s| && s[i].0 == k
      {
        if k != s[0].0 {
          var i :| 0 <= i < |s[1..]| && s[1..][i].0 == k;
          assert s[i + 1].0 == k;
        }
      }
    }
  }

  /** A series whose labels strictly ascend, as `groupby` leaves them. */
  predicate KeysAscending<V>(s: seq<(string, V)>) {
    forall i, j :: 0 <= i < j < |s| ==> Less(s[i].0, s[j].0)
  }

  /** An entry labelled below every label of an ascending series can go in front of it. */
  lemma {:induction false} AscendingCons<V>(e: (string, V), s: seq<(string, V)>)
    requires KeysAscending(s)
    requires forall k :: k in Keys(s) ==> Less(e.0, k)
    ensures KeysAscending([e] + s)
    ensures Keys([e] + s) == {e.0} + Keys(s)
  {
    KeysAreLabels(s);
    assert ([e] + s)[1..] == s;
    forall i, j | 0 <= i < j < |[e] + s|
      ensures Less(([e] + s)[i].0, ([e] + s)[j].0)
    {
      assert ([e] + s)[j] == s[j - 1];
      if i > 0 {
        assert ([e] + s)[i] == s[i - 1];
      }
    }
  }

  /** The tail of an ascending series is ascending and lies above its first label. */
  lemma {:induction false} AscendingTail<V>(s: seq<(string, V)>)
    requires KeysAscending(s) && |s| > 0
    ensures KeysAscending(s[1..])
    ensures forall k :: k in Keys(s[1..]) ==> Less(s[0].0, k)
  {
    KeysAreLabels(s[1..]);
    forall k | k in Keys(s[1..])
      ensures Less(s[0].0, k)
    {
      var i :| 0 <= i < |s[1..]| && s[1..][i].0 == k;
      assert s[i + 1] == s[1..][i];
    }
  }

  /** No label occurs twice. */
  predicate DistinctKeys<V>(s: seq<(string, V)>) {
    forall i, j :: 0 <= i < j < |s| ==> s[i].0 != s[j].0
  }

  lemma AscendingIsDistinct<V>(s: seq<(string, V)>)
    requires KeysAscending(s)
    ensures DistinctKeys(s)
  {
    forall i, j | 0 <= i < j < |s|
      ensures s[i].0 != s[j].0
    {
      LessIrreflexive(s[i].0);
    }
  }

  lemma KeysCons<V>(e: (string, V), s: seq<(string, V)>)
    ensures Keys([e] + s) == {e.0} + Keys(s)
  {
    assert ([e] + s)[1..] == s;
  }

  /** An entry with a new label can go in front of a series without repeated labels. */
  lemma {:induction false} DistinctCons<V>(e: (string, V), s: seq<(string, V)>)
    requires DistinctKeys(s) && e.0 !in Keys(s)
    ensures DistinctKeys([e] + s)
  {
    KeysAreLabels(s);
    forall i, j | 0 <= i < j < |[e] + s|
      ensures ([e] + s)[i].0 != ([e] + s)[j].0
    {
      assert ([e] + s)[j] == s[j - 1];
      if i > 0 {
        assert ([e] + s)[i] == s[i - 1];
      }
    }
  }

  /** The tail of a series without repeated labels has none, and lacks the first label. */
  lemma {:induction false} DistinctTail<V>(s: seq<(string, V)>)
    requires DistinctKeys(s) && |s| > 0
    ensures DistinctKeys(s[1..]) && s[0].0 !in Keys(s[1..])
  {
    KeysAreLabels(s[1..]);
    assert forall j :: 0 <= j < |s[1..]| ==> s[1..][j] == s[j + 1];
  }

  /** In a series without repeated labels, looking up an entry's label finds that entry's value. */
  lemma {:induction false} LookupEntry<V>(s: seq<(string, V)>, j: int)
    requires DistinctKeys(s) && 0 <= j < |s|
    ensures Lookup(s, s[j].0) == Some(s[j].1)
  {
    if j > 0 {
      assert s[1..][j - 1] == s[j];
      LookupEntry(s[1..], j - 1);
    }
  }

  /** `s.get(k)`: the value at the first entry labelled `k`. */
  function Lookup<V>(s: seq<(string, V)>, k: string): (r: Option<V>)
    ensures r.Some? <==> k in Keys(s)
  {
    if |s| == 0 then None
    else if s[0].0 == k then Some(s[0].1)
    else Lookup(s[1..], k)
  }

  /** The values of a series, added up. */
  function ValueSum(s: seq<(string, int)>): int {
    if |s| == 0 then 0 else s[0].1 + ValueSum(s[1..])
  }

  /** In an ascending series no label before the first one occurs. */
  lemma {:induction false} BelowFirstIsAbsent<V>(s: seq<(string, V)>, k: string)
    requires KeysAscending(s) && |s| > 0 && Less(k, s[0].0)
    ensures k !in Keys(s)
  {
    forall i | 0 <= i < |s|
      ensures s[i].0 != k
    {
      if i > 0 {
        LessTransitive(k, s[0].0, s[i].0);
      }
      LessIrreflexive(k);
    }
    KeysAreLabels(s);
  }
}
