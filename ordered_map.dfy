/**
 * QMap<QString, V> as the sorted association list it behaves as: lookups
 * that fall back to a default value (QMap::value), insertion that replaces
 * the value of an existing key (QMap::insert), and iteration in ascending
 * key order under QString's operator<.
 */
module OrderedMap {
  import opened Wrappers

  /** QString's operator<: character-wise lexicographic, a proper prefix sorts first. */
  predicate Less(a: string, b: string)
    ensures a < b ==> Less(a, b)
    ensures Less(a, b) ==> a != b
    decreases |a|
  {
    |b| > 0 && (|a| == 0 || a[0] < b[0] || (a[0] == b[0] && Less(a[1..], b[1..])))
  }

  lemma {:induction false} LessIrreflexive(a: string)
    ensures !Less(a, a)
    decreases |a|
  {
    if |a| > 0 { LessIrreflexive(a[1..]); }
  }

  lemma {:induction false} LessTransitive(a: string, b: string, c: string)
    requires Less(a, b) && Less(b, c)
    ensures Less(a, c)
    decreases |a|
  {
    if |a| > 0 && a[0] == b[0] && b[0] == c[0] {
      LessTransitive(a[1..], b[1..], c[1..]);
    }
  }

  /** Any two different keys are ordered one way or the other. */
  lemma {:induction false} LessTotal(a: string, b: string)
    requires a != b
    ensures Less(a, b) || Less(b, a)
    decreases |a|
  {
    if |a| > 0 && |b| > 0 && a[0] == b[0] {
      assert a == [a[0]] + a[1..] && b == [b[0]] + b[1..];
      LessTotal(a[1..], b[1..]);
    }
  }

  /** Entries in strictly ascending key order, so each key occurs once. */
  predicate Sorted<V>(m: seq<(string, V)>) {
    forall i, j :: 0 <= i < j < |m| ==> Less(m[i].0, m[j].0)
  }

  function Keys<V>(m: seq<(string, V)>): set<string> {
    set i | 0 <= i < |m| :: m[i].0
  }

  lemma KeysCons<V>(e: (string, V), m: seq<(string, V)>)
    ensures Keys([e] + m) == {e.0} + Keys(m)
  {
    var r := [e] + m;
    forall x | x in Keys(r) ensures x in {e.0} + Keys(m) {
      var i :| 0 <= i < |r| && r[i].0 == x;
      if i > 0 { assert m[i - 1].0 == x; }
    }
    forall x | x in Keys(m) ensures x in Keys(r) {
      var i :| 0 <= i < |m| && m[i].0 == x;
      assert r[i + 1].0 == x;
    }
    assert r[0].0 == e.0;
  }

  /** The value stored under `k`, if any (the first entry with that key). */
  function Get<V>(m: seq<(string, V)>, k: string): (r: Option<V>)
    ensures r.Some? <==> k in Keys(m)
  {
    if m == [] then None
    else if m[0].0 == k then
      assert m[0].0 in Keys(m);
      Some(m[0].1)
    else
      KeysCons(m[0], m[1..]);
      assert [m[0]] + m[1..] == m;
      Get(m[1..], k)
  }

  /** QMap::value(key): the stored value, or the default-constructed one. */
  function Value<V>(m: seq<(string, V)>, k: string, default: V): (r: V)
    ensures k in Keys(m) ==> Get(m, k) == Some(r)
    ensures k !in Keys(m) ==> r == default
  {
    match Get(m, k)
    case Some(v) => v
    case None => default
  }

  /**
   * QMap::insert: afterwards `k` maps to `v`, every other key keeps its
   * value, and ascending order is kept.
   */
  function Insert<V>(m: seq<(string, V)>, k: string, v: V): (r: seq<(string, V)>)
    ensures Get(r, k) == Some(v)
    ensures forall j :: j != k ==> Get(r, j) == Get(m, j)
    ensures Keys(r) == Keys(m) + {k}
    ensures Sorted(m) ==> Sorted(r)
  {
    if m == [] then [(k, v)]
    else if m[0].0 == k then
      KeysCons(m[0], m[1..]);
      KeysCons((k, v), m[1..]);
      assert [m[0]] + m[1..] == m;
      [(k, v)] + m[1..]
    else if Less(k, m[0].0) then
      KeysCons((k, v), m);
      SortedFront(k, v, m);
      [(k, v)] + m
    else
      var rest := Insert(m[1..], k, v);
      KeysCons(m[0], m[1..]);
      KeysCons(m[0], rest);
      assert [m[0]] + m[1..] == m;
      SortedBehind(m, k, rest);
      [m[0]] + rest
  }

  /** A key below the first one can go in front. */
  lemma SortedFront<V>(k: string, v: V, m: seq<(string, V)>)
    requires m != [] && Less(k, m[0].0)
    ensures Sorted(m) ==> Sorted([(k, v)] + m)
  {
    if Sorted(m) {
      var r := [(k, v)] + m;
      forall j | 1 <= j < |r| ensures Less(k, r[j].0) {
        if j > 1 { LessTransitive(k, m[0].0, m[j - 1].0); }
      }
    }
  }

  /** The first entry stays in front of the rest once `k`, above it, is inserted there. */
  lemma SortedBehind<V>(m: seq<(string, V)>, k: string, rest: seq<(string, V)>)
    requires m != [] && m[0].0 != k && !Less(k, m[0].0)
    requires Sorted(m[1..]) ==> Sorted(rest)
    requires Keys(rest) == Keys(m[1..]) + {k}
    ensures Sorted(m) ==> Sorted([m[0]] + rest)
  {
    if !Sorted(m) {
      return;
    }
    assert Sorted(m[1..]) by {
      forall i, j | 0 <= i < j < |m[1..]| ensures Less(m[1..][i].0, m[1..][j].0) {
        assert m[1..][i] == m[i + 1] && m[1..][j] == m[j + 1];
      }
    }
    LessTotal(k, m[0].0);
    forall j | 0 <= j < |rest| ensures Less(m[0].0, rest[j].0) {
      assert rest[j].0 in Keys(rest);
      if rest[j].0 != k {
        var i :| 0 <= i < |m[1..]| && m[1..][i].0 == rest[j].0;
        assert m[i + 1].0 == rest[j].0;
      }
    }
    var r := [m[0]] + rest;
    forall i, j | 0 <= i < j < |r| ensures Less(r[i].0, r[j].0) {
      if i > 0 { assert r[i] == rest[i - 1] && r[j] == rest[j - 1]; }
    }
  }

  /** In a sorted list each entry is the one its key finds. */
  lemma {:induction false} SortedGet<V>(m: seq<(string, V)>, e: nat)
    requires Sorted(m) && e < |m|
    ensures Get(m, m[e].0) == Some(m[e].1)
  {
    if e > 0 {
      assert Less(m[0].0, m[e].0);
      LessIrreflexive(m[0].0);
      SortedGet(m[1..], e - 1);
    }
  }
}
