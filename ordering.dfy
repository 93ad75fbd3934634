/**
 * Python's ordering of strings, the key-tuple ordering `sorted(..., key=...)`
 * uses in the generator (an integer rank first, then the string), the
 * listing of a dictionary's items in that order, and the sum of a
 * dictionary's values.
 */
module Ordering {

  /** Python's `<` on `str`: the first differing character decides by code
      point, and a proper prefix comes first. */
  predicate LexLess(a: string, b: string) {
    if |a| == 0 then |b| > 0
    else if |b| == 0 then false
    else if a[0] != b[0] then a[0] < b[0]
    else LexLess(a[1..], b[1..])
  }

  lemma {:induction false} LexLessIrreflexive(a: string)
    ensures !LexLess(a, a)
  {
    if |a| > 0 { LexLessIrreflexive(a[1..]); }
  }

  lemma {:induction false} LexLessAsymmetric(a: string, b: string)
    requires LexLess(a, b)
    ensures !LexLess(b, a)
  {
    if |a| > 0 && |b| > 0 && a[0] == b[0] { LexLessAsymmetric(a[1..], b[1..]); }
  }

  lemma {:induction false} LexLessTransitive(a: string, b: string, c: string)
    requires LexLess(a, b) && LexLess(b, c)
    ensures LexLess(a, c)
  {
    if |a| > 0 && a[0] == b[0] && b[0] == c[0] { LexLessTransitive(a[1..], b[1..], c[1..]); }
  }

  lemma {:induction false} LexLessTotal(a: string, b: string)
    requires a != b
    ensures LexLess(a, b) || LexLess(b, a)
  {
    if |a| > 0 && |b| > 0 && a[0] == b[0] {
      assert a == [a[0]] + a[1..] && b == [b[0]] + b[1..];
      LexLessTotal(a[1..], b[1..]);
    }
  }

  /** The order of the key tuples `(rank(s), s)`: rank first, then the string. */
  predicate KeyBefore(rank: string -> int, a: string, b: string) {
    rank(a) < rank(b) || (rank(a) == rank(b) && LexLess(a, b))
  }

  lemma KeyBeforeIrreflexive(rank: string -> int, a: string)
    ensures !KeyBefore(rank, a, a)
  {
    LexLessIrreflexive(a);
  }

  lemma KeyBeforeAsymmetric(rank: string -> int, a: string, b: string)
    requires KeyBefore(rank, a, b)
    ensures !KeyBefore(rank, b, a)
  {
    if rank(a) == rank(b) { LexLessAsymmetric(a, b); }
  }

  lemma KeyBeforeTransitive(rank: string -> int, a: string, b: string, c: string)
    requires KeyBefore(rank, a, b) && KeyBefore(rank, b, c)
    ensures KeyBefore(rank, a, c)
  {
    if rank(a) == rank(b) == rank(c) { LexLessTransitive(a, b, c); }
  }

  lemma KeyBeforeTotal(rank: string -> int, a: string, b: string)
    requires a != b
    ensures KeyBefore(rank, a, b) || KeyBefore(rank, b, a)
  {
    LexLessTotal(a, b);
  }

  /** `k` is the member of `ks` that comes before every other member. */
  predicate IsLeast(rank: string -> int, ks: set<string>, k: string) {
    k in ks && forall k' :: k' in ks && k' != k ==> KeyBefore(rank, k, k')
  }

  lemma {:induction false} LeastExists(rank: string -> int, ks: set<string>)
    requires ks != {}
    ensures exists k :: IsLeast(rank, ks, k)
    decreases ks
  {
    var k :| k in ks;
    var rest := ks - {k};
    if rest == {} {
      assert ks == {k};
      assert IsLeast(rank, ks, k);
    } else {
      LeastExists(rank, rest);
      var j :| IsLeast(rank, rest, j);
      if KeyBefore(rank, k, j) {
        forall k' | k' in ks && k' != k ensures KeyBefore(rank, k, k') {
          if k' != j { KeyBeforeTransitive(rank, k, j, k'); }
        }
        assert IsLeast(rank, ks, k);
      } else {
        KeyBeforeTotal(rank, k, j);
        assert IsLeast(rank, ks, j);
      }
    }
  }

  lemma LeastIsUnique(rank: string -> int, ks: set<string>)
    ensures forall a, b :: IsLeast(rank, ks, a) && IsLeast(rank, ks, b) ==> a == b
  {
    forall a, b | IsLeast(rank, ks, a) && IsLeast(rank, ks, b) ensures a == b {
      if a != b { KeyBeforeAsymmetric(rank, a, b); }
    }
  }

  /** The strings of `r` strictly increase in the key order. */
  ghost predicate Increasing(rank: string -> int, r: seq<string>) {
    forall i, j :: 0 <= i < j < |r| ==> KeyBefore(rank, r[i], r[j])
  }

  /** The least member of `ks`. The order is total on distinct strings,
      so it is determined. */
  function Least(rank: string -> int, ks: set<string>): (k: string)
    requires ks != {}
    ensures k in ks
  {
    LeastExists(rank, ks);
    LeastIsUnique(rank, ks);
    var k :| IsLeast(rank, ks, k);
    k
  }

  /** `Least` picks the member that comes before all the others, and it is
      the only one that does. */
  lemma LeastIsLeast(rank: string -> int, ks: set<string>, k: string)
    requires ks != {}
    ensures IsLeast(rank, ks, Least(rank, ks))
    ensures IsLeast(rank, ks, k) ==> Least(rank, ks) == k
  {
    LeastIsUnique(rank, ks);
  }

  /** The members of `ks` in increasing key order. */
  function SortedKeys(rank: string -> int, ks: set<string>): (r: seq<string>)
    ensures |r| == |ks|
    ensures forall i :: 0 <= i < |r| ==> r[i] in ks
    decreases ks
  {
    if ks == {} then []
    else
      var k := Least(rank, ks);
      [k] + SortedKeys(rank, ks - {k})
  }

  lemma SortedKeysUnfold(rank: string -> int, ks: set<string>, k: string)
    requires IsLeast(rank, ks, k)
    ensures SortedKeys(rank, ks) == [k] + SortedKeys(rank, ks - {k})
  {
    LeastIsLeast(rank, ks, k);
  }

  /** A string before every member of an increasing listing extends it. */
  lemma ConsIncreasing(rank: string -> int, k: string, tail: seq<string>)
    requires Increasing(rank, tail)
    requires forall i :: 0 <= i < |tail| ==> KeyBefore(rank, k, tail[i])
    ensures Increasing(rank, [k] + tail)
  {
    var r := [k] + tail;
    forall i, j | 0 <= i < j < |r| ensures KeyBefore(rank, r[i], r[j]) {
      assert r[j] == tail[j - 1];
      if i > 0 {
        assert r[i] == tail[i - 1];
      }
    }
  }

  /** `SortedKeys` lists every member of `ks`, each once, in strictly
      increasing key order. */
  lemma {:induction false} SortedKeysIncreasing(rank: string -> int, ks: set<string>)
    ensures Increasing(rank, SortedKeys(rank, ks))
    ensures forall k :: k in ks ==> k in SortedKeys(rank, ks)
    decreases ks
  {
    if ks != {} {
      LeastExists(rank, ks);
      var k :| IsLeast(rank, ks, k);
      SortedKeysUnfold(rank, ks, k);
      var rest := ks - {k};
      SortedKeysIncreasing(rank, rest);
      var tail := SortedKeys(rank, rest);
      var r := [k] + tail;
      forall i | 0 <= i < |tail| ensures KeyBefore(rank, k, tail[i]) {
        assert tail[i] in rest;
      }
      ConsIncreasing(rank, k, tail);
      forall k' | k' in ks ensures k' in r {
        if k' != k { assert k' in rest; }
      }
    }
  }

  /** An increasing listing of `ks` starts with its least member, and the
      rest of it lists the other members. */
  lemma ListingSplit(rank: string -> int, ks: set<string>, s: seq<string>)
    requires |s| == |ks| && (forall i :: 0 <= i < |s| ==> s[i] in ks) && (forall k :: k in ks ==> k in s)
    requires Increasing(rank, s) && ks != {}
    ensures IsLeast(rank, ks, s[0])
    ensures var rest := ks - {s[0]}; var tail := s[1..];
      |tail| == |rest| && (forall i :: 0 <= i < |tail| ==> tail[i] in rest) && (forall k :: k in rest ==> k in tail)
  {
    var k := s[0];
    forall k' | k' in ks && k' != k ensures KeyBefore(rank, k, k') {
      var i :| 0 <= i < |s| && s[i] == k';
    }
    KeyBeforeIrreflexive(rank, k);
    var rest := ks - {k};
    var tail := s[1..];
    forall i | 0 <= i < |tail| ensures tail[i] in rest {
      assert KeyBefore(rank, s[0], s[i + 1]);
    }
    forall k' | k' in rest ensures k' in tail {
      var i :| 0 <= i < |s| && s[i] == k';
      assert tail[i - 1] == k';
    }
  }

  /** Any increasing listing of `ks` is the one `SortedKeys` gives. */
  lemma {:induction false} SortedKeysUnique(rank: string -> int, ks: set<string>, s: seq<string>)
    requires |s| == |ks| && (forall i :: 0 <= i < |s| ==> s[i] in ks) && (forall k :: k in ks ==> k in s)
    requires Increasing(rank, s)
    ensures s == SortedKeys(rank, ks)
    decreases ks
  {
    if ks != {} {
      ListingSplit(rank, ks, s);
      var k := s[0];
      var tail := s[1..];
      assert Increasing(rank, tail) by {
        forall i, j | 0 <= i < j < |tail| ensures KeyBefore(rank, tail[i], tail[j]) {
          assert tail[i] == s[i + 1] && tail[j] == s[j + 1];
        }
      }
      SortedKeysUnique(rank, ks - {k}, tail);
      SortedKeysUnfold(rank, ks, k);
      assert s == [k] + tail;
    }
  }

  /** The items of `m` for `keys`, in that order. */
  function ItemsOf<V>(m: map<string, V>, keys: seq<string>): (r: seq<(string, V)>)
    requires forall i :: 0 <= i < |keys| ==> keys[i] in m
    ensures |r| == |keys|
    ensures forall i :: 0 <= i < |r| ==> r[i] == (keys[i], m[keys[i]])
  {
    if keys == [] then [] else [(keys[0], m[keys[0]])] + ItemsOf(m, keys[1..])
  }

  /** `sorted(m.items(), key=lambda x: (rank(x[0]), x[0]))`: items of `m`,
      as many as it has keys. */
  function SortedEntries<V>(rank: string -> int, m: map<string, V>): (r: seq<(string, V)>)
    ensures |r| == |m|
    ensures forall i :: 0 <= i < |r| ==> r[i].0 in m && r[i].1 == m[r[i].0]
  {
    ItemsOf(m, SortedKeys(rank, m.Keys))
  }

  /** The sorted listing holds every item of `m` exactly once, in strictly
      increasing key order. */
  lemma SortedEntriesOrder<V>(rank: string -> int, m: map<string, V>)
    ensures var r := SortedEntries(rank, m);
      forall i, j :: 0 <= i < j < |r| ==> KeyBefore(rank, r[i].0, r[j].0)
    ensures var r := SortedEntries(rank, m);
      forall k :: k in m ==> exists i :: 0 <= i < |r| && r[i].0 == k
  {
    var keys := SortedKeys(rank, m.Keys);
    SortedKeysIncreasing(rank, m.Keys);
    var r := SortedEntries(rank, m);
    forall k | k in m ensures exists i :: 0 <= i < |r| && r[i].0 == k {
      var i :| 0 <= i < |keys| && keys[i] == k;
      assert r[i].0 == k;
    }
  }

  // ---------------------------------------------------------------------
  // sum(d.values())

  /** The sum of `m`'s values over the keys `ks`, in whatever order they
      are taken. */
  ghost function SumOver(m: map<string, int>, ks: set<string>): int
    requires ks <= m.Keys
    decreases ks
  {
    if ks == {} then 0
    else
      var k :| k in ks;
      m[k] + SumOver(m, ks - {k})
  }

  /** Taking out any one key first gives the same sum. */
  lemma {:induction false} SumOverRemove(m: map<string, int>, ks: set<string>, k: string)
    requires ks <= m.Keys && k in ks
    ensures SumOver(m, ks) == m[k] + SumOver(m, ks - {k})
    decreases ks
  {
    var k0 :| k0 in ks && SumOver(m, ks) == m[k0] + SumOver(m, ks - {k0});
    if k0 != k {
      assert ks - {k0} - {k} == ks - {k} - {k0};
      SumOverRemove(m, ks - {k0}, k);
      SumOverRemove(m, ks - {k}, k0);
    }
  }

  /** The sum of the values of `m`. */
  ghost function MapSum(m: map<string, int>): int {
    SumOver(m, m.Keys)
  }

  /** The sum over keys outside the updated one does not see the update. */
  lemma {:induction false} SumOverFrame(m: map<string, int>, m': map<string, int>, ks: set<string>)
    requires ks <= m.Keys && ks <= m'.Keys
    requires forall k :: k in ks ==> m[k] == m'[k]
    ensures SumOver(m, ks) == SumOver(m', ks)
    decreases ks
  {
    if ks != {} {
      var k :| k in ks;
      SumOverRemove(m, ks, k);
      SumOverRemove(m', ks, k);
      SumOverFrame(m, m', ks - {k});
    }
  }

  /** Storing `v` under `k` changes the sum by `v` less the old value. */
  lemma MapSumUpdate(m: map<string, int>, k: string, v: int)
    ensures MapSum(m[k := v]) == MapSum(m) + v - (if k in m then m[k] else 0)
  {
    var m' := m[k := v];
    SumOverRemove(m', m'.Keys, k);
    var others := m.Keys - {k};
    assert m'.Keys - {k} == others;
    SumOverFrame(m, m', others);
    if k in m { SumOverRemove(m, m.Keys, k); } else { assert m.Keys == others; }
  }

  /** Every string has the same rank: the key order is plain string order. */
  function NoRank(s: string): int {
    0
  }

  /** `sum(d.values())`, adding the values in string order of their keys. */
  function Total(m: map<string, int>): int
    decreases |m|
  {
    if m == map[] then 0
    else
      var k := Least(NoRank, m.Keys);
      m[k] + Total(m - {k})
  }

  /** The order the values are added in does not matter: the total is the
      sum of the values. */
  lemma {:induction false} TotalIsSum(m: map<string, int>)
    ensures Total(m) == MapSum(m)
    decreases |m|
  {
    if m != map[] {
      var k := Least(NoRank, m.Keys);
      var rest := m - {k};
      assert rest.Keys == m.Keys - {k};
      TotalIsSum(rest);
      SumOverRemove(m, m.Keys, k);
      SumOverFrame(m, rest, m.Keys - {k});
    }
  }
}
