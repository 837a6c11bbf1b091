/** lodash `sortBy(xs, ['group', 'name'])`: a stable ascending sort on a pair of string keys,
    each compared with JavaScript's relational operators on strings (code-unit order). */
module Sorting {

  import Seqs

  /** `a <= b` on strings: lexicographic on characters, a proper prefix sorting first. */
  predicate LexLe(a: string, b: string)
  {
    |a| == 0 || (|b| > 0 && (a[0] < b[0] || (a[0] == b[0] && LexLe(a[1..], b[1..]))))
  }

  lemma {:induction false} LexLeTotal(a: string, b: string)
    ensures LexLe(a, b) || LexLe(b, a)
  {
    if |a| > 0 && |b| > 0 && a[0] == b[0] {
      LexLeTotal(a[1..], b[1..]);
    }
  }

  lemma {:induction false} LexLeReflexive(a: string)
    ensures LexLe(a, a)
  {
    if |a| > 0 {
      LexLeReflexive(a[1..]);
    }
  }

  lemma {:induction false} LexLeTransitive(a: string, b: string, c: string)
    requires LexLe(a, b) && LexLe(b, c)
    ensures LexLe(a, c)
  {
    if |a| > 0 && a[0] == b[0] && b[0] == c[0] {
      LexLeTransitive(a[1..], b[1..], c[1..]);
    }
  }

  lemma {:induction false} LexLeAntisymmetric(a: string, b: string)
    requires LexLe(a, b) && LexLe(b, a)
    ensures a == b
  {
    if |a| > 0 {
      LexLeAntisymmetric(a[1..], b[1..]);
      assert a == [a[0]] + a[1..];
      assert b == [b[0]] + b[1..];
    }
  }

  /** The sort key of a row: (group, name). */
  type SortKey = (string, string)

  /** lodash's multi-key comparison: the first key decides unless equal, then the second. */
  predicate KeyLe(x: SortKey, y: SortKey)
  {
    (LexLe(x.0, y.0) && x.0 != y.0) || (x.0 == y.0 && LexLe(x.1, y.1))
  }

  lemma KeyLeTotal(x: SortKey, y: SortKey)
    ensures KeyLe(x, y) || KeyLe(y, x)
  {
    LexLeTotal(x.0, y.0);
    LexLeTotal(x.1, y.1);
  }

  lemma KeyLeTransitive(x: SortKey, y: SortKey, z: SortKey)
    requires KeyLe(x, y) && KeyLe(y, z)
    ensures KeyLe(x, z)
  {
    if x.0 == y.0 && y.0 == z.0 {
      LexLeTransitive(x.1, y.1, z.1);
    } else {
      LexLeReflexive(x.0);
      LexLeReflexive(y.0);
      LexLeTransitive(x.0, y.0, z.0);
      if x.0 == z.0 {
        LexLeAntisymmetric(x.0, y.0);
      }
    }
  }

  ghost predicate SortedBy<T>(s: seq<T>, key: T -> SortKey)
  {
    forall i, j :: 0 <= i < j < |s| ==> KeyLe(key(s[i]), key(s[j]))
  }

  /** Inserts `x` in front of the first element it does not sort after. */
  function Insert<T>(x: T, s: seq<T>, key: T -> SortKey): (r: seq<T>)
    ensures multiset(r) == multiset(s) + multiset{x}
    ensures SortedBy(s, key) ==> SortedBy(r, key)
  {
    if |s| == 0 then [x]
    else if KeyLe(key(x), key(s[0])) then
      var r := [x] + s;
      assert SortedBy(s, key) ==> SortedBy(r, key) by {
        if SortedBy(s, key) {
          forall j | 0 < j < |r|
            ensures KeyLe(key(x), key(r[j]))
          {
            if j > 1 {
              KeyLeTransitive(key(x), key(s[0]), key(s[j - 1]));
            }
          }
        }
      }
      r
    else
      var rest := Insert(x, s[1..], key);
      var r := [s[0]] + rest;
      assert s == [s[0]] + s[1..];
      assert SortedBy(s, key) ==> SortedBy(r, key) by {
        if SortedBy(s, key) {
          KeyLeTotal(key(x), key(s[0]));
          forall j | 0 <= j < |rest|
            ensures KeyLe(key(s[0]), key(rest[j]))
          {
            assert rest[j] in multiset(rest);
            if rest[j] != x {
              assert rest[j] in multiset(s[1..]);
              var k :| 0 <= k < |s[1..]| && s[1..][k] == rest[j];
              assert s[k + 1] == rest[j];
            }
          }
        }
      }
      r
  }

  /** `sortBy(s, key)`: ascending by `key`, equal keys keeping their input order. */
  function SortBy<T>(s: seq<T>, key: T -> SortKey): (r: seq<T>)
    ensures multiset(r) == multiset(s)
    ensures SortedBy(r, key)
  {
    if |s| == 0 then []
    else
      assert s == [s[0]] + s[1..];
      Insert(s[0], SortBy(s[1..], key), key)
  }

  /** Deleting elements from a sorted sequence leaves it sorted. */
  lemma {:induction false} SubsequenceSorted<T>(a: seq<T>, b: seq<T>, key: T -> SortKey)
    requires SortedBy(b, key)
    requires Seqs.IsSubsequence(a, b)
    ensures SortedBy(a, key)
    decreases |b|
  {
    if |a| > 0 {
      if a[0] == b[0] {
        SubsequenceSorted(a[1..], b[1..], key);
        forall j | 0 < j < |a|
          ensures KeyLe(key(a[0]), key(a[j]))
        {
          SubsequenceMember(a[1..], b[1..], j - 1);
          var k :| 0 <= k < |b[1..]| && b[1..][k] == a[j];
          assert b[k + 1] == a[j];
        }
      } else {
        SubsequenceSorted(a, b[1..], key);
      }
    }
  }

  /** Every element of a subsequence occurs in the sequence it was taken from. */
  lemma {:induction false} SubsequenceMember<T>(a: seq<T>, b: seq<T>, i: int)
    requires Seqs.IsSubsequence(a, b)
    requires 0 <= i < |a|
    ensures exists k :: 0 <= k < |b| && b[k] == a[i]
    decreases |b|
  {
    if a[0] == b[0] {
      if i == 0 {
        assert b[0] == a[i];
      } else {
        SubsequenceMember(a[1..], b[1..], i - 1);
        var k :| 0 <= k < |b[1..]| && b[1..][k] == a[1..][i - 1];
        assert b[k + 1] == a[i];
      }
    } else {
      SubsequenceMember(a, b[1..], i);
      var k :| 0 <= k < |b[1..]| && b[1..][k] == a[i];
      assert b[k + 1] == a[i];
    }
  }
}
