/**
 * The stable sort the console's stores and arrays are sorted with: an
 * insertion sort by a key looked up in a map, in which an element whose key
 * compares equal to a later one's stays in front of it.  Two orders occur:
 * a text field in ascending order (the grid store's sorter on 'type') and
 * a usage count in descending order (the controller list).
 */
module Sorting {

  datatype Key = Text(s: string) | Count(n: int)

  /** Texts ascend, counts descend, and every text comes before every count. */
  predicate KeyLe(a: Key, b: Key)
  {
    match (a, b)
    case (Text(x), Text(y)) => StrLe(x, y)
    case (Count(x), Count(y)) => x >= y
    case (Text(_), Count(_)) => true
    case (Count(_), Text(_)) => false
  }

  /** The key of x; an element without one sorts as the empty text. */
  function KeyOf<T>(key: map<T, Key>, x: T): Key
  {
    if x in key then key[x] else Text("")
  }

  predicate SortedBy<T>(s: seq<T>, key: map<T, Key>)
  {
    forall i, j :: 0 <= i < j < |s| ==> KeyLe(KeyOf(key, s[i]), KeyOf(key, s[j]))
  }

  /** Puts x in front of the first element it does not come after. */
  function Insert<T>(x: T, s: seq<T>, key: map<T, Key>): (r: seq<T>)
    ensures multiset(r) == multiset(s) + multiset{x}
  {
    if s == [] || KeyLe(KeyOf(key, x), KeyOf(key, s[0])) then [x] + s
    else
      var t := Insert(x, s[1..], key);
      assert s == [s[0]] + s[1..];
      [s[0]] + t
  }

  function Sort<T>(s: seq<T>, key: map<T, Key>): (r: seq<T>)
    ensures multiset(r) == multiset(s)
  {
    if s == [] then []
    else
      var t := Sort(s[1..], key);
      assert s == [s[0]] + s[1..];
      Insert(s[0], t, key)
  }

  lemma KeyLeTotal(a: Key, b: Key)
    ensures KeyLe(a, b) || KeyLe(b, a)
  {
    if a.Text? && b.Text? {
      StrLeTotal(a.s, b.s);
    }
  }

  lemma KeyLeTrans(a: Key, b: Key, c: Key)
    requires KeyLe(a, b) && KeyLe(b, c)
    ensures KeyLe(a, c)
  {
    if a.Text? && b.Text? && c.Text? {
      StrLeTrans(a.s, b.s, c.s);
    }
  }

  lemma {:induction false} InsertSorted<T>(x: T, s: seq<T>, key: map<T, Key>)
    requires SortedBy(s, key)
    ensures SortedBy(Insert(x, s, key), key)
  {
    if s == [] || KeyLe(KeyOf(key, x), KeyOf(key, s[0])) {
      forall j | 0 < j < |s| + 1
        ensures KeyLe(KeyOf(key, x), KeyOf(key, ([x] + s)[j]))
      {
        assert ([x] + s)[j] == s[j - 1];
        if j > 1 {
          KeyLeTrans(KeyOf(key, x), KeyOf(key, s[0]), KeyOf(key, s[j - 1]));
        }
      }
    } else {
      KeyLeTotal(KeyOf(key, x), KeyOf(key, s[0]));
      InsertSorted(x, s[1..], key);
      var t := Insert(x, s[1..], key);
      assert multiset(t) == multiset(s[1..]) + multiset{x};
      forall j | 0 <= j < |t|
        ensures KeyLe(KeyOf(key, s[0]), KeyOf(key, t[j]))
      {
        assert t[j] in multiset(t);
        if t[j] != x {
          assert t[j] in multiset(s[1..]);
          var k :| 0 <= k < |s[1..]| && s[1..][k] == t[j];
          assert s[k + 1] == t[j];
        }
      }
    }
  }

  /** The result of Sort is ordered by its key. */
  lemma {:induction false} SortSorted<T>(s: seq<T>, key: map<T, Key>)
    ensures SortedBy(Sort(s, key), key)
  {
    if s != [] {
      SortSorted(s[1..], key);
      InsertSorted(s[0], Sort(s[1..], key), key);
    }
  }

  /** Sorting a sequence that is already ordered leaves it as it is. */
  lemma {:induction false} SortOfSorted<T>(s: seq<T>, key: map<T, Key>)
    requires SortedBy(s, key)
    ensures Sort(s, key) == s
  {
    if s != [] {
      assert SortedBy(s[1..], key);
      SortOfSorted(s[1..], key);
      assert s == [s[0]] + s[1..];
    }
  }

  /** Lexicographic order of strings by character code, as `<` and `>` compare them. */
  predicate StrLe(a: string, b: string)
  {
    a == [] || (b != [] && (a[0] < b[0] || (a[0] == b[0] && StrLe(a[1..], b[1..]))))
  }

  lemma {:induction false} StrLeTotal(a: string, b: string)
    ensures StrLe(a, b) || StrLe(b, a)
  {
    if a != [] && b != [] && a[0] == b[0] {
      StrLeTotal(a[1..], b[1..]);
    }
  }

  lemma {:induction false} StrLeTrans(a: string, b: string, c: string)
    requires StrLe(a, b) && StrLe(b, c)
    ensures StrLe(a, c)
  {
    if a != [] && b != [] && c != [] && a[0] == b[0] && b[0] == c[0] {
      StrLeTrans(a[1..], b[1..], c[1..]);
    }
  }

  predicate Distinct<T(==)>(s: seq<T>)
  {
    forall i, j :: 0 <= i < j < |s| ==> s[i] != s[j]
  }

  lemma {:induction false} DistinctCount<T>(s: seq<T>, x: T)
    requires Distinct(s)
    ensures multiset(s)[x] <= 1
  {
    if s != [] {
      assert Distinct(s[1..]);
      DistinctCount(s[1..], x);
      assert s == [s[0]] + s[1..];
      if x == s[0] {
        assert x !in s[1..];
      }
    }
  }

  /** A rearrangement of a sequence without repetitions has none either. */
  lemma DistinctPermutation<T>(a: seq<T>, b: seq<T>)
    requires multiset(a) == multiset(b) && Distinct(b)
    ensures Distinct(a)
  {
    forall i, j | 0 <= i < j < |a|
      ensures a[i] != a[j]
    {
      if a[i] == a[j] {
        assert a == a[..i] + [a[i]] + a[i + 1..j] + [a[j]] + a[j + 1..];
        assert multiset(a)[a[i]] >= 2;
        DistinctCount(b, a[i]);
      }
    }
  }

  lemma PermutationMembers<T>(a: seq<T>, b: seq<T>)
    requires multiset(a) == multiset(b)
    ensures forall x :: x in a <==> x in b
  {
    forall x
      ensures x in a <==> x in b
    {
      assert x in a <==> x in multiset(a);
      assert x in b <==> x in multiset(b);
    }
  }

  lemma DistinctConcat<T>(a: seq<T>, b: seq<T>)
    requires Distinct(a) && Distinct(b)
    requires forall x :: x in b ==> x !in a
    ensures Distinct(a + b)
  {
    forall i, j | 0 <= i < j < |a + b|
      ensures (a + b)[i] != (a + b)[j]
    {
      if i < |a| && j >= |a| {
        assert (a + b)[j] == b[j - |a|];
        assert (a + b)[j] in b;
      }
    }
  }
}
