/** Sorting by a lexicographic key, stable as Python's sort is. */
module Ordering {
  datatype Key = Key(a: int, b: int, c: int)

  datatype Keyed<T> = Keyed(key: Key, item: T)

  predicate Before(x: Key, y: Key) {
    x.a < y.a || (x.a == y.a && (x.b < y.b || (x.b == y.b && x.c <= y.c)))
  }

  /** Each element comes before everything after it. */
  ghost predicate Sorted<T(!new)>(s: seq<Keyed<T>>) {
    s != [] ==> (forall x | x in s[1..] :: Before(s[0].key, x.key)) && Sorted(s[1..])
  }

  function Insert<T>(x: Keyed<T>, s: seq<Keyed<T>>): seq<Keyed<T>> {
    if s == [] || Before(x.key, s[0].key) then [x] + s else [s[0]] + Insert(x, s[1..])
  }

  function Sort<T>(s: seq<Keyed<T>>): seq<Keyed<T>> {
    if s == [] then [] else Insert(s[0], Sort(s[1..]))
  }

  lemma {:induction false} InsertAdds<T(!new)>(x: Keyed<T>, s: seq<Keyed<T>>)
    ensures multiset(Insert(x, s)) == multiset(s) + multiset{x}
    ensures forall y :: y in Insert(x, s) <==> y == x || y in s
  {
    if s == [] || Before(x.key, s[0].key) {
    } else {
      InsertAdds(x, s[1..]);
      assert s == [s[0]] + s[1..];
    }
  }

  lemma {:induction false} InsertLength<T(!new)>(x: Keyed<T>, s: seq<Keyed<T>>)
    ensures |Insert(x, s)| == |s| + 1
  {
    if s != [] && !Before(x.key, s[0].key) {
      InsertLength(x, s[1..]);
    }
  }

  lemma {:induction false} InsertSorts<T(!new)>(x: Keyed<T>, s: seq<Keyed<T>>)
    requires Sorted(s)
    ensures Sorted(Insert(x, s))
  {
    if s == [] {
      assert [x][1..] == [];
    } else if Before(x.key, s[0].key) {
      assert ([x] + s)[1..] == s;
      assert forall y | y in s :: y == s[0] || y in s[1..];
    } else {
      InsertSorts(x, s[1..]);
      InsertAdds(x, s[1..]);
      assert Insert(x, s)[1..] == Insert(x, s[1..]);
    }
  }

  /** `Sort` returns a sorted permutation of its input. */
  lemma {:induction false} SortSorts<T(!new)>(s: seq<Keyed<T>>)
    ensures Sorted(Sort(s)) && multiset(Sort(s)) == multiset(s) && |Sort(s)| == |s|
    ensures forall y :: y in Sort(s) <==> y in s
  {
    if s != [] {
      SortSorts(s[1..]);
      var rest := Sort(s[1..]);
      InsertAdds(s[0], rest);
      InsertSorts(s[0], rest);
      assert s == [s[0]] + s[1..];
      InsertLength(s[0], rest);
    }
  }

  /** The first element of the sorted list is the least of the input. */
  lemma FirstIsLeast<T(!new)>(s: seq<Keyed<T>>)
    requires s != []
    ensures Sort(s) != [] && Sort(s)[0] in s
    ensures forall x | x in s :: Before(Sort(s)[0].key, x.key)
  {
    SortSorts(s);
    var r := Sort(s);
    assert r[0] in r;
    forall x | x in s ensures Before(r[0].key, x.key) {
      assert x in r;
      assert x == r[0] || x in r[1..];
    }
  }

  /** No two different elements share a key. */
  ghost predicate Distinct<T(!new)>(s: seq<Keyed<T>>) {
    forall x, y | x in s && y in s && x.key == y.key :: x == y
  }

  lemma HeadBefore<T(!new)>(s: seq<Keyed<T>>, x: Keyed<T>)
    requires Sorted(s) && x in s
    ensures Before(s[0].key, x.key)
  {
    assert x == s[0] || x in s[1..];
  }

  lemma TailMultiset<T>(s: seq<T>)
    requires s != []
    ensures multiset(s[1..]) == multiset(s) - multiset{s[0]}
  {
    assert s == [s[0]] + s[1..];
  }

  lemma SameHead<T(!new)>(s: seq<Keyed<T>>, t: seq<Keyed<T>>)
    requires Sorted(s) && Sorted(t) && Distinct(s) && multiset(s) == multiset(t) && s != [] && t != []
    ensures s[0] == t[0]
  {
    assert s[0] in multiset(t) && t[0] in multiset(s);
    HeadBefore(t, s[0]);
    HeadBefore(s, t[0]);
    assert s[0].key == t[0].key;
  }

  lemma {:induction false} SortedUnique<T(!new)>(s: seq<Keyed<T>>, t: seq<Keyed<T>>)
    requires Sorted(s) && Sorted(t) && Distinct(s) && multiset(s) == multiset(t)
    ensures s == t
    decreases |s|
  {
    assert |multiset(s)| == |s| && |multiset(t)| == |t|;
    if s != [] {
      SameHead(s, t);
      TailMultiset(s);
      TailMultiset(t);
      assert forall x | x in s[1..] :: x in s;
      SortedUnique(s[1..], t[1..]);
      assert s == [s[0]] + s[1..] && t == [t[0]] + t[1..];
    }
  }

  /** With distinct keys the sorted list does not depend on the order of the input. */
  lemma SortIgnoresOrder<T(!new)>(s: seq<Keyed<T>>, t: seq<Keyed<T>>)
    requires multiset(s) == multiset(t) && Distinct(s)
    ensures Sort(s) == Sort(t)
  {
    SortSorts(s);
    SortSorts(t);
    SortedUnique(Sort(s), Sort(t));
  }

  /** Stability: the sorted list starts with the first of the least elements. */
  lemma {:induction false} FirstOfLeast<T(!new)>(s: seq<Keyed<T>>) returns (i: nat)
    requires s != []
    ensures i < |s| && Sort(s) != [] && Sort(s)[0] == s[i]
    ensures forall j :: 0 <= j < |s| ==> Before(s[i].key, s[j].key)
    ensures forall j :: 0 <= j < i ==> s[j].key != s[i].key
  {
    if s[1..] == [] {
      i := 0;
    } else {
      var k := FirstOfLeast(s[1..]);
      i := if Before(s[0].key, s[1..][k].key) then 0 else k + 1;
      forall j | 1 <= j < |s| ensures Before(s[1..][k].key, s[j].key) {
        assert s[j] == s[1..][j - 1];
      }
      forall j | 1 <= j < k + 1 ensures s[j].key != s[1..][k].key {
        assert s[j] == s[1..][j - 1];
      }
    }
  }

  function Except<T>(s: seq<T>, i: nat): seq<T>
    requires i < |s|
  {
    s[..i] + s[i + 1..]
  }

  lemma ExceptMultiset<T>(s: seq<T>, i: nat)
    requires i < |s|
    ensures multiset(Except(s, i)) == multiset(s) - multiset{s[i]}
  {
    assert s == s[..i] + ([s[i]] + s[i + 1..]);
  }

  lemma ExceptAt<T(!new)>(s: seq<T>, i: nat, x: T)
    requires i < |s|
    ensures x in Except(s, i) <==> exists j :: 0 <= j < |s| && j != i && s[j] == x
  {
    forall j | 0 <= j < |s| && j != i ensures s[j] in Except(s, i) {
      assert Except(s, i)[if j < i then j else j - 1] == s[j];
    }
    if x in Except(s, i) {
      var m :| 0 <= m < |Except(s, i)| && Except(s, i)[m] == x;
      assert s[if m < i then m else m + 1] == x;
    }
  }

  lemma RestOfSort<T(!new)>(s: seq<Keyed<T>>, i: nat)
    requires i < |s| && Sort(s) != [] && Sort(s)[0] == s[i]
    ensures Sorted(Sort(s)[1..]) && multiset(Sort(s)[1..]) == multiset(Except(s, i)) && |Sort(s)| == |s|
  {
    SortSorts(s);
    TailMultiset(Sort(s));
    ExceptMultiset(s, i);
  }

  /** And goes on with the least of the others. */
  lemma SecondOfRest<T(!new)>(s: seq<Keyed<T>>, i: nat) returns (k: nat)
    requires i < |s| && |s| > 1 && Sort(s) != [] && Sort(s)[0] == s[i]
    ensures k < |s| && k != i && |Sort(s)| > 1 && Sort(s)[1] == s[k]
    ensures forall j :: 0 <= j < |s| && j != i ==> Before(s[k].key, s[j].key)
  {
    RestOfSort(s, i);
    var rest := Sort(s)[1..];
    assert rest[0] in multiset(rest);
    ExceptAt(s, i, rest[0]);
    k :| 0 <= k < |s| && k != i && s[k] == rest[0];
    forall j | 0 <= j < |s| && j != i ensures Before(s[k].key, s[j].key) {
      ExceptAt(s, i, s[j]);
      assert s[j] in multiset(rest);
      HeadBefore(rest, s[j]);
    }
  }
}
