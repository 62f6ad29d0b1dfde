/**
 The order Go's sort.Strings uses: strings compared character by character.
 Every deterministic choice in the coordination engines (ready lists, sorted
 paths, gate names) goes through it.
 */
module Lex {

  /** Lexicographic order; the empty string is least. */
  predicate Le(a: string, b: string) {
    if a == [] then true
    else b != [] && (a[0] < b[0] || (a[0] == b[0] && Le(a[1..], b[1..])))
  }

  predicate Lt(a: string, b: string) {
    Le(a, b) && a != b
  }

  lemma {:induction false} LeTotal(a: string, b: string)
    ensures Le(a, b) || Le(b, a)
    ensures Le(a, a)
  {
    if a != [] {
      LeTotal(a[1..], a[1..]);
      if b != [] && a[0] == b[0] {
        LeTotal(a[1..], b[1..]);
      }
    }
  }

  lemma {:induction false} LeAntisymmetric(a: string, b: string)
    requires Le(a, b) && Le(b, a)
    ensures a == b
  {
    if a != [] {
      LeAntisymmetric(a[1..], b[1..]);
      assert a == [a[0]] + a[1..] && b == [b[0]] + b[1..];
    }
  }

  lemma {:induction false} LeTransitive(a: string, b: string, c: string)
    requires Le(a, b) && Le(b, c)
    ensures Le(a, c)
  {
    if a != [] && a[0] == b[0] == c[0] {
      LeTransitive(a[1..], b[1..], c[1..]);
    }
  }

  predicate Sorted(s: seq<string>) {
    forall i, j :: 0 <= i < j < |s| ==> Le(s[i], s[j])
  }

  predicate Distinct<T(==)>(s: seq<T>) {
    forall i, j :: 0 <= i < j < |s| ==> s[i] != s[j]
  }

  function Elems<T>(s: seq<T>): set<T> {
    set x | x in s
  }

  lemma PrefixElems<T>(s: seq<T>, i: nat)
    requires Distinct(s) && i < |s|
    ensures s[i] !in Elems(s[..i]) && Elems(s[..i + 1]) == Elems(s[..i]) + {s[i]}
  {
    assert s[..i + 1] == s[..i] + [s[i]];
  }

  /** Places x before the first element not below it. */
  function Insert(x: string, s: seq<string>): (r: seq<string>)
    ensures multiset(r) == multiset(s) + multiset{x}
  {
    if s == [] then [x]
    else if Le(x, s[0]) then [x] + s
    else
      assert s == [s[0]] + s[1..];
      [s[0]] + Insert(x, s[1..])
  }

  /** sort.Strings as a value. */
  function Sort(s: seq<string>): (r: seq<string>)
    ensures multiset(r) == multiset(s)
    ensures |r| == |s|
  {
    if s == [] then []
    else
      assert s == [s[0]] + s[1..];
      assert |multiset(s[1..]) + multiset{s[0]}| == |s|;
      var r := Insert(s[0], Sort(s[1..]));
      assert |multiset(r)| == |multiset(s)|;
      r
  }

  lemma InMultiset(s: seq<string>, t: seq<string>)
    requires multiset(s) == multiset(t)
    ensures Elems(s) == Elems(t)
    ensures Distinct(s) ==> Distinct(t)
    ensures |s| == |t|
  {
    forall x ensures x in s <==> x in t { assert x in s <==> x in multiset(s); assert x in t <==> x in multiset(t); }
    assert |multiset(s)| == |multiset(t)|;
    if Distinct(s) {
      forall i, j | 0 <= i < j < |t| ensures t[i] != t[j] {
        if t[i] == t[j] {
          CountTwice(t, i, j);
          CountOnce(s, t[i]);
        }
      }
    }
  }

  lemma CountTwice(t: seq<string>, i: nat, j: nat)
    requires i < j < |t| && t[i] == t[j]
    ensures multiset(t)[t[i]] >= 2
  {
    assert t == t[..j] + [t[j]] + t[j + 1..];
    assert t[..j][i] == t[j];
    assert t[j] in multiset(t[..j]);
  }

  lemma {:induction false} CountOnce(s: seq<string>, x: string)
    requires Distinct(s)
    ensures multiset(s)[x] <= 1
  {
    if s != [] {
      assert s == [s[0]] + s[1..];
      CountOnce(s[1..], x);
      if x == s[0] { assert x !in s[1..]; }
    }
  }

  lemma {:induction false} InsertSorted(x: string, s: seq<string>)
    requires Sorted(s)
    ensures Sorted(Insert(x, s))
  {
    if s != [] {
      LeTotal(x, s[0]);
      if Le(x, s[0]) {
        forall j | 0 <= j < |s| ensures Le(x, s[j]) {
          if j > 0 { LeTransitive(x, s[0], s[j]); }
        }
      } else {
        InsertSorted(x, s[1..]);
        var r := Insert(x, s[1..]);
        forall y | y in r ensures Le(s[0], y) {
          assert y in multiset(r);
          assert y == x || y in s[1..];
        }
      }
    }
  }

  lemma {:induction false} SortSorted(s: seq<string>)
    ensures Sorted(Sort(s))
  {
    if s != [] {
      SortSorted(s[1..]);
      InsertSorted(s[0], Sort(s[1..]));
    }
  }

  /** What callers of sort.Strings rely on: order, contents and multiplicities. */
  lemma SortFacts(s: seq<string>)
    ensures Sorted(Sort(s))
    ensures Elems(Sort(s)) == Elems(s)
    ensures Distinct(s) ==> Distinct(Sort(s))
    ensures |Sort(s)| == |s|
    ensures s != [] ==> Sort(s)[0] in s && forall x :: x in s ==> Le(Sort(s)[0], x)
  {
    SortSorted(s);
    InMultiset(s, Sort(s));
    if s != [] {
      var r := Sort(s);
      assert r[0] in Elems(r);
      forall x | x in s ensures Le(r[0], x) {
        assert x in Elems(r);
        LeTotal(x, x);
      }
    }
  }

  lemma ElemsEmpty<T>(s: seq<T>)
    ensures s == [] <==> Elems(s) == {}
  {
    if s != [] { assert s[0] in Elems(s); }
  }

  /** Two sorted sequences with the same elements, each once, are the same
      sequence, so sorting the keys of a map does not depend on the order in
      which the map is walked. */
  lemma {:induction false} SortedUnique(a: seq<string>, b: seq<string>)
    requires Sorted(a) && Sorted(b) && Distinct(a) && Distinct(b)
    requires Elems(a) == Elems(b)
    ensures a == b
  {
    if a == [] {
      ElemsEmpty(a);
      ElemsEmpty(b);
    } else {
      assert a[0] in Elems(b);
      assert b != [];
      assert b[0] in Elems(a);
      LeTotal(a[0], b[0]);
      LeAntisymmetricHeads(a, b);
      assert Elems(a[1..]) == Elems(a) - {a[0]} by { DistinctTail(a); }
      assert Elems(b[1..]) == Elems(b) - {b[0]} by { DistinctTail(b); }
      SortedUnique(a[1..], b[1..]);
      assert a == [a[0]] + a[1..] && b == [b[0]] + b[1..];
    }
  }

  lemma LeAntisymmetricHeads(a: seq<string>, b: seq<string>)
    requires a != [] && b != [] && Sorted(a) && Sorted(b)
    requires a[0] in b && b[0] in a
    ensures a[0] == b[0]
  {
    LeTotal(a[0], a[0]);
    LeTotal(b[0], b[0]);
    LeAntisymmetric(a[0], b[0]);
  }

  lemma DistinctTail<T>(a: seq<T>)
    requires a != [] && Distinct(a)
    ensures Distinct(a[1..])
    ensures Elems(a[1..]) == Elems(a) - {a[0]}
  {
    forall x | x in Elems(a) - {a[0]} ensures x in a[1..] {
      var i :| 0 <= i < |a| && a[i] == x;
      assert a[1..][i - 1] == x;
    }
  }

  /** A sequence without repetition is as long as its set of elements. */
  lemma {:induction false} DistinctSize<T>(s: seq<T>)
    ensures |Elems(s)| <= |s|
    ensures Distinct(s) <==> |Elems(s)| == |s|
  {
    if s == [] {
      assert Elems(s) == {};
    } else {
      var init, last := s[..|s| - 1], s[|s| - 1];
      DistinctSize(init);
      assert s == init + [last];
      assert Elems(s) == Elems(init) + {last};
      if last in init {
        assert Elems(s) == Elems(init);
        var i :| 0 <= i < |init| && init[i] == last;
        assert s[i] == s[|s| - 1];
      } else {
        assert forall i, j :: 0 <= i < j < |init| ==> s[i] == init[i] && s[j] == init[j];
        if Distinct(s) { assert Distinct(init); }
      }
    }
  }

  /** The keys of a map in order, however the map is walked. */
  ghost function SortedKeys(keys: set<string>): (r: seq<string>)
    ensures Sorted(r) && Distinct(r) && Elems(r) == keys
  {
    if keys == {} then []
    else
      var k :| k in keys;
      var rest := SortedKeys(keys - {k});
      InsertSorted(k, rest);
      InsertDistinct(k, rest);
      Insert(k, rest)
  }

  lemma InsertDistinct(x: string, s: seq<string>)
    requires Distinct(s) && x !in s
    ensures Distinct(Insert(x, s)) && Elems(Insert(x, s)) == Elems(s) + {x}
  {
    assert multiset([x] + s) == multiset(Insert(x, s));
    InMultiset([x] + s, Insert(x, s));
    assert Elems([x] + s) == Elems(s) + {x};
  }

  /** Collects the keys in any order and sorts them, as sort.Strings does after
      walking a map. */
  method CollectKeys(keys: set<string>) returns (sorted: seq<string>)
    ensures sorted == SortedKeys(keys)
  {
    var list: seq<string> := [];
    var left := keys;
    while left != {}
      invariant left <= keys && Distinct(list) && Elems(list) == keys - left
      decreases left
    {
      var k :| k in left;
      assert k !in Elems(list);
      assert Elems(list + [k]) == Elems(list) + {k};
      list := list + [k];
      left := left - {k};
    }
    SortFacts(list);
    sorted := Sort(list);
    SortedUnique(sorted, SortedKeys(keys));
  }
}
