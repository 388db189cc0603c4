/** Small sequence library shared by the models: sums, filtering and the stable sort that
    `Array.prototype.sort` and Python's `list.sort` both promise. */
module Collections {

  datatype Option<+T> = None | Some(value: T)

  datatype Result<+T, +E> = Success(value: T) | Failure(error: E)

  function Min(x: int, y: int): int {
    if x < y then x else y
  }

  function Max(x: int, y: int): int {
    if x < y then y else x
  }

  function Filter<T>(s: seq<T>, keep: T -> bool): seq<T> {
    if s == [] then []
    else if keep(s[0]) then [s[0]] + Filter(s[1..], keep)
    else Filter(s[1..], keep)
  }

  ghost predicate Distinct<T>(s: seq<T>) {
    forall i, j :: 0 <= i < j < |s| ==> s[i] != s[j]
  }

  /** Sum of the amounts a measure gives to the elements. */
  function Sum<T>(s: seq<T>, amount: T -> int): int {
    if s == [] then 0 else amount(s[0]) + Sum(s[1..], amount)
  }

  lemma {:induction false} SumAppend<T>(s: seq<T>, t: seq<T>, amount: T -> int)
    ensures Sum(s + t, amount) == Sum(s, amount) + Sum(t, amount)
  {
    if s == [] {
      assert s + t == t;
    } else {
      assert (s + t)[1..] == s[1..] + t;
      SumAppend(s[1..], t, amount);
    }
  }

  lemma {:induction false} FilterMember<T>(s: seq<T>, keep: T -> bool, x: T)
    ensures x in Filter(s, keep) <==> x in s && keep(x)
  {
    if s != [] {
      assert s == [s[0]] + s[1..];
      FilterMember(s[1..], keep, x);
    }
  }

  // ---- stable sort

  function Insert<T>(x: T, s: seq<T>, key: T -> int): seq<T> {
    if s == [] || key(x) <= key(s[0]) then [x] + s
    else [s[0]] + Insert(x, s[1..], key)
  }

  function StableSort<T>(s: seq<T>, key: T -> int): seq<T> {
    if s == [] then [] else Insert(s[0], StableSort(s[1..], key), key)
  }

  ghost predicate SortedBy<T>(s: seq<T>, key: T -> int) {
    forall i, j :: 0 <= i < j < |s| ==> key(s[i]) <= key(s[j])
  }

  lemma {:induction false} InsertAdds<T>(x: T, s: seq<T>, key: T -> int)
    ensures multiset(Insert(x, s, key)) == multiset{x} + multiset(s)
  {
    if s == [] || key(x) <= key(s[0]) {
    } else {
      InsertAdds(x, s[1..], key);
      assert s == [s[0]] + s[1..];
    }
  }

  lemma InsertMember<T>(x: T, s: seq<T>, key: T -> int, y: T)
    ensures y in Insert(x, s, key) <==> y == x || y in s
  {
    InsertAdds(x, s, key);
    assert y in Insert(x, s, key) <==> y in multiset(Insert(x, s, key));
    assert y in s <==> y in multiset(s);
  }

  lemma {:induction false} InsertKeepsOrder<T>(x: T, s: seq<T>, key: T -> int)
    requires SortedBy(s, key)
    ensures SortedBy(Insert(x, s, key), key)
  {
    if s == [] || key(x) <= key(s[0]) {
    } else {
      InsertKeepsOrder(x, s[1..], key);
      var rest := Insert(x, s[1..], key);
      forall i | 0 <= i < |rest|
        ensures key(s[0]) <= key(rest[i])
      {
        InsertMember(x, s[1..], key, rest[i]);
      }
    }
  }

  /** The sort orders by key and loses or invents nothing. */
  lemma {:induction false} StableSortSorts<T>(s: seq<T>, key: T -> int)
    ensures SortedBy(StableSort(s, key), key)
    ensures multiset(StableSort(s, key)) == multiset(s)
  {
    if s != [] {
      assert s == [s[0]] + s[1..];
      StableSortSorts(s[1..], key);
      InsertKeepsOrder(s[0], StableSort(s[1..], key), key);
      InsertAdds(s[0], StableSort(s[1..], key), key);
    }
  }

  /** The sort is stable: elements with one key stay in their original order. */
  lemma {:induction false} StableSortStable<T>(s: seq<T>, key: T -> int, same: T -> bool, k: int)
    requires forall x :: x in s ==> (same(x) <==> key(x) == k)
    ensures Filter(StableSort(s, key), same) == Filter(s, same)
  {
    if s != [] {
      assert s == [s[0]] + s[1..];
      StableSortStable(s[1..], key, same, k);
      StableSortSorts(s[1..], key);
      var rest := StableSort(s[1..], key);
      forall y | y in rest
        ensures y in s
      {
        assert y in multiset(rest) && y in multiset(s[1..]);
      }
      InsertStable(s[0], rest, key, same, k);
    }
  }

  lemma {:induction false} InsertStable<T>(x: T, s: seq<T>, key: T -> int, same: T -> bool, k: int)
    requires forall y :: y == x || y in s ==> (same(y) <==> key(y) == k)
    ensures Filter(Insert(x, s, key), same) == Filter([x] + s, same)
  {
    assert ([x] + s)[1..] == s;
    if s == [] || key(x) <= key(s[0]) {
    } else {
      assert s == [s[0]] + s[1..];
      InsertStable(x, s[1..], key, same, k);
      var rest := Insert(x, s[1..], key);
      assert ([s[0]] + rest)[1..] == rest;
      assert ([x] + s[1..])[1..] == s[1..];
    }
  }

  lemma {:induction false} SumOfInsert<T>(x: T, s: seq<T>, key: T -> int, amount: T -> int)
    ensures Sum(Insert(x, s, key), amount) == amount(x) + Sum(s, amount)
  {
    if s == [] || key(x) <= key(s[0]) {
      assert ([x] + s)[1..] == s;
    } else {
      SumOfInsert(x, s[1..], key, amount);
      assert ([s[0]] + Insert(x, s[1..], key))[1..] == Insert(x, s[1..], key);
    }
  }

  lemma {:induction false} SumOfSort<T>(s: seq<T>, key: T -> int, amount: T -> int)
    ensures Sum(StableSort(s, key), amount) == Sum(s, amount)
  {
    if s != [] {
      SumOfSort(s[1..], key, amount);
      SumOfInsert(s[0], StableSort(s[1..], key), key, amount);
    }
  }
}
