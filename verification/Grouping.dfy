/** Grouping through an insertion-ordered map, as `groupByItem` and `groupByUser` do. */
module Grouping {
  import opened Collections

  function Members<T(!new), K(==,!new)>(s: seq<T>, key: T -> K, k: K): seq<T> {
    if s == [] then []
    else
      var init, last := Members(s[..|s| - 1], key, k), s[|s| - 1];
      if key(last) == k then init + [last] else init
  }

  /** The keys that occur, in order of first appearance. */
  function KeyOrder<T(!new), K(==,!new)>(s: seq<T>, key: T -> K): seq<K> {
    if s == [] then []
    else
      var init, k := KeyOrder(s[..|s| - 1], key), key(s[|s| - 1]);
      if k in init then init else init + [k]
  }

  /** One group per key that occurs, in order of first appearance, holding all elements of that key in
      their original order. */
  ghost predicate IsGrouping<T(!new), K(!new)>(groups: seq<(K, seq<T>)>, s: seq<T>, key: T -> K) {
    && |groups| == |KeyOrder(s, key)| && (forall i :: 0 <= i < |groups| ==> groups[i].0 == KeyOrder(s, key)[i])
    && (forall i, j :: 0 <= i < j < |groups| ==> groups[i].0 != groups[j].0)
    && (forall i :: 0 <= i < |groups| ==> groups[i].1 == Members(s, key, groups[i].0) && groups[i].1 != [])
    && forall x :: x in s ==> HasGroup(groups, key(x))
  }

  ghost predicate HasGroup<T(!new), K(!new)>(groups: seq<(K, seq<T>)>, k: K) {
    exists i :: 0 <= i < |groups| && groups[i].0 == k
  }

  lemma {:induction false} MembersSpec<T(!new), K(!new)>(s: seq<T>, key: T -> K, k: K, x: T)
    ensures x in Members(s, key, k) <==> x in s && key(x) == k
  {
    if s != [] {
      MembersSpec(s[..|s| - 1], key, k, x);
      assert s == s[..|s| - 1] + [s[|s| - 1]];
    }
  }

  lemma MembersPush<T(!new), K(!new)>(s: seq<T>, last: T, key: T -> K, k: K)
    ensures Members(s + [last], key, k) == Members(s, key, k) + if key(last) == k then [last] else []
  {
    assert (s + [last])[..|s|] == s;
  }

  lemma {:induction false} NoMembers<T(!new), K(!new)>(s: seq<T>, key: T -> K, k: K)
    requires forall i :: 0 <= i < |s| ==> key(s[i]) != k
    ensures Members(s, key, k) == []
  {
    if s != [] {
      NoMembers(s[..|s| - 1], key, k);
    }
  }

  lemma FilterPush<T(!new)>(s: seq<T>, last: T, keep: T -> bool)
    ensures Filter(s + [last], keep) == Filter(s, keep) + if keep(last) then [last] else []
    decreases |s|
  {
    if s == [] {
      assert s + [last] == [last] && [last][1..] == [];
    } else {
      assert (s + [last])[1..] == s[1..] + [last];
      FilterPush(s[1..], last, keep);
    }
  }

  /** The members of a group are all elements of its key in their original order. */
  lemma {:induction false} MembersInOrder<T(!new), K(!new)>(s: seq<T>, key: T -> K, k: K, same: T -> bool)
    requires forall x :: same(x) <==> key(x) == k
    ensures Members(s, key, k) == Filter(s, same)
  {
    if s != [] {
      var n := |s| - 1;
      MembersInOrder(s[..n], key, k, same);
      FilterPush(s[..n], s[n], same);
      assert s == s[..n] + [s[n]];
    }
  }

  lemma {:induction false} EveryKeyIsListed<T(!new), K(!new)>(s: seq<T>, key: T -> K, i: nat)
    requires i < |s|
    ensures key(s[i]) in KeyOrder(s, key)
  {
    var n := |s| - 1;
    if i < n { EveryKeyIsListed(s[..n], key, i); }
  }

  lemma {:induction false} EveryListedKeyOccurs<T(!new), K(!new)>(s: seq<T>, key: T -> K, a: nat) returns (i: nat)
    requires a < |KeyOrder(s, key)|
    ensures i < |s| && key(s[i]) == KeyOrder(s, key)[a]
  {
    var n := |s| - 1;
    if a < |KeyOrder(s[..n], key)| {
      i := EveryListedKeyOccurs(s[..n], key, a);
    } else {
      i := n;
    }
  }

  /** The keys are listed as they are first seen: when the one listed first is there, the other was not yet. */
  lemma {:induction false} KeysInOrder<T(!new), K(!new)>(s: seq<T>, key: T -> K, a: nat, b: nat) returns (i: nat)
    requires a < b < |KeyOrder(s, key)|
    ensures i < |s| && key(s[i]) == KeyOrder(s, key)[a]
    ensures forall j :: 0 <= j <= i ==> key(s[j]) != KeyOrder(s, key)[b]
  {
    var n := |s| - 1;
    if b < |KeyOrder(s[..n], key)| {
      i := KeysInOrder(s[..n], key, a, b);
    } else {
      i := EveryListedKeyOccurs(s[..n], key, a);
      forall j | 0 <= j < n { EveryKeyIsListed(s[..n], key, j); }
    }
  }

  /** The keys seen so far in order of first appearance, and the list the map holds for each. */
  ghost predicate Tracks<T(!new), K(!new)>(order: seq<K>, groups: map<K, seq<T>>, s: seq<T>, key: T -> K) {
    && Distinct(order) && order == KeyOrder(s, key)
    && (forall k :: k in order <==> k in groups)
    && (forall i :: 0 <= i < |s| ==> key(s[i]) in groups)
    && (forall k :: k in groups ==> groups[k] == Members(s, key, k) && groups[k] != [])
  }

  lemma TracksPushOld<T(!new), K(!new)>(order: seq<K>, groups: map<K, seq<T>>, s: seq<T>, last: T, key: T -> K)
    requires Tracks(order, groups, s, key) && key(last) in groups
    ensures Tracks(order, groups[key(last) := groups[key(last)] + [last]], s + [last], key)
  {
    var groups' := groups[key(last) := groups[key(last)] + [last]];
    assert (s + [last])[..|s|] == s;
    forall k | k in groups'
      ensures groups'[k] == Members(s + [last], key, k)
    {
      MembersPush(s, last, key, k);
    }
  }

  lemma TracksPushNew<T(!new), K(!new)>(order: seq<K>, groups: map<K, seq<T>>, s: seq<T>, last: T, key: T -> K)
    requires Tracks(order, groups, s, key) && key(last) !in groups
    ensures Tracks(order + [key(last)], groups[key(last) := [last]], s + [last], key)
  {
    var groups' := groups[key(last) := [last]];
    NoMembers(s, key, key(last));
    assert (s + [last])[..|s|] == s;
    forall k | k in groups'
      ensures groups'[k] == Members(s + [last], key, k)
    {
      MembersPush(s, last, key, k);
    }
    hide Members;
    assert key(last) !in order;
  }

  method GroupBy<T(!new), K(==,!new)>(s: seq<T>, key: T -> K) returns (result: seq<(K, seq<T>)>)
    ensures IsGrouping(result, s, key)
  {
    var order: seq<K> := [];
    var groups: map<K, seq<T>> := map[];
    for i := 0 to |s|
      invariant Tracks(order, groups, s[..i], key)
    {
      var x := s[i];
      assert s[..i + 1] == s[..i] + [x];
      if key(x) in groups {
        TracksPushOld(order, groups, s[..i], x, key);
        hide Tracks;
        groups := groups[key(x) := groups[key(x)] + [x]];
      } else {
        TracksPushNew(order, groups, s[..i], x, key);
        hide Tracks;
        order, groups := order + [key(x)], groups[key(x) := [x]];
      }
    }
    assert s[..|s|] == s;
    result := [];
    for i := 0 to |order|
      invariant |result| == i
      invariant forall j :: 0 <= j < i ==> result[j] == (order[j], Members(s, key, order[j])) && result[j].1 != []
    {
      assert order[i] in order;
      result := result + [(order[i], groups[order[i]])];
    }
    forall x | x in s
      ensures HasGroup(result, key(x))
    {
      var i :| 0 <= i < |s| && s[i] == x;
      var j :| 0 <= j < |order| && order[j] == key(x);
      assert result[j].0 == key(x);
    }
  }
}
