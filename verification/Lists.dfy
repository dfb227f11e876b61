/** The list operations of so-commons that the Planificador and the Coordinador rely on,
    with the conditions they take. */
module Lists {
  /** `list_filter`. */
  function Keep<T(!new)>(s: seq<T>, p: T -> bool): (r: seq<T>)
    ensures forall x :: x in r <==> x in s && p(x)
    ensures |r| <= |s|
  {
    if s == [] then []
    else
      var front, x := s[..|s| - 1], s[|s| - 1];
      assert s == front + [x];
      if p(x) then Keep(front, p) + [x] else Keep(front, p)
  }

  /** The first index whose element satisfies the condition, -1 for none. */
  function FirstIndex<T(!new)>(s: seq<T>, p: T -> bool): (i: int)
    ensures -1 <= i < |s| && (i >= 0 ==> p(s[i]))
    ensures forall j :: 0 <= j < (if i < 0 then |s| else i) ==> !p(s[j])
  {
    if s == [] then -1
    else
      var last := |s| - 1;
      var i := FirstIndex(s[..last], p);
      if i >= 0 then i else if p(s[last]) then last else -1
  }

  /** `list_remove_by_condition`: without the first element that satisfies it. */
  function RemoveFirst<T(!new)>(s: seq<T>, p: T -> bool): seq<T> {
    var i := FirstIndex(s, p);
    if i < 0 then s else s[..i] + s[i + 1..]
  }

  ghost predicate AtMostOne<T(!new)>(s: seq<T>, p: T -> bool) {
    forall i, j :: 0 <= i < j < |s| ==> !(p(s[i]) && p(s[j]))
  }

  lemma {:induction false} KeepAgree<T(!new)>(s: seq<T>, p: T -> bool, q: T -> bool)
    requires forall x :: x in s ==> p(x) == q(x)
    ensures Keep(s, p) == Keep(s, q)
  {
    if s != [] {
      var front := s[..|s| - 1];
      assert forall x :: x in front ==> x in s;
      KeepAgree(front, p, q);
    }
  }

  lemma {:induction false} KeepAll<T(!new)>(s: seq<T>, p: T -> bool)
    requires forall x :: x in s ==> p(x)
    ensures Keep(s, p) == s
  {
    if s != [] {
      var front, x := s[..|s| - 1], s[|s| - 1];
      FrontAndLast(s);
      KeepAll(front, p);
      assert front + [x] == s;
    }
  }

  lemma FrontAndLast<T(!new)>(s: seq<T>)
    requires s != []
    ensures forall x :: x in s <==> x in s[..|s| - 1] || x == s[|s| - 1]
  {
    assert s == s[..|s| - 1] + [s[|s| - 1]];
  }

  lemma {:induction false} KeepNone<T(!new)>(s: seq<T>, p: T -> bool)
    requires forall i :: 0 <= i < |s| ==> !p(s[i])
    ensures Keep(s, p) == []
  {
    if s != [] {
      KeepNone(s[..|s| - 1], p);
    }
  }

  lemma {:induction false} KeepConcat<T(!new)>(a: seq<T>, b: seq<T>, p: T -> bool)
    ensures Keep(a + b, p) == Keep(a, p) + Keep(b, p)
  {
    if b == [] {
      assert a + b == a;
    } else {
      assert (a + b)[..|a + b| - 1] == a + b[..|b| - 1];
      KeepConcat(a, b[..|b| - 1], p);
    }
  }

  lemma {:induction false} KeepTwice<T(!new)>(s: seq<T>, p: T -> bool, q: T -> bool)
    ensures Keep(Keep(s, p), q) == Keep(s, x => p(x) && q(x))
  {
    if s != [] {
      var front, x := s[..|s| - 1], s[|s| - 1];
      KeepTwice(front, p, q);
      if p(x) {
        assert (Keep(front, p) + [x])[..|Keep(front, p)|] == Keep(front, p);
      }
    }
  }

  /** When at most one element satisfies the condition, removing it is filtering it out. */
  lemma RemoveIsKeep<T(!new)>(s: seq<T>, p: T -> bool)
    requires AtMostOne(s, p)
    ensures RemoveFirst(s, p) == Keep(s, x => !p(x))
  {
    var i, not := FirstIndex(s, p), (x: T) => !p(x);
    if i < 0 {
      KeepAll(s, not);
    } else {
      var a, b := s[..i], s[i + 1..];
      assert s == a + [s[i]] + b;
      KeepConcat(a + [s[i]], b, not);
      KeepConcat(a, [s[i]], not);
      assert forall x :: x in a ==> not(x);
      assert forall x :: x in b ==> not(x);
      KeepAll(a, not);
      KeepAll(b, not);
    }
  }

  lemma RemoveMultiset<T(!new)>(s: seq<T>, p: T -> bool)
    ensures var i := FirstIndex(s, p);
            multiset(RemoveFirst(s, p)) == if i < 0 then multiset(s) else multiset(s) - multiset{s[i]}
  {
    var i := FirstIndex(s, p);
    if i >= 0 {
      DropMultiset(s, i);
    }
  }

  lemma DropMultiset<T>(s: seq<T>, i: nat)
    requires i < |s|
    ensures multiset(s[..i] + s[i + 1..]) == multiset(s) - multiset{s[i]}
  {
    SplitMultiset(s[..i], s[i], s[i + 1..]);
    assert s == s[..i] + [s[i]] + s[i + 1..];
  }

  lemma SplitMultiset<T>(a: seq<T>, x: T, b: seq<T>)
    ensures multiset(a + [x] + b) - multiset{x} == multiset(a + b)
  {
    assert multiset(a + [x] + b) == multiset(a) + multiset{x} + multiset(b);
  }

  lemma {:induction false} KeepAtMostOne<T(!new)>(s: seq<T>, p: T -> bool, q: T -> bool)
    requires AtMostOne(s, q)
    ensures AtMostOne(Keep(s, p), q)
  {
    if s != [] {
      var front, x := s[..|s| - 1], s[|s| - 1];
      KeepAtMostOne(front, p, q);
      var r := Keep(front, p);
      assert forall i :: 0 <= i < |r| && q(r[i]) && q(x) ==> r[i] in front;
    }
  }

  /** Removing one element from a filtered list is filtering it out too. */
  lemma RemoveFromKept<T(!new)>(s: seq<T>, p: T -> bool, q: T -> bool, r: T -> bool)
    requires AtMostOne(s, q) && forall x :: x in s ==> r(x) == (p(x) && !q(x))
    ensures RemoveFirst(Keep(s, p), q) == Keep(s, r)
  {
    var notQ := (x: T) => !q(x);
    var both := (x: T) => p(x) && notQ(x);
    KeepAtMostOne(s, p, q);
    RemoveIsKeep(Keep(s, p), q);
    KeepAgree(Keep(s, p), x => !q(x), notQ);
    KeepTwice(s, p, notQ);
    KeepAgree(s, x => p(x) && notQ(x), r);
  }

  // ----- who stands before whom -----

  /** Nowhere does y stand before x. */
  ghost predicate Behind<T(!new)>(q: seq<T>, y: T, x: T) {
    forall i, j :: 0 <= i < j < |q| && q[i] == y ==> q[j] != x
  }

  lemma RemoveElements<T(!new)>(q: seq<T>, p: T -> bool)
    ensures forall z :: z in RemoveFirst(q, p) ==> z in q
    ensures forall z :: z in q && !p(z) ==> z in RemoveFirst(q, p)
  {
    var i := FirstIndex(q, p);
    if i >= 0 {
      assert q == q[..i] + [q[i]] + q[i + 1..];
    }
  }

  lemma RemoveBehind<T(!new)>(q: seq<T>, p: T -> bool, y: T, x: T)
    requires Behind(q, y, x)
    ensures Behind(RemoveFirst(q, p), y, x)
    ensures forall z :: z in RemoveFirst(q, p) ==> z in q
    ensures forall z :: z in q && !p(z) ==> z in RemoveFirst(q, p)
  {
    RemoveElements(q, p);
    var i, r := FirstIndex(q, p), RemoveFirst(q, p);
    assert i >= 0 ==> forall a :: 0 <= a < |r| ==> r[a] == q[if a < i then a else a + 1];
  }

  lemma AppendBehind<T(!new)>(q: seq<T>, z: T, y: T, x: T)
    requires Behind(q, y, x) && (z == x ==> y !in q)
    ensures Behind(q + [z], y, x)
  {
  }

  lemma ConcatBehind<T(!new)>(q: seq<T>, r: seq<T>, y: T, x: T)
    requires Behind(q, y, x) && Behind(r, y, x) && !(y in q && x in r)
    ensures Behind(q + r, y, x)
  {
    var both := q + r;
    forall i, j | 0 <= i < j < |both| && both[i] == y
      ensures both[j] != x
    {
      if i < |q| <= j {
        assert q[i] in q && r[j - |q|] in r;
      }
    }
  }

  function Map<T(!new), U>(s: seq<T>, f: T -> U): (r: seq<U>)
    ensures |r| == |s| && forall i :: 0 <= i < |s| ==> r[i] == f(s[i])
  {
    seq(|s|, i requires 0 <= i < |s| => f(s[i]))
  }

  // ----- `list_sort` -----

  ghost predicate Ascending(q: seq<int>, weight: int -> real) {
    forall i, j :: 0 <= i < j < |q| ==> weight(q[i]) <= weight(q[j])
  }

  /** The same elements, lightest first. */
  method SortBy(q: seq<int>, weight: int -> real) returns (order: seq<int>)
    ensures multiset(order) == multiset(q) && Ascending(order, weight)
  {
    order := [];
    for i := 0 to |q|
      invariant multiset(order) == multiset(q[..i]) && Ascending(order, weight)
    {
      var j := PlaceOf(order, q[i], weight);
      assert q[..i + 1] == q[..i] + [q[i]];
      InsertAscending(order, q[i], j, weight);
      order := order[..j] + [q[i]] + order[j..];
    }
    assert q[..|q|] == q;
  }

  method PlaceOf(order: seq<int>, e: int, weight: int -> real) returns (j: nat)
    ensures j <= |order| && forall m :: 0 <= m < j ==> weight(order[m]) <= weight(e)
    ensures j < |order| ==> weight(e) <= weight(order[j])
  {
    j := 0;
    while j < |order| && weight(order[j]) <= weight(e)
      invariant j <= |order| && forall m :: 0 <= m < j ==> weight(order[m]) <= weight(e)
    {
      j := j + 1;
    }
  }

  lemma InsertAscending(q: seq<int>, e: int, j: nat, weight: int -> real)
    requires j <= |q| && Ascending(q, weight)
    requires forall m :: 0 <= m < j ==> weight(q[m]) <= weight(e)
    requires j < |q| ==> weight(e) <= weight(q[j])
    ensures Ascending(q[..j] + [e] + q[j..], weight)
    ensures multiset(q[..j] + [e] + q[j..]) == multiset(q) + multiset{e}
  {
    var r := q[..j] + [e] + q[j..];
    forall a, b | 0 <= a < b < |r|
      ensures weight(r[a]) <= weight(r[b])
    {
      InsertedAt(q, e, j, a);
      InsertedAt(q, e, j, b);
    }
    assert q == q[..j] + q[j..];
  }

  lemma InsertedAt(q: seq<int>, e: int, j: nat, a: nat)
    requires j <= |q| && a <= |q|
    ensures (q[..j] + [e] + q[j..])[a] == if a < j then q[a] else if a == j then e else q[a - 1]
  {
  }

  lemma FirstOfSorted(q: seq<int>, order: seq<int>, weight: int -> real)
    requires multiset(order) == multiset(q) && Ascending(order, weight) && q != []
    ensures order != [] && forall e :: e in q ==> weight(order[0]) <= weight(e)
  {
    assert |multiset(order)| == |multiset(q)|;
    FirstIsLightest(q, order, weight);
  }

  /** The first element of a sorted list weighs no more than any other. */
  lemma FirstIsLightest(q: seq<int>, order: seq<int>, weight: int -> real)
    requires multiset(order) == multiset(q) && Ascending(order, weight) && order != []
    ensures forall e :: e in q ==> weight(order[0]) <= weight(e)
  {
    forall e | e in q
      ensures weight(order[0]) <= weight(e)
    {
      assert e in multiset(q);
      var j :| 0 <= j < |order| && order[j] == e;
    }
  }
}
