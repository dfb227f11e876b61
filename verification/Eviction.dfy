/** The three eviction algorithms of the Instancia: the loops that mark victims in the
    status table, each proved to find the victims of its specification. */
module Eviction {
  import opened EntryTable
  import opened Storage
  import opened Slots
  import opened Agreement
  import opened Policies
  import opened Biggest

  /** `list_sort` on a weight, biggest first; the order among equals is left open. */
  method SortDescending(weight: seq<int>) returns (order: seq<nat>)
    ensures Ranking(order, weight)
  {
    order := [];
    for i := 0 to |weight|
      invariant |order| == i && Distinct(order) && InRange(order, i)
      invariant forall x: nat :: x < i ==> x in order
      invariant forall a, b :: 0 <= a < b < |order| ==> weight[order[a]] >= weight[order[b]]
    {
      var j := 0;
      while j < |order| && weight[order[j]] >= weight[i]
        invariant 0 <= j <= |order|
        invariant forall m :: 0 <= m < j ==> weight[order[m]] >= weight[i]
      {
        j := j + 1;
      }
      InsertRanked(order, weight, i, j);
      order := order[..j] + [i] + order[j..];
    }
  }

  lemma InsertRanked(order: seq<nat>, weight: seq<int>, i: nat, j: nat)
    requires i < |weight| && j <= |order| && Distinct(order) && InRange(order, i)
    requires forall x: nat :: x < i ==> x in order
    requires forall a, b :: 0 <= a < b < |order| ==> weight[order[a]] >= weight[order[b]]
    requires forall m :: 0 <= m < j ==> weight[order[m]] >= weight[i]
    requires j < |order| ==> weight[order[j]] < weight[i]
    ensures var u := order[..j] + [i] + order[j..];
            && Distinct(u) && InRange(u, i + 1)
            && (forall x: nat :: x < i + 1 ==> x in u)
            && (forall a, b :: 0 <= a < b < |u| ==> weight[u[a]] >= weight[u[b]])
  {
    var u := order[..j] + [i] + order[j..];
    assert forall a :: 0 <= a < |u| ==> u[a] == if a < j then order[a] else if a == j then i else order[a - 1];
    InsertedIn(order, i, j);
  }

  lemma InsertedIn(order: seq<nat>, i: nat, j: nat)
    requires j <= |order|
    ensures forall x :: x in order[..j] + [i] + order[j..] <==> x in order || x == i
  {
    assert order == order[..j] + order[j..];
  }

  lemma RotationWhole(list: seq<nat>, pointer: nat)
    requires pointer >= |list| || pointer == 0
    ensures Rotation(list, pointer) == list && [] + list == list && list[0..] == list
  {
  }

  lemma RotationSplit(list: seq<nat>, pointer: nat)
    requires pointer < |list|
    ensures list[pointer..] + list[..pointer] == Rotation(list, pointer) && [] + list[pointer..] == list[pointer..]
  {
  }

  lemma MarkedTwice(slots: seq<Slot>, a: seq<nat>, b: seq<nat>)
    requires InRange(a, |slots|) && InRange(b, |slots|)
    ensures Marked(Marked(slots, a), b) == Marked(slots, a + b)
    ensures KeysAt(slots, a) + KeysAt(Marked(slots, a), b) == KeysAt(slots, a + b)
  {
  }

  /** Slots and replaced keys once the slots of `order` have been visited in search of `n` victims. */
  ghost predicate Scanned(s0: seq<Slot>, order: seq<nat>, n: nat, base: seq<Key>, slots: seq<Slot>, keys: seq<Key>) {
    && InRange(order, |s0|)
    && slots == Marked(s0, Picked(s0, order, n))
    && keys == base + KeysAt(s0, Picked(s0, order, n))
  }

  lemma ScanStart(s0: seq<Slot>, n: nat, keys: seq<Key>)
    ensures Scanned(s0, [], n, keys, s0, keys)
  {
  }

  /** Visiting one slot more. */
  lemma ScanStep(s0: seq<Slot>, order: seq<nat>, n: nat, base: seq<Key>, slots: seq<Slot>, keys: seq<Key>, x: nat)
    requires Scanned(s0, order, n, base, slots, keys) && x < |s0| && |Picked(s0, order, n)| < n
    ensures var hit := slots[x].kind == AtomicSlot;
            var slots', keys' := if hit then slots[x := slots[x].(kind := UsedSlot)] else slots,
                                 if hit then keys + [slots[x].key] else keys;
            && Scanned(s0, order + [x], n, base, slots', keys')
            && |Picked(s0, order + [x], n)| == |Picked(s0, order, n)| + if hit then 1 else 0
  {
    var r := Picked(s0, order, n);
    PickNext(s0, order, x, n);
    if slots[x].kind == AtomicSlot {
      MarkOne(s0, r, x);
    }
  }

  lemma PickNext(s0: seq<Slot>, order: seq<nat>, x: nat, n: nat)
    requires InRange(order, |s0|) && x < |s0| && |Picked(s0, order, n)| < n
    ensures InRange(order + [x], |s0|)
    ensures var r := Picked(s0, order, n);
            Picked(s0, order + [x], n) == if Marked(s0, r)[x].kind == AtomicSlot then r + [x] else r
  {
    assert (order + [x])[..|order|] == order;
  }

  lemma MarkOne(s0: seq<Slot>, r: seq<nat>, x: nat)
    requires InRange(r, |s0|) && x < |s0|
    ensures Marked(s0, r + [x]) == Marked(s0, r)[x := Marked(s0, r)[x].(kind := UsedSlot)]
    ensures KeysAt(s0, r + [x]) == KeysAt(s0, r) + [Marked(s0, r)[x].key]
  {
  }

  lemma ScanEnough(s0: seq<Slot>, order: seq<nat>, n: nat, base: seq<Key>, slots: seq<Slot>, keys: seq<Key>,
                   rest: seq<nat>)
    requires Scanned(s0, order, n, base, slots, keys) && InRange(rest, |s0|) && |Picked(s0, order, n)| == n
    ensures Scanned(s0, order + rest, n, base, slots, keys) && |Picked(s0, order + rest, n)| == n
  {
    assert (order + rest)[..|order|] == order;
    PickedFull(s0, order + rest, n, |order|);
    assert |Picked(s0, order + rest, n)| == n;
  }

  lemma ShiftOne(done: seq<nat>, rest: seq<nat>, whole: seq<nat>)
    requires done + rest == whole && rest != []
    ensures done + [rest[0]] + rest[1..] == whole
  {
    assert rest == [rest[0]] + rest[1..];
  }

  /** One scan loop: marks the atomic slots of `run` until `need` are found; `i` is how many
      slots it visited. The ghost `seen` is what the scans before it visited. */
  method Scan(run: seq<nat>, need: nat, slots: seq<Slot>, keys: seq<Key>,
              ghost s0: seq<Slot>, ghost seen: seq<nat>, ghost n: nat, ghost base: seq<Key>)
    returns (i: nat, found: nat, slots': seq<Slot>, keys': seq<Key>)
    requires InRange(run, |s0|) && Scanned(s0, seen, n, base, slots, keys)
    requires need == n - |Picked(s0, seen, n)|
    ensures Scanned(s0, seen + run, n, base, slots', keys')
    ensures found == |Picked(s0, seen + run, n)| - |Picked(s0, seen, n)|
    ensures seen == [] ==> i == Visited(s0, run, n)
  {
    i, found, slots', keys' := 0, 0, slots, keys;
    ghost var done, last := seen, seen;
    while i < |run| && found != need
      invariant 0 <= i <= |run| && done + run[i..] == seen + run && |done| == |seen| + i
      invariant Scanned(s0, done, n, base, slots', keys')
      invariant found == |Picked(s0, done, n)| - |Picked(s0, seen, n)|
      invariant i > 0 ==> |done| > 0 && last == done[..|done| - 1]
      invariant i > 0 ==> InRange(last, |s0|) && |Picked(s0, last, n)| < n
    {
      var x := run[i];
      ScanStep(s0, done, n, base, slots', keys', x);
      ShiftOne(done, run[i..], seen + run);
      if slots'[x].kind == AtomicSlot {
        keys' := keys' + [slots'[x].key];
        slots' := slots'[x := slots'[x].(kind := UsedSlot)];
        found := found + 1;
      }
      last, done := done, done + [x];
      i := i + 1;
    }
    if seen == [] {
      ScanStops(s0, run, done, last, i, n);
    }
    FinishScan(s0, seen + run, n, base, slots', keys', done, run[i..]);
  }

  lemma FinishScan(s0: seq<Slot>, whole: seq<nat>, n: nat, base: seq<Key>, slots: seq<Slot>, keys: seq<Key>,
                   done: seq<nat>, rest: seq<nat>)
    requires Scanned(s0, done, n, base, slots, keys) && InRange(rest, |s0|) && done + rest == whole
    requires rest == [] || |Picked(s0, done, n)| == n
    ensures Scanned(s0, whole, n, base, slots, keys)
    ensures |Picked(s0, whole, n)| == |Picked(s0, done, n)|
  {
    if rest == [] {
      assert done == whole;
    } else {
      ScanEnough(s0, done, n, base, slots, keys, rest);
    }
  }

  lemma ScanStops(slots: seq<Slot>, run: seq<nat>, done: seq<nat>, last: seq<nat>, i: nat, n: nat)
    requires InRange(run, |slots|) && i <= |run| && InRange(done, |slots|)
    requires done + run[i..] == [] + run && |done| == i
    requires i < |run| ==> |Picked(slots, done, n)| == n
    requires i > 0 ==> last == done[..i - 1] && InRange(last, |slots|) && |Picked(slots, last, n)| < n
    ensures i == Visited(slots, run, n)
  {
    assert run == [] + run == done + run[i..];
    assert done == run[..i];
    assert i > 0 ==> last == run[..i - 1];
    VisitedIs(slots, run, i, n);
  }

  /** A scan from the start. */
  method ScanAll(run: seq<nat>, need: nat, slots: seq<Slot>, keys: seq<Key>)
    returns (i: nat, found: nat, slots': seq<Slot>, keys': seq<Key>)
    requires InRange(run, |slots|)
    ensures Scanned(slots, run, need, keys, slots', keys') && found == |Picked(slots, run, need)|
    ensures i == Visited(slots, run, need)
  {
    ScanStart(slots, need, keys);
    assert [] + run == run;
    i, found, slots', keys' := Scan(run, need, slots, keys, slots, [], need, keys);
  }

  /** The body of `algorithm_circular`: from the pointer to the end of the list, then what
      is before the pointer. */
  method CircularScan(list: seq<nat>, need: nat, pointer: nat, slots: seq<Slot>, keys: seq<Key>)
    returns (found: nat, pointer': nat, slots': seq<Slot>, keys': seq<Key>)
    requires InRange(list, |slots|)
    ensures Scanned(slots, Rotation(list, pointer), need, keys, slots', keys')
    ensures found == |Picked(slots, Rotation(list, pointer), need)|
    ensures pointer' == HandAfter(slots, list, pointer, need)
  {
    var visited;
    if pointer >= |list| || pointer == 0 {
      RotationWhole(list, pointer);
      visited, found, slots', keys' := ScanAll(list, need, slots, keys);
      pointer' := visited;
    } else {
      RotationSplit(list, pointer);
      visited, found, slots', keys' := ScanAll(list[pointer..], need, slots, keys);
      pointer' := pointer + visited;
      var again;
      visited, again, slots', keys' :=
        Scan(list[..pointer], need - found, slots', keys', slots, list[pointer..], need, keys);
      found := found + again;
    }
  }

  // ----- biggest space used -----

  lemma {:induction false} BlocksOfOffset(n: nat, es: nat)
    requires es >= 1
    ensures Blocks(Offset(n, es), es) == n
  {
    if n > 0 {
      BlocksOfOffset(n - 1, es);
    }
  }

  // ----- the three algorithms -----

  /** `algorithm_circular` on a list of slots. */
  method AlgorithmCircular(list: seq<nat>, needed: nat, left: nat, atomics: nat,
                           pointer: nat, slots: seq<Slot>, replaced: seq<Key>)
    returns (r: int, pointer': nat, slots': seq<Slot>, replaced': seq<Key>, ghost picked: seq<nat>)
    requires InRange(list, |slots|)
    ensures InRange(Rotation(list, pointer), |slots|) && InRange(picked, |slots|)
    ensures picked
            == if CanEvict(needed, left, atomics) then Picked(slots, Rotation(list, pointer), needed - left) else []
    ensures r == if CanEvict(needed, left, atomics) then |picked| else -1
    ensures pointer'
            == if CanEvict(needed, left, atomics) then HandAfter(slots, list, pointer, needed - left) else pointer
    ensures slots' == Marked(slots, picked) && replaced' == replaced + KeysAt(slots, picked)
  {
    hide Picked;
    hide Rotation;
    hide HandAfter;
    hide KeysAt;
    hide Marked;
    if CanEvict(needed, left, atomics) {
      var need := needed - left;
      r, pointer', slots', replaced' := CircularScan(list, need, pointer, slots, replaced);
      picked := Picked(slots, Rotation(list, pointer), need);
    } else {
      RotationInRange(list, pointer, |slots|);
      r, pointer', slots', replaced', picked := -1, pointer, slots, replaced, [];
      MarkedNothing(slots);
    }
  }

  /** `algorithm_lru`. */
  method AlgorithmLru(needed: nat, left: nat, atomics: nat, slots: seq<Slot>, replaced: seq<Key>)
    returns (r: int, slots': seq<Slot>, replaced': seq<Key>, ghost picked: seq<nat>, ghost order: seq<nat>)
    ensures r != 0 && Ranking(order, Ages(slots)) && InRange(picked, |slots|)
    ensures picked == if CanEvict(needed, left, atomics) then Picked(slots, order, needed - left) else []
    ensures slots' == Marked(slots, picked) && replaced' == replaced + KeysAt(slots, picked)
  {
    hide Picked;
    hide KeysAt;
    hide Ranking;
    hide Visited;
    var sorted := SortDescending(Ages(slots));
    order := sorted;
    RankingInRange(order, Ages(slots));
    if CanEvict(needed, left, atomics) {
      picked := Picked(slots, sorted, needed - left);
      var visited, found;
      visited, found, slots', replaced' := ScanAll(sorted, needed - left, slots, replaced);
      r := 1;
    } else {
      r, slots', replaced', picked := -666, slots, replaced, [];
      MarkedNothing(slots);
    }
  }

  lemma TiesNext(slots: seq<Slot>, order: seq<nat>, i: nat, j: nat, w: int, ties: seq<nat>)
    requires InRange(order, |slots|) && i <= j < |order|
    ensures ties + TiesOf(slots, order[i..j + 1], w)
            == ties + TiesOf(slots, order[i..j], w) + if slots[order[j]].spaceUsed == w then [order[j]] else []
  {
    assert order[i..j + 1][..j - i] == order[i..j];
  }

  /** The inner loop of `algorithm_bsu`: the slots from `i` on that are as big as slot i
      join the list of equals. */
  method CollectTies(order: seq<nat>, i: nat, slots: seq<Slot>, ties: seq<nat>) returns (r: seq<nat>)
    requires i < |order| && InRange(order, |slots|) && InRange(ties, |slots|)
    ensures r == ties + TiesOf(slots, order[i..], slots[order[i]].spaceUsed) && InRange(r, |slots|)
  {
    r := ties;
    var j, w := i, slots[order[i]].spaceUsed;
    while j < |order|
      invariant i <= j <= |order| && InRange(r, |slots|)
      invariant r == ties + TiesOf(slots, order[i..j], w)
    {
      TiesNext(slots, order, i, j, w, ties);
      if slots[order[j]].spaceUsed == w {
        r := r + [order[j]];
      }
      j := j + 1;
    }
    assert order[i..j] == order[i..];
  }

  /** The victims that `algorithm_bsu` takes for one size: a single slot directly, equals
      through the circular algorithm, asked for as many slots as are still needed. */
  method EvictGroup(x: nat, ties: seq<nat>, need: nat, left: nat, atomics: nat, es: nat,
                    pointer: nat, slots: seq<Slot>, replaced: seq<Key>)
    returns (need': nat, pointer': nat, slots': seq<Slot>, replaced': seq<Key>, ghost taken: seq<nat>)
    requires es >= 1 && InRange(ties, |slots|) && x in ties && x < |slots| && slots[x].kind == AtomicSlot && need > 0
    ensures InRange(taken, |slots|) && slots' == Marked(slots, taken) && replaced' == replaced + KeysAt(slots, taken)
    ensures Hunt(taken, ties, need', pointer') == Group(slots, x, ties, need, left, atomics, pointer)
  {
    hide Picked;
    hide Rotation;
    hide HandAfter;
    hide Offset;
    if |ties| > 1 {
      BlocksOfOffset(need, es);
      OffsetIsProduct(need, es);
      var got;
      got, pointer', slots', replaced', taken :=
        AlgorithmCircular(ties, ReqEntries(need * es, es), left, atomics, pointer, slots, replaced);
      need' := need - got;
    } else {
      replaced' := replaced + [slots[x].key];
      slots' := slots[x := slots[x].(kind := UsedSlot)];
      need', pointer', taken := need - 1, pointer, [x];
      MarkedOne(slots, x);
    }
  }

  lemma MarkedOne(slots: seq<Slot>, x: nat)
    requires x < |slots|
    ensures Marked(slots, [x]) == slots[x := slots[x].(kind := UsedSlot)] && KeysAt(slots, [x]) == [slots[x].key]
  {
  }

  lemma {:induction false} MarkedTies(slots: seq<Slot>, picked: seq<nat>, list: seq<nat>, w: int)
    requires InRange(list, |slots|)
    ensures TiesOf(Marked(slots, picked), list, w) == TiesOf(slots, list, w)
  {
    if list != [] {
      MarkedTies(slots, picked, list[..|list| - 1], w);
    }
  }

  lemma JoinMarks(s0: seq<Slot>, picked: seq<nat>, taken: seq<nat>, r0: seq<Key>)
    requires InRange(picked, |s0|) && InRange(taken, |s0|)
    ensures InRange(picked + taken, |s0|) && Marked(Marked(s0, picked), taken) == Marked(s0, picked + taken)
    ensures r0 + KeysAt(s0, picked) + KeysAt(Marked(s0, picked), taken) == r0 + KeysAt(s0, picked + taken)
  {
    MarkedTwice(s0, picked, taken);
  }

  /** The body of the loop of `algorithm_bsu`. The ghosts are the slots and the replaced keys at
      the start, and the victims so far. */
  method BsuVisit(order: seq<nat>, i: nat, ties: seq<nat>, need: nat, left: nat, atomics: nat, es: nat,
                  pointer: nat, slots: seq<Slot>, replaced: seq<Key>,
                  ghost s0: seq<Slot>, ghost picked: seq<nat>, ghost r0: seq<Key>)
    returns (ties': seq<nat>, need': nat, pointer': nat, slots': seq<Slot>, replaced': seq<Key>,
             ghost picked': seq<nat>)
    requires es >= 1 && i < |order| && InRange(order, |s0|) && InRange(ties, |s0|) && need > 0
    requires InRange(picked, |s0|) && slots == Marked(s0, picked) && replaced == r0 + KeysAt(s0, picked)
    ensures InRange(picked', |s0|) && slots' == Marked(s0, picked') && replaced' == r0 + KeysAt(s0, picked')
    ensures Hunt(picked', ties', need', pointer')
         == Turn(s0, order, i, left, atomics, Hunt(picked, ties, need, pointer))
  {
    hide Group;
    hide TiesOf;
    hide KeysAt;
    if slots[order[i]].kind == AtomicSlot {
      ties' := CollectTies(order, i, slots, ties);
      MarkedTies(s0, picked, order[i..], s0[order[i]].spaceUsed);
      XTies(s0, order, i, ties);
      ghost var taken;
      need', pointer', slots', replaced', taken :=
        EvictGroup(order[i], ties', need, left, atomics, es, pointer, slots, replaced);
      JoinMarks(s0, picked, taken, r0);
      picked' := picked + taken;
    } else {
      ties', need', pointer', slots', replaced', picked' := ties, need, pointer, slots, replaced, picked;
    }
  }

  /** `algorithm_bsu`: biggest first; equals are handed to the circular algorithm, in a list
      that keeps growing from one size to the next. The ghost `order` is what it sorts to. */
  method AlgorithmBsu(needed: nat, left: nat, atomics: nat, es: nat, pointer: nat, slots: seq<Slot>, replaced: seq<Key>)
    returns (r: int, pointer': nat, slots': seq<Slot>, replaced': seq<Key>, ghost picked: seq<nat>,
             ghost order: seq<nat>)
    requires es >= 1
    ensures r != 0 && Ranking(order, Sizes(slots)) && InRange(order, |slots|) && InRange(picked, |slots|)
    ensures picked == Bsu(slots, order, needed, left, atomics, pointer).picked
    ensures pointer' == Bsu(slots, order, needed, left, atomics, pointer).hand
    ensures slots' == Marked(slots, picked) && replaced' == replaced + KeysAt(slots, picked)
  {
    hide Turn;
    hide Ranking;
    var sorted := SortDescending(Sizes(slots));
    order := sorted;
    RankingInRange(order, Sizes(slots));
    r, pointer', slots', replaced', picked := -666, pointer, slots, replaced, [];
    MarkedNothing(slots);
    if !CanEvict(needed, left, atomics) {
      return;
    }
    r := 1;
    var need: nat := needed - left;
    var ties: seq<nat> := [];
    var i := 0;
    while i < |sorted| && need != 0
      invariant 0 <= i <= |order| && InRange(ties, |slots|)
      invariant InRange(picked, |slots|) && slots' == Marked(slots, picked)
      invariant replaced' == replaced + KeysAt(slots, picked)
      invariant HuntFrom(slots, order, i, left, atomics, Hunt(picked, ties, need, pointer'))
             == Bsu(slots, order, needed, left, atomics, pointer)
    {
      ties, need, pointer', slots', replaced', picked :=
        BsuVisit(sorted, i, ties, need, left, atomics, es, pointer', slots', replaced', slots, picked, replaced);
      i := i + 1;
    }
  }

  lemma RankingInRange(order: seq<nat>, weight: seq<int>)
    requires Ranking(order, weight)
    ensures InRange(order, |weight|)
  {
  }
}
