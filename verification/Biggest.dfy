/** `algorithm_bsu`, biggest space used: as a function of the order it sorts the slots to and of
    the circular pointer, and what its victims are - the biggest when no slot is free, and what
    becomes of that when some are. */
module Biggest {
  import opened EntryTable
  import opened Storage
  import opened Slots
  import opened Agreement
  import opened Policies

  // ----- what the algorithm does -----

  lemma RotationInRange(list: seq<nat>, pointer: nat, n: nat)
    requires InRange(list, n)
    ensures InRange(Rotation(list, pointer), n)
  {
  }

  /** The slots of a list that are as big as `w`. */
  function TiesOf(slots: seq<Slot>, list: seq<nat>, w: int): (r: seq<nat>)
    requires InRange(list, |slots|)
    ensures InRange(r, |slots|)
    ensures forall x :: x in r <==> x in list && x < |slots| && slots[x].spaceUsed == w
  {
    if list == [] then []
    else
      var r, x := TiesOf(slots, list[..|list| - 1], w), list[|list| - 1];
      assert list == list[..|list| - 1] + [x];
      if slots[x].spaceUsed == w then r + [x] else r
  }

  /** What the loop carries: the victims so far, the list of equals, the slots that it still
      wants, the circular pointer. */
  datatype Hunt = Hunt(picked: seq<nat>, ties: seq<nat>, need: nat, hand: nat)

  /** The victims taken for the size of slot `x`: `x` when it is all there is in the list of
      equals, and otherwise what the circular algorithm finds in that list. It is asked for the
      slots still wanted and takes the free ones off once more; when it finds that they are
      enough its answer is -1, and one more slot is wanted. */
  function Group(s: seq<Slot>, x: nat, ties: seq<nat>, need: nat, left: nat, atomics: nat, hand: nat): (r: Hunt)
    requires InRange(ties, |s|) && need > 0
    ensures r.ties == ties
  {
    if |ties| <= 1 then Hunt([x], ties, need - 1, hand)
    else if !CanEvict(need, left, atomics) then Hunt([], ties, need + 1, hand)
    else
      RotationInRange(ties, hand, |s|);
      var taken := Picked(s, Rotation(ties, hand), need - left);
      Hunt(taken, ties, need - |taken|, HandAfter(s, ties, hand, need - left))
  }

  /** One turn of the loop: a slot that is not atomic, or a victim by now, is passed over. */
  function Turn(slots: seq<Slot>, order: seq<nat>, i: nat, left: nat, atomics: nat, h: Hunt): (r: Hunt)
    requires i < |order| && InRange(order, |slots|) && InRange(h.ties, |slots|) && h.need > 0
    ensures InRange(r.ties, |slots|)
  {
    var s, x := Marked(slots, h.picked), order[i];
    if s[x].kind != AtomicSlot then h
    else
      var g := Group(s, x, h.ties + TiesOf(slots, order[i..], slots[x].spaceUsed), h.need, left, atomics, h.hand);
      g.(picked := h.picked + g.picked)
  }

  function HuntFrom(slots: seq<Slot>, order: seq<nat>, i: nat, left: nat, atomics: nat, h: Hunt): Hunt
    requires i <= |order| && InRange(order, |slots|) && InRange(h.ties, |slots|)
    decreases |order| - i
  {
    if i == |order| || h.need == 0 then h
    else HuntFrom(slots, order, i + 1, left, atomics, Turn(slots, order, i, left, atomics, h))
  }

  /** `algorithm_bsu` on slots sorted to `order`. */
  function Bsu(slots: seq<Slot>, order: seq<nat>, needed: nat, left: nat, atomics: nat, hand: nat): Hunt
    requires InRange(order, |slots|)
  {
    if CanEvict(needed, left, atomics) then
      HuntFrom(slots, order, 0, left, atomics, Hunt([], [], needed - left, hand))
    else Hunt([], [], needed, hand)
  }

  // ----- victims -----

  /** What the circular algorithm finds in a list that holds an atomic slot. */
  lemma GroupVictims(s: seq<Slot>, x: nat, ties: seq<nat>, need: nat, left: nat, atomics: nat, hand: nat)
    requires InRange(ties, |s|) && need > 0 && x in ties && x < |s| && s[x].kind == AtomicSlot
    ensures var g := Group(s, x, ties, need, left, atomics, hand);
            && Victims(s, g.picked)
            && (forall z :: z in g.picked ==> z in ties)
            && (|ties| > 1 && CanEvict(need, left, atomics) ==> g.need == need - |g.picked|)
            && (|ties| > 1 && CanEvict(need, left, atomics) && |g.picked| < need - left ==>
                  AllPickedIn(s, ties, g.picked))
  {
    if |ties| > 1 && CanEvict(need, left, atomics) {
      CircularVictims(s, ties, hand, need - left);
    }
  }

  lemma TurnVictims(slots: seq<Slot>, order: seq<nat>, i: nat, left: nat, atomics: nat, h: Hunt)
    requires i < |order| && InRange(order, |slots|) && InRange(h.ties, |slots|) && h.need > 0
    requires Victims(slots, h.picked)
    ensures Victims(slots, Turn(slots, order, i, left, atomics, h).picked)
  {
    var s, x := Marked(slots, h.picked), order[i];
    if s[x].kind == AtomicSlot {
      XTies(slots, order, i, h.ties);
      var ties := h.ties + TiesOf(slots, order[i..], slots[x].spaceUsed);
      GroupVictims(s, x, ties, h.need, left, atomics, h.hand);
      VictimsJoin(slots, h.picked, Group(s, x, ties, h.need, left, atomics, h.hand).picked);
    }
  }

  lemma {:induction false} HuntVictims(slots: seq<Slot>, order: seq<nat>, i: nat, left: nat, atomics: nat, h: Hunt)
    requires i <= |order| && InRange(order, |slots|) && InRange(h.ties, |slots|) && Victims(slots, h.picked)
    ensures Victims(slots, HuntFrom(slots, order, i, left, atomics, h).picked)
    decreases |order| - i
  {
    hide Turn;
    if i < |order| && h.need > 0 {
      TurnVictims(slots, order, i, left, atomics, h);
      HuntVictims(slots, order, i + 1, left, atomics, Turn(slots, order, i, left, atomics, h));
    }
  }

  /** Whatever the free slots, the order and the pointer: distinct slots, all of them atomic. */
  lemma BsuVictims(slots: seq<Slot>, order: seq<nat>, needed: nat, left: nat, atomics: nat, hand: nat)
    requires InRange(order, |slots|)
    ensures Victims(slots, Bsu(slots, order, needed, left, atomics, hand).picked)
  {
    if CanEvict(needed, left, atomics) {
      HuntVictims(slots, order, 0, left, atomics, Hunt([], [], needed - left, hand));
    }
  }

  // ----- no free slot: the biggest go -----

  /** Every atomic slot of a list is a victim. */
  ghost predicate AllPickedIn(slots: seq<Slot>, list: seq<nat>, picked: seq<nat>) {
    forall x :: x in list && x < |slots| && slots[x].kind == AtomicSlot ==> x in picked
  }

  lemma CircularVictims(slots: seq<Slot>, ties: seq<nat>, pointer: nat, n: nat)
    requires InRange(ties, |slots|)
    ensures InRange(Rotation(ties, pointer), |slots|)
    ensures var taken := Picked(slots, Rotation(ties, pointer), n);
            && Victims(slots, taken)
            && (forall z :: z in taken ==> z in ties)
            && (|taken| < n ==> AllPickedIn(slots, ties, taken))
  {
    var order := Rotation(ties, pointer);
    var taken := Picked(slots, order, n);
    PickedDistinct(slots, order, n);
    PickedAtomic(slots, order, n);
    assert forall x :: x in ties <==> x in order by {
      assert pointer < |ties| ==> ties == ties[..pointer] + ties[pointer..];
    }
    if |taken| < n {
      forall x | x in ties && slots[x].kind == AtomicSlot
        ensures x in taken
      {
        PickedAll(slots, order, n, x);
      }
    }
  }

  lemma VictimsJoin(slots: seq<Slot>, picked: seq<nat>, taken: seq<nat>)
    requires Victims(slots, picked) && Victims(Marked(slots, picked), taken)
    ensures Victims(slots, picked + taken)
    ensures forall z :: z in taken ==> z !in picked && z < |slots| && slots[z].kind == AtomicSlot
  {
    var s := Marked(slots, picked);
    forall j | 0 <= j < |taken|
      ensures taken[j] !in picked && slots[taken[j]].kind == AtomicSlot
    {
      assert s[taken[j]].kind == AtomicSlot;
    }
  }

  lemma XTies(slots: seq<Slot>, order: seq<nat>, i: nat, before: seq<nat>)
    requires i < |order| && InRange(order, |slots|)
    ensures InRange(order[i..], |slots|)
    ensures order[i] in before + TiesOf(slots, order[i..], slots[order[i]].spaceUsed)
  {
    assert order[i] == order[i..][0];
    assert order[i] in TiesOf(slots, order[i..], slots[order[i]].spaceUsed);
  }

  /** Victims that weigh at least as much as every atomic slot that survives. */
  ghost predicate Heaviest(slots: seq<Slot>, weight: seq<int>, picked: seq<nat>)
    requires |weight| == |slots| && InRange(picked, |slots|)
  {
    forall x, y: nat :: x in picked && y < |slots| && slots[y].kind == AtomicSlot && y !in picked ==>
      x < |slots| && weight[x] >= weight[y]
  }

  /** What `algorithm_bsu` guarantees when there is no free slot. */
  ghost predicate BiggestFirst(slots: seq<Slot>, picked: seq<nat>, needed: nat) {
    && InRange(picked, |slots|)
    && Heaviest(slots, Sizes(slots), picked)
    && |picked| <= needed
    && (|picked| < needed ==> AllPickedIn(slots, AllSlots(|slots|), picked))
  }

  /** One group of equals more: the victims are still the biggest, and if more are needed
      then every atomic slot met so far is a victim. */
  lemma GroupStep(s0: seq<Slot>, order: seq<nat>, i: nat, picked: seq<nat>, before: seq<nat>,
                  ties: seq<nat>, taken: seq<nat>, need: nat)
    requires Ranking(order, Sizes(s0)) && i < |order| && InRange(picked, |s0|) && InRange(taken, |s0|)
    requires InRange(before, |s0|) && InRange(ties, |s0|)
    requires Heaviest(s0, Sizes(s0), picked)
    requires AllPickedIn(s0, order[..i], picked) && AllPickedIn(s0, before, picked)
    requires InRange(order[i..], |s0|) && ties == before + TiesOf(s0, order[i..], s0[order[i]].spaceUsed)
    requires forall z :: z in taken ==> z !in picked && z in ties && z < |s0| && s0[z].kind == AtomicSlot
    requires need > 0 ==> AllPickedIn(Marked(s0, picked), ties, taken)
    ensures Heaviest(s0, Sizes(s0), picked + taken)
    ensures need > 0 ==> AllPickedIn(s0, order[..i + 1], picked + taken) && AllPickedIn(s0, ties, picked + taken)
  {
    hide Heaviest;
    hide InRange;
    XTies(s0, order, i, before);
    GroupHeaviest(s0, order, i, picked, before, ties, taken);
    if need > 0 {
      GroupAll(s0, order, i, picked, ties, taken);
    }
  }

  lemma GroupHeaviest(s0: seq<Slot>, order: seq<nat>, i: nat, picked: seq<nat>, before: seq<nat>,
                      ties: seq<nat>, taken: seq<nat>)
    requires Ranking(order, Sizes(s0)) && i < |order| && InRange(picked, |s0|) && InRange(taken, |s0|)
    requires InRange(before, |s0|) && Heaviest(s0, Sizes(s0), picked)
    requires AllPickedIn(s0, order[..i], picked) && AllPickedIn(s0, before, picked)
    requires InRange(order[i..], |s0|) && ties == before + TiesOf(s0, order[i..], s0[order[i]].spaceUsed)
    requires forall z :: z in taken ==> z !in picked && z in ties && z < |s0| && s0[z].kind == AtomicSlot
    ensures InRange(picked + taken, |s0|) && Heaviest(s0, Sizes(s0), picked + taken)
  {
    forall z, y: nat | z in taken && y < |s0| && s0[y].kind == AtomicSlot && y !in picked
      ensures Sizes(s0)[z] >= Sizes(s0)[y]
    {
      TakenWeigh(s0, order[i..], picked, before, ties, z, s0[order[i]].spaceUsed);
      LaterWeighsLess(s0, order, i, picked, y);
    }
    HeaviestJoin(s0, Sizes(s0), picked, taken);
  }

  lemma HeaviestJoin(s0: seq<Slot>, weight: seq<int>, picked: seq<nat>, taken: seq<nat>)
    requires |weight| == |s0| && InRange(picked, |s0|) && InRange(taken, |s0|) && Heaviest(s0, weight, picked)
    requires forall z, y: nat :: z in taken && z < |s0| && y < |s0| && s0[y].kind == AtomicSlot && y !in picked ==>
               weight[z] >= weight[y]
    ensures InRange(picked + taken, |s0|) && Heaviest(s0, weight, picked + taken)
  {
    InRangeJoin(picked, taken, |s0|);
    forall z, y: nat | z in picked + taken && y < |s0| && s0[y].kind == AtomicSlot && y !in picked + taken
      ensures z < |s0| && weight[z] >= weight[y]
    {
      InRangeIn(picked + taken, |s0|, z);
    }
  }

  lemma InRangeJoin(a: seq<nat>, b: seq<nat>, n: nat)
    requires InRange(a, n) && InRange(b, n)
    ensures InRange(a + b, n)
  {
  }

  lemma InRangeIn(a: seq<nat>, n: nat, z: nat)
    requires InRange(a, n) && z in a
    ensures z < n
  {
  }

  lemma TakenWeigh(s0: seq<Slot>, rest: seq<nat>, picked: seq<nat>, before: seq<nat>, ties: seq<nat>, z: nat, w: int)
    requires InRange(rest, |s0|) && AllPickedIn(s0, before, picked) && ties == before + TiesOf(s0, rest, w)
    requires z in ties && z !in picked && z < |s0| && s0[z].kind == AtomicSlot
    ensures s0[z].spaceUsed == w
  {
    assert z in before || z in TiesOf(s0, rest, w);
  }

  lemma GroupAll(s0: seq<Slot>, order: seq<nat>, i: nat, picked: seq<nat>, ties: seq<nat>, taken: seq<nat>)
    requires i < |order| && AllPickedIn(s0, order[..i], picked) && order[i] in ties
    requires AllPickedIn(Marked(s0, picked), ties, taken)
    ensures AllPickedIn(s0, order[..i + 1], picked + taken) && AllPickedIn(s0, ties, picked + taken)
  {
    forall y | y in ties && y < |s0| && s0[y].kind == AtomicSlot
      ensures y in picked + taken
    {
      assert y !in picked ==> Marked(s0, picked)[y].kind == AtomicSlot;
    }
    assert order[..i + 1] == order[..i] + [order[i]];
  }

  lemma LaterWeighsLess(s0: seq<Slot>, order: seq<nat>, i: nat, picked: seq<nat>, y: nat)
    requires Ranking(order, Sizes(s0)) && i < |order| && AllPickedIn(s0, order[..i], picked)
    requires y < |s0| && s0[y].kind == AtomicSlot && y !in picked
    ensures s0[order[i]].spaceUsed >= s0[y].spaceUsed
  {
    assert y in order;
    var j :| 0 <= j < |order| && order[j] == y;
    forall m | 0 <= m < i
      ensures order[m] != y
    {
      var x := order[..i][m];
      assert x in order[..i];
    }
    assert Sizes(s0)[order[i]] == s0[order[i]].spaceUsed && Sizes(s0)[order[j]] == s0[y].spaceUsed;
  }

  lemma SkipStep(slots: seq<Slot>, order: seq<nat>, i: nat, picked: seq<nat>)
    requires i < |order| && order[i] < |slots| && Marked(slots, picked)[order[i]].kind != AtomicSlot
    requires AllPickedIn(slots, order[..i], picked)
    ensures AllPickedIn(slots, order[..i + 1], picked)
  {
    assert order[..i + 1] == order[..i] + [order[i]];
  }

  /** Where the loop stands before visiting order[i], when there is no free slot. */
  ghost predicate BsuProgress(slots: seq<Slot>, order: seq<nat>, i: nat, h: Hunt, needed: nat)
    requires i <= |order|
  {
    && Victims(slots, h.picked) && InRange(h.ties, |slots|)
    && |h.picked| + h.need == needed
    && Heaviest(slots, Sizes(slots), h.picked)
    && (h.need > 0 ==> AllPickedIn(slots, order[..i], h.picked) && AllPickedIn(slots, h.ties, h.picked))
  }

  lemma TurnProgress(slots: seq<Slot>, order: seq<nat>, i: nat, atomics: nat, h: Hunt, needed: nat)
    requires Ranking(order, Sizes(slots)) && i < |order| && InRange(order, |slots|) && h.need > 0
    requires needed <= atomics && BsuProgress(slots, order, i, h, needed)
    ensures BsuProgress(slots, order, i + 1, Turn(slots, order, i, 0, atomics, h), needed)
  {
    hide Ranking;
    hide Heaviest;
    hide AllPickedIn;
    hide Picked;
    TurnVictims(slots, order, i, 0, atomics, h);
    if Marked(slots, h.picked)[order[i]].kind == AtomicSlot {
      HitProgress(slots, order, i, atomics, h, needed);
    } else {
      SkipStep(slots, order, i, h.picked);
    }
  }

  lemma HitProgress(slots: seq<Slot>, order: seq<nat>, i: nat, atomics: nat, h: Hunt, needed: nat)
    requires Ranking(order, Sizes(slots)) && i < |order| && InRange(order, |slots|) && h.need > 0
    requires needed <= atomics && BsuProgress(slots, order, i, h, needed)
    requires Marked(slots, h.picked)[order[i]].kind == AtomicSlot
    ensures var r := Turn(slots, order, i, 0, atomics, h);
            && |r.picked| + r.need == needed && InRange(r.picked, |slots|)
            && Heaviest(slots, Sizes(slots), r.picked)
            && (r.need > 0 ==> AllPickedIn(slots, order[..i + 1], r.picked) && AllPickedIn(slots, r.ties, r.picked))
  {
    var s, x := Marked(slots, h.picked), order[i];
    XTies(slots, order, i, h.ties);
    var ties := h.ties + TiesOf(slots, order[i..], slots[x].spaceUsed);
    var g := Group(s, x, ties, h.need, 0, atomics, h.hand);
    hide Ranking;
    hide Heaviest;
    GroupVictims(s, x, ties, h.need, 0, atomics, h.hand);
    VictimsJoin(slots, h.picked, g.picked);
    GroupAllOrDone(s, x, ties, h.need, atomics, h.hand);
    GroupStep(slots, order, i, h.picked, h.ties, ties, g.picked, g.need);
  }

  lemma GroupAllOrDone(s: seq<Slot>, x: nat, ties: seq<nat>, need: nat, atomics: nat, hand: nat)
    requires InRange(ties, |s|) && x in ties && x < |s| && s[x].kind == AtomicSlot && 0 < need <= atomics
    ensures var g := Group(s, x, ties, need, 0, atomics, hand);
            g.need == need - |g.picked| && (g.need > 0 ==> AllPickedIn(s, ties, g.picked))
  {
    GroupVictims(s, x, ties, need, 0, atomics, hand);
    if |ties| <= 1 {
      assert ties == [x];
    }
  }

  lemma {:induction false} HuntProgress(slots: seq<Slot>, order: seq<nat>, i: nat, atomics: nat, h: Hunt, needed: nat)
    requires Ranking(order, Sizes(slots)) && i <= |order| && InRange(order, |slots|)
    requires needed <= atomics && BsuProgress(slots, order, i, h, needed)
    ensures BiggestFirst(slots, HuntFrom(slots, order, i, 0, atomics, h).picked, needed)
    decreases |order| - i
  {
    hide Turn;
    if i < |order| && h.need > 0 {
      hide Ranking;
      hide BsuProgress;
      TurnProgress(slots, order, i, atomics, h, needed);
      HuntProgress(slots, order, i + 1, atomics, Turn(slots, order, i, 0, atomics, h), needed);
    } else if h.need > 0 {
      assert order[..i] == order;
      assert forall x :: x in AllSlots(|slots|) && x < |slots| ==> x in order;
    }
  }

  /** With no free slot the victims are the biggest atomic values, as many as are needed. */
  lemma BiggestGo(slots: seq<Slot>, order: seq<nat>, needed: nat, atomics: nat, hand: nat)
    requires Ranking(order, Sizes(slots)) && InRange(order, |slots|) && CanEvict(needed, 0, atomics)
    ensures BiggestFirst(slots, Bsu(slots, order, needed, 0, atomics, hand).picked, needed)
  {
    HuntProgress(slots, order, 0, atomics, Hunt([], [], needed, hand), needed);
  }

  // ----- free slots: one big value, or a matter of the pointer -----

  /** No slot that is not atomic has the size of one that is. */
  ghost predicate AtomicsApart(slots: seq<Slot>) {
    forall x: nat, y: nat :: x < |slots| && y < |slots|
                             && slots[x].kind == AtomicSlot && slots[y].kind != AtomicSlot ==>
      slots[x].spaceUsed != slots[y].spaceUsed
  }

  /** An atomic slot that is bigger than all the others. */
  predicate Alone(slots: seq<Slot>, x: nat) {
    && x < |slots| && slots[x].kind == AtomicSlot
    && forall y: nat :: y < |slots| && y != x && slots[y].kind == AtomicSlot ==> slots[y].spaceUsed < slots[x].spaceUsed
  }

  ghost predicate NoneAtomic(slots: seq<Slot>, list: seq<nat>) {
    forall x :: x in list && x < |slots| ==> slots[x].kind != AtomicSlot
  }

  /** The first atomic slot in descending order has no equal exactly when it is the biggest alone. */
  lemma FirstAlone(slots: seq<Slot>, order: seq<nat>, i: nat)
    requires Ranking(order, Sizes(slots)) && i < |order| && AtomicsApart(slots)
    requires InRange(order, |slots|) && slots[order[i]].kind == AtomicSlot && NoneAtomic(slots, order[..i])
    requires InRange(order[i..], |slots|)
    ensures Alone(slots, order[i]) <==> |TiesOf(slots, order[i..], slots[order[i]].spaceUsed)| <= 1
    ensures (exists x :: Alone(slots, x)) ==> Alone(slots, order[i])
  {
    var x := order[i];
    assert x == order[i..][0];
    forall y: nat | y < |slots| && slots[y].kind == AtomicSlot
      ensures slots[y].spaceUsed <= slots[x].spaceUsed && y in order[i..]
    {
      BehindFirst(slots, order, i, y);
    }
    TiesDistinct(slots, order[i..], slots[x].spaceUsed);
    hide Ranking;
    BiggestInList(slots, order[i..], x);
  }

  /** A biggest atomic slot of a list with all of them is alone exactly when it ties with none. */
  lemma BiggestInList(slots: seq<Slot>, list: seq<nat>, x: nat)
    requires InRange(list, |slots|) && x in list && x < |slots| && slots[x].kind == AtomicSlot && AtomicsApart(slots)
    requires forall y: nat :: y < |slots| && slots[y].kind == AtomicSlot ==>
               slots[y].spaceUsed <= slots[x].spaceUsed && y in list
    requires Distinct(TiesOf(slots, list, slots[x].spaceUsed))
    ensures Alone(slots, x) <==> |TiesOf(slots, list, slots[x].spaceUsed)| <= 1
    ensures (exists y :: Alone(slots, y)) ==> Alone(slots, x)
  {
    var tied := TiesOf(slots, list, slots[x].spaceUsed);
    assert x in tied;
    if |tied| > 1 {
      var y := if tied[0] == x then tied[1] else tied[0];
      assert y in tied && y != x && slots[y].kind == AtomicSlot;
    } else {
      assert tied == [x];
    }
  }

  lemma BehindFirst(slots: seq<Slot>, order: seq<nat>, i: nat, y: nat)
    requires Ranking(order, Sizes(slots)) && i < |order| && InRange(order, |slots|)
    requires NoneAtomic(slots, order[..i]) && y < |slots| && slots[y].kind == AtomicSlot
    ensures slots[y].spaceUsed <= slots[order[i]].spaceUsed && y in order[i..]
  {
    hide Distinct;
    assert y in order;
    var j :| 0 <= j < |order| && order[j] == y;
    forall m | 0 <= m < i
      ensures order[m] != y
    {
      assert order[m] in order[..i];
    }
    assert order[i..][j - i] == y;
    assert Sizes(slots)[order[i]] == slots[order[i]].spaceUsed && Sizes(slots)[y] == slots[y].spaceUsed;
  }

  lemma {:induction false} TiesDistinct(slots: seq<Slot>, list: seq<nat>, w: int)
    requires InRange(list, |slots|) && Distinct(list)
    ensures Distinct(TiesOf(slots, list, w))
  {
    if list != [] {
      var front, x := list[..|list| - 1], list[|list| - 1];
      TiesDistinct(slots, front, w);
      assert x !in front;
    }
  }

  /** Slots that are not atomic are passed over. */
  lemma {:induction false} SkipTo(slots: seq<Slot>, order: seq<nat>, i: nat, left: nat, atomics: nat, h: Hunt)
    requires i <= |order| && InRange(order, |slots|) && h.ties == [] && h.picked == []
    requires NoneAtomic(slots, order[..i])
    ensures HuntFrom(slots, order, 0, left, atomics, h) == HuntFrom(slots, order, i, left, atomics, h)
  {
    if i > 0 {
      assert order[..i][..i - 1] == order[..i - 1] && order[..i][i - 1] == order[i - 1];
      assert NoneAtomic(slots, order[..i - 1]) && order[i - 1] in order[..i];
      SkipTo(slots, order, i - 1, left, atomics, h);
    }
  }

  /** One slot is missing and one atomic value is bigger than all the others: that one goes. */
  lemma AloneGoes(slots: seq<Slot>, order: seq<nat>, left: nat, atomics: nat, hand: nat, x: nat)
    requires Ranking(order, Sizes(slots)) && InRange(order, |slots|) && AtomicsApart(slots) && Alone(slots, x)
    requires atomics >= 1
    ensures var b := Bsu(slots, order, left + 1, left, atomics, hand); b.picked == [x] && b.hand == hand
  {
    hide Turn;
    assert x in order;
    var i :| 0 <= i < |order| && order[i] == x;
    AloneIsFirst(slots, order, i);
    hide Ranking;
    hide AtomicsApart;
    hide Alone;
    SkipTo(slots, order, i, left, atomics, Hunt([], [], 1, hand));
    AloneTurn(slots, order, i, left, atomics, Hunt([], [], 1, hand));
  }

  lemma AloneTurn(slots: seq<Slot>, order: seq<nat>, i: nat, left: nat, atomics: nat, h: Hunt)
    requires Ranking(order, Sizes(slots)) && InRange(order, |slots|) && AtomicsApart(slots)
    requires i < |order| && Alone(slots, order[i]) && NoneAtomic(slots, order[..i])
    requires h.picked == [] && h.ties == [] && h.need == 1
    ensures var r := Turn(slots, order, i, left, atomics, h);
            r.picked == [order[i]] && r.need == 0 && r.hand == h.hand
  {
    XTies(slots, order, i, []);
    FirstAlone(slots, order, i);
    hide Ranking;
    hide AtomicsApart;
    assert Marked(slots, []) == slots;
    var ties := TiesOf(slots, order[i..], slots[order[i]].spaceUsed);
    assert [] + ties == ties && [] + [order[i]] == [order[i]];
  }

  lemma AloneIsFirst(slots: seq<Slot>, order: seq<nat>, i: nat)
    requires Ranking(order, Sizes(slots)) && i < |order| && Alone(slots, order[i])
    ensures NoneAtomic(slots, order[..i])
  {
    forall y | y in order[..i] && y < |slots|
      ensures slots[y].kind != AtomicSlot
    {
      var j :| 0 <= j < i && order[j] == y;
      assert Sizes(slots)[order[j]] >= Sizes(slots)[order[i]];
    }
  }

  /** The atomic slots from order[i] on. */
  function AtomicsFrom(slots: seq<Slot>, order: seq<nat>, i: nat): nat
    requires i <= |order| && InRange(order, |slots|)
    decreases |order| - i
  {
    if i == |order| then 0
    else AtomicsFrom(slots, order, i + 1) + if slots[order[i]].kind == AtomicSlot then 1 else 0
  }

  lemma {:induction false} FirstAtomic(slots: seq<Slot>, order: seq<nat>, j: nat) returns (i: nat)
    requires j <= |order| && InRange(order, |slots|)
    requires NoneAtomic(slots, order[..j]) && AtomicsFrom(slots, order, j) > 0
    ensures i < |order| && slots[order[i]].kind == AtomicSlot && NoneAtomic(slots, order[..i])
    ensures AtomicsFrom(slots, order, i) == AtomicsFrom(slots, order, j)
    decreases |order| - j
  {
    if slots[order[j]].kind == AtomicSlot {
      i := j;
    } else {
      assert order[..j + 1] == order[..j] + [order[j]];
      i := FirstAtomic(slots, order, j + 1);
    }
  }

  /** Victims are never taken back. */
  lemma {:induction false} HuntKeeps(slots: seq<Slot>, order: seq<nat>, i: nat, left: nat, atomics: nat, h: Hunt)
    requires i <= |order| && InRange(order, |slots|) && InRange(h.ties, |slots|) && h.picked != []
    ensures HuntFrom(slots, order, i, left, atomics, h).picked != []
    decreases |order| - i
  {
    if i < |order| && h.need > 0 {
      HuntKeeps(slots, order, i + 1, left, atomics, Turn(slots, order, i, left, atomics, h));
    }
  }

  /** The first turn on an atomic slot that takes a victim, or has to wait. */
  lemma FirstTake(slots: seq<Slot>, order: seq<nat>, i: nat, left: nat, atomics: nat, h: Hunt)
    requires i < |order| && InRange(order, |slots|) && InRange(order[i..], |slots|) && InRange(h.ties, |slots|)
    requires h.need > 0 && h.picked == [] && slots[order[i]].kind == AtomicSlot
    ensures var r, ties := Turn(slots, order, i, left, atomics, h),
                           h.ties + TiesOf(slots, order[i..], slots[order[i]].spaceUsed);
            && r.ties == ties && |ties| > |h.ties|
            && if |ties| <= 1 || CanEvict(h.need, left, atomics) then r.picked != []
               else r.picked == [] && r.need == h.need + 1
  {
    XTies(slots, order, i, []);
    assert Marked(slots, []) == slots;
    var ties := h.ties + TiesOf(slots, order[i..], slots[order[i]].spaceUsed);
    assert order[i] in TiesOf(slots, order[i..], slots[order[i]].spaceUsed);
    GroupVictims(slots, order[i], ties, h.need, left, atomics, h.hand);
  }

  /** With equals in the list, nothing is taken before the slots wanted outnumber the free ones,
      and every atomic slot that is passed over makes it one slot more. */
  lemma {:induction false} LongWait(slots: seq<Slot>, order: seq<nat>, i: nat, left: nat, atomics: nat, h: Hunt)
    requires i <= |order| && InRange(order, |slots|) && InRange(h.ties, |slots|)
    requires h.ties != [] && h.picked == [] && 0 < h.need <= left + atomics && atomics > 0
    ensures HuntFrom(slots, order, i, left, atomics, h).picked == []
            <==> AtomicsFrom(slots, order, i) == 0 || h.need + AtomicsFrom(slots, order, i) <= left + 1
    decreases |order| - i
  {
    hide Turn;
    hide TiesOf;
    if i < |order| {
      if slots[order[i]].kind == AtomicSlot {
        XTies(slots, order, i, []);
        FirstTake(slots, order, i, left, atomics, h);
        var r := Turn(slots, order, i, left, atomics, h);
        if h.need > left {
          HuntKeeps(slots, order, i + 1, left, atomics, r);
        } else {
          LongWait(slots, order, i + 1, left, atomics, r);
        }
      } else {
        PassedOver(slots, order, i, left, atomics, h);
        LongWait(slots, order, i + 1, left, atomics, h);
      }
    }
  }

  lemma PassedOver(slots: seq<Slot>, order: seq<nat>, i: nat, left: nat, atomics: nat, h: Hunt)
    requires i < |order| && InRange(order, |slots|) && InRange(h.ties, |slots|) && h.need > 0
    requires slots[order[i]].kind != AtomicSlot
    ensures Turn(slots, order, i, left, atomics, h) == h
  {
  }

  /** It evicts nothing at all, though the atomic slots would do, exactly when no atomic value is
      bigger than all the others and the slots wanted and the atomic ones together are at most
      one more than the free ones. */
  lemma NothingIff(slots: seq<Slot>, order: seq<nat>, needed: nat, left: nat, atomics: nat, hand: nat)
    requires Ranking(order, Sizes(slots)) && InRange(order, |slots|) && AtomicsApart(slots)
    requires CanEvict(needed, left, atomics) && atomics == AtomicsFrom(slots, order, 0)
    ensures Bsu(slots, order, needed, left, atomics, hand).picked == []
            <==> !(exists x :: Alone(slots, x)) && needed - left + atomics <= left + 1
  {
    hide Turn;
    var i := FirstAtomic(slots, order, 0);
    var h := Hunt([], [], needed - left, hand);
    SkipTo(slots, order, i, left, atomics, h);
    XTies(slots, order, i, []);
    FirstAlone(slots, order, i);
    hide Ranking;
    FirstTake(slots, order, i, left, atomics, h);
    var r, ties := Turn(slots, order, i, left, atomics, h), TiesOf(slots, order[i..], slots[order[i]].spaceUsed);
    assert [] + ties == ties;
    if |ties| <= 1 || CanEvict(h.need, left, atomics) {
      HuntKeeps(slots, order, i + 1, left, atomics, r);
    } else {
      LongWait(slots, order, i + 1, left, atomics, r);
    }
  }

  // ----- what that means for agreeing tables -----

  lemma {:induction false} AtomicsFromOf(slots: seq<Slot>, order: seq<nat>, i: nat)
    requires i <= |order| && InRange(order, |slots|)
    ensures |AtomicsOf(slots, order)| == |AtomicsOf(slots, order[..i])| + AtomicsFrom(slots, order, i)
    decreases |order| - i
  {
    if i == |order| {
      assert order[..i] == order;
    } else {
      assert order[..i + 1][..i] == order[..i];
      AtomicsFromOf(slots, order, i + 1);
    }
  }

  /** Distinct slots of atomic entries are no more than these. */
  lemma {:induction false} AtomicsBound(t: seq<Entry>, es: nat, listed: set<nat>)
    requires es >= 1
    requires forall x :: x in listed ==> exists i :: 0 <= i < |t| && t[i].number == x && IsAtomic(t[i], es)
    ensures |listed| <= AtomicCount(t, es)
  {
    if t == [] {
      assert forall x :: x !in listed;
      assert listed == {};
    } else {
      var front, e := t[..|t| - 1], t[|t| - 1];
      var others := if IsAtomic(e, es) && e.number >= 0 then listed - {e.number} else listed;
      forall x | x in others
        ensures exists i :: 0 <= i < |front| && front[i].number == x && IsAtomic(front[i], es)
      {
        var i :| 0 <= i < |t| && t[i].number == x && IsAtomic(t[i], es);
        assert front[i] == t[i];
      }
      AtomicsBound(front, es, others);
    }
  }

  lemma {:induction false} AtomicsOfAll(slots: seq<Slot>, order: seq<nat>)
    requires InRange(order, |slots|) && Distinct(order)
    ensures Victims(slots, AtomicsOf(slots, order))
    ensures forall x :: x in AtomicsOf(slots, order) <==> x in order && x < |slots| && slots[x].kind == AtomicSlot
  {
    if order != [] {
      var front, x := order[..|order| - 1], order[|order| - 1];
      AtomicsOfAll(slots, front);
      assert order == front + [x] && x !in front;
    }
  }

  lemma {:induction false} ElementsCount(s: seq<nat>)
    requires Distinct(s)
    ensures |ElementsOf(s)| == |s|
  {
    if s != [] {
      var front := s[..|s| - 1];
      ElementsCount(front);
      assert s == front + [s[|s| - 1]];
      assert ElementsOf(s) == ElementsOf(front) + {s[|s| - 1]};
    }
  }

  /** An order of all the slots meets as many atomic ones as the table has atomic entries. */
  lemma AtomicsCounted(t: seq<Entry>, es: nat, total: nat, slots: seq<Slot>, order: seq<nat>)
    requires es >= 1 && WellPlaced(t, es, total) && |slots| == total && Tracks(t, es, slots)
    requires InRange(order, |slots|) && Distinct(order) && forall x: nat :: x < |slots| ==> x in order
    ensures AtomicsFrom(slots, order, 0) == AtomicCount(t, es)
  {
    var r := AtomicsOf(slots, order);
    AtomicsFromOf(slots, order, 0);
    AtomicsOfAll(slots, order);
    AllAtomics(t, es, total, slots, r);
    ElementsCount(r);
    forall x | x in ElementsOf(r)
      ensures exists i :: 0 <= i < |t| && t[i].number == x && IsAtomic(t[i], es)
    {
      var e := AtomicSlotOwner(t, es, total, slots, x);
    }
    AtomicsBound(t, es, ElementsOf(r));
  }

  /** In agreeing tables only atomic slots have a positive size. */
  lemma AgreeingApart(t: seq<Entry>, es: nat, total: nat, slots: seq<Slot>)
    requires es >= 1 && WellPlaced(t, es, total) && |slots| == total && Agrees(t, es, slots)
    ensures AtomicsApart(slots)
  {
    forall x: nat | x < |slots|
      ensures slots[x].spaceUsed > 0 <==> slots[x].kind == AtomicSlot
    {
      if Occupied(t, es, x) {
        var j :| 0 <= j < |t| && t[j].number <= x < End(t[j], es);
        assert t[j] in t && Covers(t[j], es, x) && Inside(t[j], es, total);
        assert Matches(slots[x], t[j], es);
      } else {
        assert Vacant(t, slots[x]);
      }
    }
  }

  /** From agreeing tables, in the numbers the instance works with: `algorithm_bsu` finds no
      victim, though the atomic values would do, exactly when none of them is bigger than all
      the others and they are too few to make up for the free slots. */
  lemma BsuFindsNoneIff(t: seq<Entry>, es: nat, total: nat, slots: seq<Slot>, order: seq<nat>, needed: nat, left: nat,
                        hand: nat)
    requires es >= 1 && WellPlaced(t, es, total) && |slots| == total && Agrees(t, es, slots)
    requires Ranking(order, Sizes(slots)) && InRange(order, |slots|)
    requires left == total - Used(t, es) && CanEvict(needed, left, AtomicCount(t, es))
    ensures Bsu(slots, order, needed, left, AtomicCount(t, es), hand).picked == []
            <==> !(exists x :: Alone(slots, x)) && needed - left + AtomicCount(t, es) <= left + 1
  {
    AtomicsCounted(t, es, total, slots, order);
    AgreeingApart(t, es, total, slots);
    NothingIff(slots, order, needed, left, AtomicCount(t, es), hand);
  }

  /** It finds exactly the victims that are missing when no slot is free, and when one slot is
      missing and one atomic value is bigger than all the others. */
  lemma BsuExact(t: seq<Entry>, es: nat, total: nat, slots: seq<Slot>, order: seq<nat>, needed: nat, left: nat,
                 hand: nat)
    requires es >= 1 && WellPlaced(t, es, total) && |slots| == total && Tracks(t, es, slots)
    requires Ranking(order, Sizes(slots)) && InRange(order, |slots|)
    requires left == total - Used(t, es) && CanEvict(needed, left, AtomicCount(t, es))
    requires left == 0 || (NoneUsed(slots) && needed == left + 1 && exists x :: Alone(slots, x))
    ensures |Bsu(slots, order, needed, left, AtomicCount(t, es), hand).picked| == needed - left
  {
    var picked := Bsu(slots, order, needed, left, AtomicCount(t, es), hand).picked;
    if left == 0 {
      BiggestGo(slots, order, needed, AtomicCount(t, es), hand);
      hide Bsu;
      if |picked| < needed {
        forall x: nat | x < |slots| && slots[x].kind == AtomicSlot
          ensures x in picked
        {
          assert AllSlots(|slots|)[x] == x;
        }
        AllAtomics(t, es, total, slots, picked);
      }
    } else {
      var x :| Alone(slots, x);
      AgreeingApart(t, es, total, slots);
      AloneGoes(slots, order, left, AtomicCount(t, es), hand, x);
    }
  }
}
