/** Wait-for graphs in which each ESI waits for at most one other: walks, cycles, and
    where a walk goes in the long run. */
module WaitGraph {
  /** The ESI that each waiting ESI waits for. */
  type Graph = map<int, int>

  datatype Option<T> = None | Some(value: T)

  function Next(g: Graph, e: int): Option<int> {
    if e in g then Some(g[e]) else None
  }

  /** `n` edges followed from `e`. */
  function Walk(g: Graph, e: int, n: nat): Option<int> {
    if n == 0 then Some(e)
    else match Walk(g, e, n - 1) case None => None case Some(x) => Next(g, x)
  }

  ghost predicate Ends(g: Graph, e: int) {
    exists n: nat :: Walk(g, e, n) == None
  }

  ghost predicate Reaches(g: Graph, a: int, b: int) {
    exists n: nat :: Walk(g, a, n) == Some(b)
  }

  ghost predicate OnCycle(g: Graph, e: int) {
    exists n: nat :: n > 0 && Walk(g, e, n) == Some(e)
  }

  ghost predicate LeadsToCycle(g: Graph, e: int) {
    exists x :: Reaches(g, e, x) && OnCycle(g, x)
  }

  /** Two ESIs lie on one cycle. */
  ghost predicate SameCycle(g: Graph, a: int, b: int) {
    OnCycle(g, a) && Reaches(g, a, b)
  }

  lemma {:induction false} WalkAdds(g: Graph, e: int, m: nat, n: nat)
    ensures Walk(g, e, m + n) == match Walk(g, e, m) case None => None case Some(x) => Walk(g, x, n)
  {
    if n > 0 {
      WalkAdds(g, e, m, n - 1);
    }
  }

  /** k rounds of p steps. */
  function Rounds(p: nat, k: nat): (r: nat)
    ensures p >= 1 ==> r >= k
  {
    if k == 0 then 0 else Rounds(p, k - 1) + p
  }

  lemma {:induction false} WalkAround(g: Graph, e: int, p: nat, k: nat)
    requires Walk(g, e, p) == Some(e)
    ensures Walk(g, e, Rounds(p, k)) == Some(e)
  {
    if k > 0 {
      WalkAround(g, e, p, k - 1);
      WalkAdds(g, e, Rounds(p, k - 1), p);
    }
  }

  lemma WalkStaysEnded(g: Graph, e: int, m: nat, n: nat)
    requires Walk(g, e, m) == None && m <= n
    ensures Walk(g, e, n) == None
  {
    WalkAdds(g, e, m, n - m);
  }

  /** A walk that ends does not start on a cycle. */
  lemma EndedOffCycle(g: Graph, e: int)
    requires Ends(g, e)
    ensures !OnCycle(g, e)
  {
    var n: nat :| Walk(g, e, n) == None;
    forall p: nat | p > 0
      ensures Walk(g, e, p) != Some(e)
    {
      if Walk(g, e, p) == Some(e) {
        WalkAround(g, e, p, n);
        WalkStaysEnded(g, e, n, Rounds(p, n));
        assert false;
      }
    }
  }

  /** What a walk that ends passes through ends too. */
  lemma ReachedEnds(g: Graph, e: int, x: int)
    requires Reaches(g, e, x) && Ends(g, e)
    ensures Ends(g, x)
  {
    var m: nat :| Walk(g, e, m) == Some(x);
    var n: nat :| Walk(g, e, n) == None;
    WalkStaysEnded(g, e, n, m + n);
    WalkAdds(g, e, m, n);
  }

  /** On a cycle, what is reached reaches back and is on the same cycle. */
  lemma CycleReachesBack(g: Graph, a: int, b: int)
    requires SameCycle(g, a, b)
    ensures SameCycle(g, b, a)
  {
    var p: nat :| p > 0 && Walk(g, a, p) == Some(a);
    var m: nat :| Walk(g, a, m) == Some(b);
    WalkAround(g, a, p, m + 1);
    var back: nat := Rounds(p, m + 1) - m;
    WalkAdds(g, a, m, back);
    assert Walk(g, b, back) == Some(a);
    WalkAdds(g, b, back, m);
    assert Walk(g, b, back + m) == Some(b);
  }

  lemma ReachesTransitive(g: Graph, a: int, b: int, c: int)
    requires Reaches(g, a, b) && Reaches(g, b, c)
    ensures Reaches(g, a, c)
  {
    var m: nat :| Walk(g, a, m) == Some(b);
    var n: nat :| Walk(g, b, n) == Some(c);
    WalkAdds(g, a, m, n);
  }

  /** An ESI on a cycle waits for one and is waited for by one. */
  lemma CycleNeighbours(g: Graph, e: int)
    requires OnCycle(g, e)
    ensures e in g && exists x :: x in g && g[x] == e
  {
    var n: nat :| n > 0 && Walk(g, e, n) == Some(e);
    var x := Walk(g, e, n - 1).value;
    assert x in g && g[x] == e;
    WalkAdds(g, e, 1, n - 1);
    assert Walk(g, e, 1) == Next(g, e) by {
      assert Walk(g, e, 0) == Some(e);
    }
  }

  /** Every walk ends or gets to a cycle. */
  lemma EndsOrCycles(g: Graph, e: int)
    ensures Ends(g, e) || LeadsToCycle(g, e)
  {
    assert Walk(g, e, 0) == Some(e);
    SearchOn(g, e, 0, {e});
  }

  ghost predicate SeenBy(g: Graph, e: int, n: nat, x: int) {
    exists i: nat :: i <= n && Walk(g, e, i) == Some(x)
  }

  /** The measure is the ESIs not yet visited: `seen` are those that the first n steps visit. */
  lemma {:induction false} SearchOn(g: Graph, e: int, n: nat, seen: set<int>)
    requires Walk(g, e, n).Some? && Walk(g, e, n).value in seen
    requires forall x :: x in seen ==> SeenBy(g, e, n, x)
    ensures Ends(g, e) || LeadsToCycle(g, e)
    decreases g.Values - seen
  {
    if Walk(g, e, n + 1).Some? {
      var x := Walk(g, e, n + 1).value;
      if x in seen {
        var i: nat :| i <= n && Walk(g, e, i) == Some(x);
        ClosesCycle(g, e, i, n + 1, x);
      } else {
        assert x in g.Values;
        forall y | y in seen + {x}
          ensures SeenBy(g, e, n + 1, y)
        {
          if y in seen {
            assert SeenBy(g, e, n, y);
          }
        }
        SearchOn(g, e, n + 1, seen + {x});
      }
    }
  }

  lemma ClosesCycle(g: Graph, e: int, i: nat, j: nat, x: int)
    requires i < j && Walk(g, e, i) == Some(x) && Walk(g, e, j) == Some(x)
    ensures LeadsToCycle(g, e)
  {
    WalkAdds(g, e, i, j - i);
    assert OnCycle(g, x) && Reaches(g, e, x);
  }

  /** The detector's walk from `e` stops at its n-th step, n >= 1: the ESI there waits for
      nobody, or for the first one. */
  ghost predicate Stops(g: Graph, e: int, n: nat) {
    n >= 1 && Walk(g, e, n).Some? && (Walk(g, e, n + 1) == None || Walk(g, e, n + 1) == Some(e))
  }

  /** The detector's walk stops if and only if its start is on a cycle or leads to none: a
      start off a cycle that leads into one makes the walk endless. */
  lemma WalkStopsIff(g: Graph, e: int)
    requires e in g
    ensures (exists n: nat :: Stops(g, e, n)) <==> OnCycle(g, e) || !LeadsToCycle(g, e)
  {
    if OnCycle(g, e) {
      var p: nat :| p > 0 && Walk(g, e, p) == Some(e);
      WalkAdds(g, e, p, p);
      assert Walk(g, e, p + p - 1).Some?;
      assert Stops(g, e, p + p - 1);
    } else if LeadsToCycle(g, e) {
      var x :| Reaches(g, e, x) && OnCycle(g, x);
      forall n: nat
        ensures !Stops(g, e, n)
      {
        if Stops(g, e, n) && Walk(g, e, n + 1) == None {
          assert Ends(g, e);
          ReachedEnds(g, e, x);
          EndedOffCycle(g, x);
          assert false;
        }
      }
    } else {
      EndsOrCycles(g, e);
      var n: nat :| Walk(g, e, n) == None;
      LastStep(g, e, n);
    }
  }

  lemma {:induction false} LastStep(g: Graph, e: int, n: nat)
    requires Walk(g, e, n) == None && e in g
    ensures exists m: nat :: Stops(g, e, m)
  {
    assert Walk(g, e, 0) == Some(e) && Walk(g, e, 1) == Next(g, e);
    if Walk(g, e, n - 1).Some? {
      assert Stops(g, e, n - 1);
    } else {
      LastStep(g, e, n - 1);
    }
  }
}
