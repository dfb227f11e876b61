/** The deadlock detector of the Planificador console, proved against the wait-for graph. */
module Deadlock {
  import opened Locks
  import opened WaitGraph

  ghost predicate Distinct(esis: seq<int>) {
    forall i, j :: 0 <= i < j < |esis| ==> esis[i] != esis[j]
  }

  /** The edge out of an ESI: the owner of the key of its first request. */
  function WaitsFor(locks: seq<Lock>, waiters: seq<Waiter>, e: int): Option<int> {
    var i := RequestIndex(waiters, e);
    if i < 0 then None
    else
      var j := LockIndex(locks, waiters[i].key);
      if j < 0 then None else Some(locks[j].esi)
  }

  /** The wait-for graph of the ESIs in the system. */
  function GraphOf(locks: seq<Lock>, waiters: seq<Waiter>, esis: seq<int>): Graph {
    map e | e in esis && WaitsFor(locks, waiters, e).Some? && WaitsFor(locks, waiters, e).value in esis
      :: WaitsFor(locks, waiters, e).value
  }

  /** No id and no lock key repeats, and who waits is in the system. */
  ghost predicate Sound(locks: seq<Lock>, waiters: seq<Waiter>, esis: seq<int>) {
    && Distinct(esis)
    && UniqueLocks(locks)
    && forall w :: w in waiters ==> w.esi in esis
  }

  /** An ESI whose request leads out of the system: to a key of the system itself, or to one
      that has just been released. */
  predicate Dangling(locks: seq<Lock>, waiters: seq<Waiter>, esis: seq<int>, e: int) {
    e in esis && Waits(waiters, e) && e !in GraphOf(locks, waiters, esis)
  }

  /** The walk from an ESI gets to such a request. */
  ghost predicate Dangles(locks: seq<Lock>, waiters: seq<Waiter>, esis: seq<int>, e: int) {
    exists x :: Reaches(GraphOf(locks, waiters, esis), e, x) && Dangling(locks, waiters, esis, x)
  }

  /** No ESI that holds a key leads into a cycle it is not on. */
  ghost predicate NoTails(locks: seq<Lock>, waiters: seq<Waiter>, esis: seq<int>) {
    var g := GraphOf(locks, waiters, esis);
    forall e :: e in esis && Holds(locks, e) && LeadsToCycle(g, e) ==> OnCycle(g, e)
  }

  /** The walks that the detector may start, from an ESI that holds a key and waits for another
      ESI, all stop if and only if no such ESI leads into a cycle it is not on. */
  lemma AllWalksStopIff(locks: seq<Lock>, waiters: seq<Waiter>, esis: seq<int>)
    requires Sound(locks, waiters, esis)
    ensures var g := GraphOf(locks, waiters, esis);
            NoTails(locks, waiters, esis)
            <==> forall e :: e in g && Holds(locks, e) ==> WalkStops(g, e)
  {
    var g := GraphOf(locks, waiters, esis);
    forall e | e in esis && Holds(locks, e)
      ensures (LeadsToCycle(g, e) ==> OnCycle(g, e)) <==> (e in g ==> WalkStops(g, e))
    {
      if e in g {
        WalkStopsIff(g, e);
      } else {
        assert Walk(g, e, 0) == Some(e) && Walk(g, e, 1) == None;
        if LeadsToCycle(g, e) {
          var x :| Reaches(g, e, x) && OnCycle(g, x);
          ReachedEnds(g, e, x);
          EndedOffCycle(g, x);
        }
      }
    }
  }

  ghost predicate WalkStops(g: Graph, e: int) {
    exists n: nat :: Stops(g, e, n)
  }

  const PAIR_LOCKS: seq<Lock> := [Lock("a", 1), Lock("b", 2), Lock("c", 3)]
  const PAIR_WAITERS: seq<Waiter> := [Waiter(1, "b"), Waiter(2, "a"), Waiter(3, "a")]

  /** Two ESIs that wait for each other, and a third, which holds a key nobody wants and waits
      for one of them: the walk from the third never stops. */
  lemma TailNeverStops()
    ensures Sound(PAIR_LOCKS, PAIR_WAITERS, [1, 2, 3]) && Holds(PAIR_LOCKS, 3)
    ensures !WalkStops(GraphOf(PAIR_LOCKS, PAIR_WAITERS, [1, 2, 3]), 3)
  {
    TailGraph();
    assert PAIR_LOCKS[2] == Lock("c", 3);
    forall n: nat
      ensures !Stops(GraphOf(PAIR_LOCKS, PAIR_WAITERS, [1, 2, 3]), 3, n)
    {
      RoundTheTail(GraphOf(PAIR_LOCKS, PAIR_WAITERS, [1, 2, 3]), n);
    }
  }

  lemma TailGraph()
    ensures Sound(PAIR_LOCKS, PAIR_WAITERS, [1, 2, 3])
    ensures GraphOf(PAIR_LOCKS, PAIR_WAITERS, [1, 2, 3]) == map[1 := 2, 2 := 1, 3 := 1]
  {
    TailSound();
    TailRequests();
    TailLocks();
    hide RequestIndex;
    hide LockIndex;
    hide Sound;
    assert GraphOf(PAIR_LOCKS, PAIR_WAITERS, [1, 2, 3]) == map[1 := 2, 2 := 1, 3 := 1];
  }

  lemma TailSound()
    ensures Sound(PAIR_LOCKS, PAIR_WAITERS, [1, 2, 3])
  {
  }

  lemma TailRequests()
    ensures RequestIndex(PAIR_WAITERS, 1) == 0 && RequestIndex(PAIR_WAITERS, 2) == 1
    ensures RequestIndex(PAIR_WAITERS, 3) == 2
  {
    assert PAIR_WAITERS[0].esi == 1 && PAIR_WAITERS[1].esi == 2 && PAIR_WAITERS[2].esi == 3;
  }

  lemma TailLocks()
    ensures LockIndex(PAIR_LOCKS, "a") == 0 && LockIndex(PAIR_LOCKS, "b") == 1
  {
    assert PAIR_LOCKS[0].key == "a" && PAIR_LOCKS[1].key == "b";
  }

  lemma {:induction false} RoundTheTail(g: Graph, n: nat)
    requires g == map[1 := 2, 2 := 1, 3 := 1]
    ensures Walk(g, 3, n) == Some(if n == 0 then 3 else if n % 2 == 1 then 1 else 2)
    ensures n >= 1 ==> !Stops(g, 3, n)
  {
    if n > 0 {
      RoundTheTail(g, n - 1);
    }
  }

  /** What is in the graph. */
  lemma Edge(locks: seq<Lock>, waiters: seq<Waiter>, esis: seq<int>, e: int)
    requires Sound(locks, waiters, esis) && e in esis
    ensures var g := GraphOf(locks, waiters, esis);
            && (e in g ==> Waits(waiters, e) && g[e] in esis)
            && (e in g ==> Owns(locks, g[e], waiters[RequestIndex(waiters, e)].key))
            && (Waits(waiters, e) ==>
                  var j := LockIndex(locks, waiters[RequestIndex(waiters, e)].key);
                  (e in g <==> j >= 0 && locks[j].esi in esis) && (e in g ==> g[e] == locks[j].esi))
  {
    var i := RequestIndex(waiters, e);
    if i >= 0 {
      assert Waits(waiters, e);
      var j := LockIndex(locks, waiters[i].key);
      assert j >= 0 ==> locks[j] == Lock(waiters[i].key, locks[j].esi);
    }
  }

  lemma CycleHolds(locks: seq<Lock>, waiters: seq<Waiter>, esis: seq<int>, e: int)
    requires Sound(locks, waiters, esis) && OnCycle(GraphOf(locks, waiters, esis), e)
    ensures Holds(locks, e) && e in esis
  {
    var g := GraphOf(locks, waiters, esis);
    CycleNeighbours(g, e);
    var x :| x in g && g[x] == e;
    Edge(locks, waiters, esis, x);
    var k := waiters[RequestIndex(waiters, x)].key;
    var j :| 0 <= j < |locks| && locks[j] == Lock(k, e);
  }

  ghost predicate NumberUsed(state: map<int, int>, i: int) {
    exists e :: e in state && state[e] == i
  }

  /** Where the numbering stands: -1 not analysed, 0 off every cycle, 1..n the cycle's number. */
  ghost predicate Numbered(g: Graph, esis: seq<int>, state: map<int, int>, n: nat) {
    && (forall e :: e in state <==> e in esis)
    && (forall e :: e in state ==> -1 <= state[e] <= n)
    && (forall e :: e in state && state[e] == 0 ==> !OnCycle(g, e))
    && (forall e :: e in state && state[e] > 0 ==> OnCycle(g, e))
    && (forall a, b :: a in state && b in state && state[a] > 0 && SameCycle(g, a, b) ==> state[b] == state[a])
    && (forall a, b :: a in state && b in state && state[a] > 0 && state[b] == state[a] ==> SameCycle(g, a, b))
    && (forall i :: 1 <= i <= n ==> NumberUsed(state, i))
  }

  function Override(state: map<int, int>, chain: seq<int>, v: int): (r: map<int, int>)
    ensures r.Keys == state.Keys
  {
    map e | e in state :: if e in chain then v else state[e]
  }

  /** A chain whose end waits for nobody is numbered 0. */
  lemma NumberZero(g: Graph, esis: seq<int>, state: map<int, int>, n: nat, chain: seq<int>)
    requires Numbered(g, esis, state, n)
    requires forall e :: e in chain ==> Ends(g, e)
    ensures Numbered(g, esis, Override(state, chain, 0), n)
  {
    var r := Override(state, chain, 0);
    forall e | e in chain
      ensures !OnCycle(g, e)
    {
      EndedOffCycle(g, e);
    }
    assert forall e :: e in r && r[e] > 0 ==> state[e] == r[e] && e !in chain;
    forall a, b | a in r && b in r && r[a] > 0 && SameCycle(g, a, b)
      ensures r[b] == r[a]
    {
      CycleReachesBack(g, a, b);
    }
    forall i | 1 <= i <= n
      ensures NumberUsed(r, i)
    {
      assert NumberUsed(state, i);
      var e :| e in state && state[e] == i;
      assert r[e] == i;
    }
  }

  /** A chain that goes once around a cycle not numbered before gets the next number. */
  lemma NumberCycle(g: Graph, esis: seq<int>, state: map<int, int>, n: nat, chain: seq<int>, start: int)
    requires Numbered(g, esis, state, n)
    requires start in state && state[start] == -1 && OnCycle(g, start)
    requires forall e :: e in chain <==> SameCycle(g, start, e)
    ensures Numbered(g, esis, Override(state, chain, n + 1), n + 1)
  {
    var r := Override(state, chain, n + 1);
    assert Walk(g, start, 0) == Some(start);
    assert start in chain && r[start] == n + 1;
    forall e | e in chain
      ensures OnCycle(g, e) && (e in state ==> state[e] <= 0)
    {
      CycleReachesBack(g, start, e);
    }
    forall a, b | a in r && b in r && r[a] > 0
      ensures SameCycle(g, a, b) <==> r[b] == r[a]
    {
      SamePair(g, state, n, chain, start, a, b);
    }
    forall i | 1 <= i <= n + 1
      ensures NumberUsed(r, i)
    {
      if i <= n {
        assert NumberUsed(state, i);
        var e :| e in state && state[e] == i;
        assert r[e] == i;
      }
    }
  }

  lemma SamePair(g: Graph, state: map<int, int>, n: nat, chain: seq<int>, start: int, a: int, b: int)
    requires a in state && b in state && (a in chain || state[a] > 0)
    requires forall e :: e in state ==> state[e] <= n
    requires forall e :: e in chain <==> SameCycle(g, start, e)
    requires forall e :: e in chain && e in state ==> state[e] <= 0
    requires forall x, y :: x in state && y in state && state[x] > 0 ==> (SameCycle(g, x, y) <==> state[y] == state[x])
    requires forall x :: x in state && state[x] > 0 ==> OnCycle(g, x)
    ensures SameCycle(g, a, b) <==> Override(state, chain, n + 1)[b] == Override(state, chain, n + 1)[a]
  {
    if a in chain {
      CycleReachesBack(g, start, a);
      if SameCycle(g, a, b) {
        ReachesTransitive(g, start, a, b);
      } else if b in chain {
        ReachesTransitive(g, a, start, b);
      }
    } else if b in chain && SameCycle(g, a, b) {
      CycleReachesBack(g, a, b);
      ReachesTransitive(g, start, b, a);
    }
  }

  /** What one walk of the detector collected: the ESIs at its first `n` + 1 places. */
  ghost predicate ChainOf(g: Graph, start: int, chain: seq<int>, n: nat) {
    |chain| == n + 1 && forall i :: 0 <= i <= n ==> Walk(g, start, i) == Some(chain[i])
  }

  lemma ChainEnds(g: Graph, start: int, chain: seq<int>, n: nat)
    requires ChainOf(g, start, chain, n) && Walk(g, start, n + 1) == None
    ensures forall e :: e in chain ==> Ends(g, e)
  {
    assert Ends(g, start);
    forall e | e in chain
      ensures Ends(g, e)
    {
      var i :| 0 <= i < |chain| && chain[i] == e;
      assert Reaches(g, start, e);
      ReachedEnds(g, start, e);
    }
  }

  lemma ChainIsCycle(g: Graph, start: int, chain: seq<int>, n: nat)
    requires ChainOf(g, start, chain, n) && Walk(g, start, n + 1) == Some(start)
    ensures OnCycle(g, start)
    ensures forall e :: e in chain <==> SameCycle(g, start, e)
  {
    forall e | e in chain
      ensures SameCycle(g, start, e)
    {
      var i :| 0 <= i < |chain| && chain[i] == e;
      assert Walk(g, start, i) == Some(e);
    }
    forall e | SameCycle(g, start, e)
      ensures e in chain
    {
      var m: nat :| Walk(g, start, m) == Some(e);
      BackIntoChain(g, start, chain, n, m, e);
    }
  }

  lemma {:induction false} BackIntoChain(g: Graph, start: int, chain: seq<int>, n: nat, m: nat, e: int)
    requires ChainOf(g, start, chain, n) && Walk(g, start, n + 1) == Some(start)
    requires Walk(g, start, m) == Some(e)
    ensures e in chain
  {
    if m <= n {
      assert chain[m] == e;
    } else {
      WalkAdds(g, start, n + 1, m - n - 1);
      BackIntoChain(g, start, chain, n, m - n - 1, e);
    }
  }

  /** A number of steps by which the walk from `start` has ended or come back. */
  lemma Bound(g: Graph, start: int) returns (bound: nat)
    requires start in g && (OnCycle(g, start) || !LeadsToCycle(g, start))
    ensures Stops(g, start, bound)
  {
    WalkStopsIff(g, start);
    bound :| Stops(g, start, bound);
  }

  /** How a walk ends: at an ESI that waits for nothing, back at the start, or with a request
      that leads out of the system, where the source follows a null reference. */
  datatype End = Free | Deadlocked | Crashed

  ghost predicate WalkEnded(locks: seq<Lock>, waiters: seq<Waiter>, esis: seq<int>, start: int, chain: seq<int>,
                            n: nat, end: End) {
    var g := GraphOf(locks, waiters, esis);
    && ChainOf(g, start, chain, n)
    && match end
       case Free => Walk(g, start, n + 1) == None && !Dangling(locks, waiters, esis, chain[n])
       case Deadlocked => Walk(g, start, n + 1) == Some(start)
       case Crashed => false
  }

  /** The walk of the detector from one ESI. */
  method Follow(locks: seq<Lock>, waiters: seq<Waiter>, esis: seq<int>, start: int) returns (chain: seq<int>, end: End)
    requires Sound(locks, waiters, esis) && start in esis && Waits(waiters, start)
    requires var g := GraphOf(locks, waiters, esis);
             OnCycle(g, start) || !LeadsToCycle(g, start)
    ensures end == Crashed ==> Dangles(locks, waiters, esis, start)
    ensures end != Crashed ==> exists n: nat :: WalkEnded(locks, waiters, esis, start, chain, n, end)
  {
    ghost var g := GraphOf(locks, waiters, esis);
    Edge(locks, waiters, esis, start);
    FirstStep(locks, waiters, esis, start);
    ghost var bound: nat := 1;
    if start in g {
      bound := Bound(g, start);
    }
    var owned := LockIndex(locks, waiters[RequestIndex(waiters, start)].key);
    if owned < 0 {
      return [start], Crashed;
    }
    var current := locks[owned].esi;
    chain := [start, current];
    ghost var n := 1;
    while Waits(waiters, current) && !Owns(locks, start, waiters[RequestIndex(waiters, current)].key)
      invariant current !in esis ==> Dangles(locks, waiters, esis, start) && !Waits(waiters, current)
      invariant current in esis ==> start in g && 1 <= n <= bound && ChainOf(g, start, chain, n) && chain[n] == current
      decreases bound - n
    {
      FollowStep(locks, waiters, esis, start, current, chain, n);
      owned := LockIndex(locks, waiters[RequestIndex(waiters, current)].key);
      if owned < 0 {
        return chain, Crashed;
      }
      current := locks[owned].esi;
      chain := chain + [current];
      n := n + 1;
    }
    if current !in esis {
      return chain, Crashed;
    }
    LastPlace(locks, waiters, esis, start, current, chain, n);
    end := if Waits(waiters, current) then Deadlocked else Free;
    assert WalkEnded(locks, waiters, esis, start, chain, n, end);
  }

  lemma FirstStep(locks: seq<Lock>, waiters: seq<Waiter>, esis: seq<int>, start: int)
    requires Sound(locks, waiters, esis) && start in esis && Waits(waiters, start)
    ensures var g, j := GraphOf(locks, waiters, esis), LockIndex(locks, waiters[RequestIndex(waiters, start)].key);
            && (start !in g ==> Dangles(locks, waiters, esis, start))
            && (start in g ==> j >= 0 && ChainOf(g, start, [start, locks[j].esi], 1))
            && (start !in g ==> j < 0 || locks[j].esi !in esis)
    ensures forall e :: Waits(waiters, e) ==> e in esis
  {
    var g := GraphOf(locks, waiters, esis);
    Edge(locks, waiters, esis, start);
    assert Walk(g, start, 0) == Some(start) && Walk(g, start, 1) == Next(g, start);
    if start !in g {
      assert Reaches(g, start, start) && Dangling(locks, waiters, esis, start);
    }
    forall e | Waits(waiters, e)
      ensures e in esis
    {
      var i :| 0 <= i < |waiters| && waiters[i].esi == e;
      assert waiters[i] in waiters;
    }
  }

  /** A turn of the walk: one edge more, and the walk had not stopped; or the end of the system. */
  lemma FollowStep(locks: seq<Lock>, waiters: seq<Waiter>, esis: seq<int>, start: int, current: int, chain: seq<int>,
                   n: nat)
    requires Sound(locks, waiters, esis) && current in esis && Waits(waiters, current)
    requires ChainOf(GraphOf(locks, waiters, esis), start, chain, n) && chain[n] == current && n >= 1
    requires !Owns(locks, start, waiters[RequestIndex(waiters, current)].key)
    ensures var g, j := GraphOf(locks, waiters, esis), LockIndex(locks, waiters[RequestIndex(waiters, current)].key);
            if current in g then
              j >= 0 && locks[j].esi in esis && ChainOf(g, start, chain + [locks[j].esi], n + 1) && !Stops(g, start, n)
            else
              Dangles(locks, waiters, esis, start) && (j < 0 || locks[j].esi !in esis)
  {
    hide RequestIndex;
    hide LockIndex;
    hide GraphOf;
    hide Sound;
    var g := GraphOf(locks, waiters, esis);
    Edge(locks, waiters, esis, current);
    assert Walk(g, start, n) == Some(current) && Walk(g, start, n + 1) == Next(g, current);
    if current in g {
      OwnerIsNext(locks, waiters, esis, current, start);
    } else {
      assert Reaches(g, start, current) && Dangling(locks, waiters, esis, current);
    }
  }

  /** Where the walk stops for good, inside the system. */
  lemma LastPlace(locks: seq<Lock>, waiters: seq<Waiter>, esis: seq<int>, start: int, current: int, chain: seq<int>,
                  n: nat)
    requires Sound(locks, waiters, esis) && current in esis && start in esis
    requires ChainOf(GraphOf(locks, waiters, esis), start, chain, n) && chain[n] == current
    requires Waits(waiters, current) ==> Owns(locks, start, waiters[RequestIndex(waiters, current)].key)
    ensures WalkEnded(locks, waiters, esis, start, chain, n, if Waits(waiters, current) then Deadlocked else Free)
  {
    var g := GraphOf(locks, waiters, esis);
    Edge(locks, waiters, esis, current);
    assert Walk(g, start, n) == Some(current) && Walk(g, start, n + 1) == Next(g, current);
    if Waits(waiters, current) {
      OwnedInside(locks, waiters, esis, current, start);
      OwnerIsNext(locks, waiters, esis, current, start);
    }
  }

  lemma OwnedInside(locks: seq<Lock>, waiters: seq<Waiter>, esis: seq<int>, e: int, owner: int)
    requires Sound(locks, waiters, esis) && e in esis && owner in esis && Waits(waiters, e)
    requires Owns(locks, owner, waiters[RequestIndex(waiters, e)].key)
    ensures e in GraphOf(locks, waiters, esis)
  {
    Edge(locks, waiters, esis, e);
    var k := waiters[RequestIndex(waiters, e)].key;
    var j :| 0 <= j < |locks| && locks[j] == Lock(k, owner);
    assert LockIndex(locks, k) == j;
  }

  /** The test for the first ESI's key is the test for an edge back to it. */
  lemma OwnerIsNext(locks: seq<Lock>, waiters: seq<Waiter>, esis: seq<int>, e: int, first: int)
    requires Sound(locks, waiters, esis) && e in GraphOf(locks, waiters, esis)
    ensures Waits(waiters, e)
    ensures Owns(locks, first, waiters[RequestIndex(waiters, e)].key) <==> GraphOf(locks, waiters, esis)[e] == first
  {
    Edge(locks, waiters, esis, e);
    var k := waiters[RequestIndex(waiters, e)].key;
    if Owns(locks, first, k) {
      var j :| 0 <= j < |locks| && locks[j] == Lock(k, first);
    }
  }

  /** Whoever is in a chain that ended well does not get to a request that leads out. */
  lemma ChainSafe(locks: seq<Lock>, waiters: seq<Waiter>, esis: seq<int>, start: int, chain: seq<int>, n: nat, end: End)
    requires WalkEnded(locks, waiters, esis, start, chain, n, end)
    ensures forall e :: e in chain ==> !Dangles(locks, waiters, esis, e)
  {
    var g := GraphOf(locks, waiters, esis);
    forall e | e in chain
      ensures !Dangles(locks, waiters, esis, e)
    {
      var i :| 0 <= i < |chain| && chain[i] == e;
      assert Reaches(g, start, e);
      forall x | Reaches(g, e, x)
        ensures !Dangling(locks, waiters, esis, x)
      {
        ReachesTransitive(g, start, e, x);
        ReachedSafe(locks, waiters, esis, start, chain, n, end, x);
      }
    }
  }

  lemma ReachedSafe(locks: seq<Lock>, waiters: seq<Waiter>, esis: seq<int>, start: int, chain: seq<int>, n: nat,
                    end: End, x: int)
    requires WalkEnded(locks, waiters, esis, start, chain, n, end) && Reaches(GraphOf(locks, waiters, esis), start, x)
    ensures !Dangling(locks, waiters, esis, x)
  {
    var g := GraphOf(locks, waiters, esis);
    var m: nat :| Walk(g, start, m) == Some(x);
    assert Walk(g, start, m + 1) == Next(g, x);
    EndsOnce(g, start, m, n);
    OffCycle(g, start);
    if end == Deadlocked {
      assert OnCycle(g, start);
    }
    assert Walk(g, start, m + 1) == None ==> Ends(g, start);
  }

  lemma EndsOnce(g: Graph, e: int, m: nat, n: nat)
    ensures Walk(g, e, m + 1) == None && Walk(g, e, n) != None ==> n <= m
    ensures Walk(g, e, n + 1) == None && Walk(g, e, m) != None ==> m <= n
  {
    StaysEnded(g, e, m + 1, n);
    StaysEnded(g, e, n + 1, m);
  }

  lemma StaysEnded(g: Graph, e: int, m: nat, n: nat)
    ensures Walk(g, e, m) == None && m <= n ==> Walk(g, e, n) == None
  {
    if Walk(g, e, m) == None && m <= n {
      WalkStaysEnded(g, e, m, n);
    }
  }

  lemma OffCycle(g: Graph, e: int)
    ensures !(Ends(g, e) && OnCycle(g, e))
  {
    if Ends(g, e) {
      EndedOffCycle(g, e);
    }
  }

  /** The ESIs still to analyse. */
  function Pending(state: map<int, int>): set<int> {
    set e | e in state && state[e] == -1
  }

  /** `detect_and_show_all_deadlocks`. It crashes exactly when the walk from an ESI that holds a
      key gets to a request that leads out of the system. Otherwise two ESIs get the same
      positive number exactly when they lie on one cycle, and 0 exactly when they lie on none;
      the numbers are 1..n. */
  method DetectDeadlocks(locks: seq<Lock>, waiters: seq<Waiter>, esis: seq<int>)
    returns (state: map<int, int>, deadlocks: nat, crashed: bool)
    requires Sound(locks, waiters, esis) && NoTails(locks, waiters, esis)
    ensures crashed <==> exists e :: e in esis && Holds(locks, e) && Dangles(locks, waiters, esis, e)
    ensures !crashed ==>
              var g := GraphOf(locks, waiters, esis);
              && (forall e :: e in state <==> e in esis)
              && (forall e :: e in esis ==> 0 <= state[e] <= deadlocks && (state[e] > 0 <==> OnCycle(g, e)))
              && (forall a, b :: a in esis && b in esis && state[a] > 0 ==>
                    (state[a] == state[b] <==> SameCycle(g, a, b)))
              && (forall i :: 1 <= i <= deadlocks ==> NumberUsed(state, i))
  {
    ghost var g := GraphOf(locks, waiters, esis);
    state := map e | e in esis :: if Holds(locks, e) then -1 else 0;
    deadlocks, crashed := 0, false;
    forall e | e in esis && OnCycle(g, e)
      ensures Holds(locks, e)
    {
      CycleHolds(locks, waiters, esis, e);
    }
    while !crashed && exists i :: 0 <= i < |esis| && esis[i] in state && state[esis[i]] == -1
      invariant Numbered(g, esis, state, deadlocks)
      invariant forall e :: e in state && state[e] == -1 ==> Holds(locks, e)
      invariant forall e :: e in state && state[e] != -1 && Holds(locks, e) ==> !Dangles(locks, waiters, esis, e)
      invariant crashed ==> exists e :: e in esis && Holds(locks, e) && Dangles(locks, waiters, esis, e)
      decreases Pending(state), if crashed then 0 else 1
    {
      var start := FirstPending(esis, state);
      ghost var before := state;
      state, deadlocks, crashed := NumberFrom(locks, waiters, esis, state, deadlocks, start);
      if !crashed {
        FewerPending(before, state, start);
      }
    }
  }

  lemma FewerPending(before: map<int, int>, after: map<int, int>, start: int)
    requires before.Keys == after.Keys && start in before && before[start] == -1 && after[start] != -1
    requires forall e :: e in after && after[e] == -1 ==> before[e] == -1
    ensures Pending(after) < Pending(before)
  {
    forall e | e in Pending(after)
      ensures e in Pending(before)
    {
      assert e in after.Keys;
    }
    assert start in Pending(before) && start !in Pending(after);
  }

  /** One turn of the detector: the walk from a pending ESI, and its number for the walk. */
  method NumberFrom(locks: seq<Lock>, waiters: seq<Waiter>, esis: seq<int>, state: map<int, int>, deadlocks: nat,
                    start: int)
    returns (state': map<int, int>, deadlocks': nat, crashed: bool)
    requires Sound(locks, waiters, esis) && NoTails(locks, waiters, esis)
    requires Numbered(GraphOf(locks, waiters, esis), esis, state, deadlocks)
    requires start in esis && start in state && state[start] == -1 && Holds(locks, start)
    ensures Numbered(GraphOf(locks, waiters, esis), esis, state', deadlocks')
    ensures if crashed then state' == state && Dangles(locks, waiters, esis, start)
            else state'.Keys == state.Keys && state'[start] != -1
    ensures forall e :: e in state' && state'[e] == -1 ==> state[e] == -1
    ensures forall e :: e in state' && state'[e] != -1 && state[e] == -1 ==> !Dangles(locks, waiters, esis, e)
  {
    ghost var g := GraphOf(locks, waiters, esis);
    if !Waits(waiters, start) {
      Edge(locks, waiters, esis, start);
      assert Walk(g, start, 0) == Some(start) && Walk(g, start, 1) == None;
      NumberZero(g, esis, state, deadlocks, [start]);
      assert WalkEnded(locks, waiters, esis, start, [start], 0, Free);
      ChainSafe(locks, waiters, esis, start, [start], 0, Free);
      return Override(state, [start], 0), deadlocks, false;
    }
    EndsOrCycles(g, start);
    var chain, end := Follow(locks, waiters, esis, start);
    if end == Crashed {
      return state, deadlocks, true;
    }
    ghost var n: nat :| WalkEnded(locks, waiters, esis, start, chain, n, end);
    ChainSafe(locks, waiters, esis, start, chain, n, end);
    StartInChain(g, start, chain, n);
    if end == Free {
      ChainEnds(g, start, chain, n);
      NumberZero(g, esis, state, deadlocks, chain);
      return Override(state, chain, 0), deadlocks, false;
    }
    ChainIsCycle(g, start, chain, n);
    NumberCycle(g, esis, state, deadlocks, chain, start);
    return Override(state, chain, deadlocks + 1), deadlocks + 1, false;
  }

  lemma StartInChain(g: Graph, start: int, chain: seq<int>, n: nat)
    requires ChainOf(g, start, chain, n)
    ensures start in chain
  {
    assert Walk(g, start, 0) == Some(start) && chain[0] == start;
  }

  method FirstPending(esis: seq<int>, state: map<int, int>) returns (e: int)
    requires exists i :: 0 <= i < |esis| && esis[i] in state && state[esis[i]] == -1
    ensures e in esis && e in state && state[e] == -1
  {
    var i := 0;
    while !(esis[i] in state && state[esis[i]] == -1)
      invariant 0 <= i < |esis| && forall j :: 0 <= j < i ==> !(esis[j] in state && state[esis[j]] == -1)
      decreases |esis| - i
    {
      i := i + 1;
    }
    e := esis[i];
  }

  /** ESI 1 has the key "b" and waits for "a", which is locked by configuration: the detector
      crashes. */
  lemma SystemKeyCrashes()
    ensures var locks, waiters := [Lock("a", SYSTEM), Lock("b", 1)], [Waiter(1, "a")];
            && Sound(locks, waiters, [1]) && NoTails(locks, waiters, [1])
            && Holds(locks, 1) && Dangles(locks, waiters, [1], 1)
  {
    var locks, waiters := [Lock("a", SYSTEM), Lock("b", 1)], [Waiter(1, "a")];
    var g := GraphOf(locks, waiters, [1]);
    assert waiters[0].esi == 1 && locks[0].key == "a" && locks[1].esi == 1;
    assert RequestIndex(waiters, 1) == 0 && LockIndex(locks, "a") == 0;
    assert g == map[];
    assert Walk(g, 1, 0) == Some(1);
    assert Reaches(g, 1, 1) && Dangling(locks, waiters, [1], 1);
    forall x
      ensures !OnCycle(g, x)
    {
      if OnCycle(g, x) {
        CycleNeighbours(g, x);
      }
    }
  }
}
