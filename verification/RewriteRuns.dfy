/** Runs of SET requests of any keys and sizes, with compactions in between, under CIRC and LRU:
    exactly when the tables agree after each of them. */
module RewriteRuns {
  import opened EntryTable
  import opened Storage
  import opened Slots
  import opened Agreement
  import opened Policies
  import opened SetRuns
  import opened SetSpecs
  import opened InstanceRuns
  import opened Rewrites
  import opened Regrowth

  /** The condition for a request, by what the SET needs: no eviction, one that the atomic values
      are enough for, or one that they are too few for. */
  ghost predicate Fits(s: State, xs: seq<Call>) {
    s.arena.Valid() && xs != [] &&
    match xs[0]
    case CompactCall(_) => true
    case SetCall(k, v, _, _, _, _, _, _) =>
      var a, n, last := s.arena, Blocks(|v|, s.arena.es), xs[|xs| - 1];
      |v| >= 1 &&
      if !Evicts(s, k, v) then Attempt(a, k, v).0 == StatusOk ==> StaysPut(a.table, a.es, a.total, k, |v|)
      else if n <= a.Left() + AtomicCount(a.table, a.es) then EvictionFits(s, xs[0])
      else last.SetCall? && forall q :: q in last.picked ==> q >= a.total - n
  }

  /** One request, whatever it asks for, from agreeing tables. */
  lemma RequestFitsIff(policy: Policy, s: State, xs: seq<Call>)
    requires Agreeing(s) && OneRequest(xs) && CallRun(policy, s, xs) && (xs[0].SetCall? ==> xs[0].key !in NO_KEYS)
    requires policy == Circular || policy == LeastRecentlyUsed
    ensures Agreeing(Final(s, xs)) <==> Fits(s, xs)
  {
    hide CallRun;
    hide CallStep;
    hide StaysPut;
    hide EvictionFits;
    hide Attempt;
    if xs[0].CompactCall? {
      FirstCall(policy, s, xs);
      CompactionAgrees(policy, s, xs[0]);
    } else {
      FirstOfRequest(policy, s, xs);
      if !Evicts(s, xs[0].key, xs[0].value) {
        RewriteAgreesIff(policy, s, xs);
      } else if Blocks(|xs[0].value|, s.arena.es) <= s.arena.Left() + AtomicCount(s.arena.table, s.arena.es) {
        EvictingAgreesIff(policy, s, xs);
      } else {
        TooFewAgreesIff(policy, s, xs);
      }
    }
  }

  lemma FirstOfRequest(policy: Policy, s: State, xs: seq<Call>)
    requires OneRequest(xs) && CallRun(policy, s, xs) && xs[0].SetCall?
    ensures |xs[0].value| >= 1
  {
    hide CallRun;
    hide CallStep;
    if |xs| == 1 {
      FirstCall(policy, s, xs);
    } else {
      ThreeCalls(policy, s, xs);
    }
    CallValue(policy, s, xs[0]);
  }

  /** A run of requests on ordinary keys. */
  ghost predicate Asked(policy: Policy, s: State, qs: seq<seq<Call>>)
    decreases |qs|
  {
    qs == [] ||
    var front, xs := qs[..|qs| - 1], qs[|qs| - 1];
    && Asked(policy, s, front) && OneRequest(xs) && CallRun(policy, Final(s, Flat(front)), xs)
    && (xs[0].SetCall? ==> xs[0].key !in NO_KEYS)
  }

  /** The tables agree at the beginning and after each request. */
  ghost predicate AgreeThroughout(s: State, qs: seq<seq<Call>>)
    decreases |qs|
  {
    Agreeing(Final(s, Flat(qs))) && (qs == [] || AgreeThroughout(s, qs[..|qs| - 1]))
  }

  ghost predicate AllFit(s: State, qs: seq<seq<Call>>)
    decreases |qs|
  {
    qs == [] || (AllFit(s, qs[..|qs| - 1]) && Fits(Final(s, Flat(qs[..|qs| - 1])), qs[|qs| - 1]))
  }

  lemma FinalJoined(s: State, xs: seq<Call>, more: seq<Call>)
    requires more != []
    ensures Final(s, xs + more) == Final(Final(s, xs), more)
  {
  }

  /** Over any run, with keys of any age and values of any size: the tables agree throughout if
      and only if every request meets the condition in the state that it finds. */
  lemma {:induction false} RunFitsIff(policy: Policy, s: State, qs: seq<seq<Call>>)
    requires Agreeing(s) && Asked(policy, s, qs) && (policy == Circular || policy == LeastRecentlyUsed)
    ensures AgreeThroughout(s, qs) <==> AllFit(s, qs)
    decreases |qs|
  {
    hide Fits;
    hide CallRun;
    hide OneRequest;
    if qs != [] {
      var front, xs := qs[..|qs| - 1], qs[|qs| - 1];
      RunFitsIff(policy, s, front);
      SomeCall(xs);
      FinalJoined(s, Flat(front), xs);
      if Agreeing(Final(s, Flat(front))) {
        RequestFitsIff(policy, Final(s, Flat(front)), xs);
      }
    }
  }

  lemma SomeCall(xs: seq<Call>)
    requires OneRequest(xs)
    ensures xs != []
  {
  }
}
