/** Runs of an Instancia: any sequence of calls of `instance_set` and compactions refines the
    run of a plain map, and whole requests keep the two tables in agreement. */
module InstanceRuns {
  import opened EntryTable
  import opened Storage
  import opened Compaction
  import opened Slots
  import opened Agreement
  import opened Policies
  import opened SetRuns
  import opened SetSpecs

  /** One call: `instance_set` with the keys replaced before it and what came of it, or
      `compactation_compact`. */
  datatype Call =
    | SetCall(key: Key, value: Value, given: seq<Key>, st: Status, after: State,
              replaced: seq<Key>, picked: seq<nat>, order: seq<nat>)
    | CompactCall(after: State)

  ghost predicate CallStep(policy: Policy, before: State, x: Call) {
    && before.arena.Valid()
    && match x
       case SetCall(k, v, given, st, after, replaced, picked, order) =>
         |v| >= 1 && SetSpec(policy, before, k, v, given, st, after, replaced, picked, order)
       case CompactCall(after) =>
         && after.arena == Compacted(before.arena) && after.pointer == before.pointer
         && after.slots == CompactedSlots(before.arena.table, before.arena.es, before.slots, |before.arena.table|)
  }

  function Final(s: State, xs: seq<Call>): State {
    if xs == [] then s else xs[|xs| - 1].after
  }

  ghost predicate CallRun(policy: Policy, s: State, xs: seq<Call>)
    decreases |xs|
  {
    xs == [] || (CallRun(policy, s, xs[..|xs| - 1]) && CallStep(policy, Final(s, xs[..|xs| - 1]), xs[|xs| - 1]))
  }

  // ----- refinement of the map -----

  /** The keys that a call drops before it places its value. */
  function Dropped(before: State, x: Call): seq<Key>
    requires x.SetCall?
  {
    var a := before.arena;
    if a.es >= 1 && DiffEntries(a.table, a.es, x.key, |x.value|) > a.Left() then x.replaced else []
  }

  /** The call as a request on table and bytes; a refusal is none. */
  function StepRequest(before: State, x: Call): seq<Request> {
    match x
    case CompactCall(_) => [CompactRequest]
    case SetCall(k, v, _, _, after, _, _, _) =>
      if after.arena == before.arena then [] else [SetRequest(k, v, Dropped(before, x))]
  }

  /** A call of `instance_set` changes nothing, refusing, or is one attempt on the table
      without the dropped keys, with the status of that attempt. */
  lemma SpecIsServe(policy: Policy, before: State, x: Call)
    requires x.SetCall? && CallStep(policy, before, x)
    ensures || (x.after.arena == before.arena && (x.st == StatusNoSpace || x.st == StatusError))
            || ((x.st, x.after.arena) == Attempt(Evicted(before.arena, Dropped(before, x)), x.key, x.value)
                && x.after.arena == Serve(before.arena, SetRequest(x.key, x.value, Dropped(before, x))))
  {
    assert Purge(before.arena.table, []) == before.arena.table;
  }

  function Requests(s: State, xs: seq<Call>): seq<Request>
    decreases |xs|
  {
    if xs == [] then []
    else Requests(s, xs[..|xs| - 1]) + StepRequest(Final(s, xs[..|xs| - 1]), xs[|xs| - 1])
  }

  lemma StepSound(policy: Policy, before: State, x: Call)
    requires CallStep(policy, before, x)
    ensures x.after.arena.Valid() && Legal(StepRequest(before, x))
    ensures Run(before.arena, StepRequest(before, x)) == x.after.arena
  {
    assert Run(before.arena, []) == before.arena;
    if x.CompactCall? {
      CompactionSound(before.arena);
      RunOne(before.arena, CompactRequest);
    } else {
      SpecIsServe(policy, before, x);
      if x.after.arena != before.arena {
        RunOne(before.arena, SetRequest(x.key, x.value, Dropped(before, x)));
      }
    }
  }

  lemma RunOne(a: Arena, r: Request)
    requires a.Valid() && (r.SetRequest? ==> |r.value| >= 1)
    ensures Legal([r]) && Run(a, [r]) == Serve(a, r)
  {
    assert [r][..0] == [];
  }

  lemma {:induction false} RunSound(policy: Policy, s: State, xs: seq<Call>)
    requires s.arena.Valid() && CallRun(policy, s, xs)
    ensures Final(s, xs).arena.Valid()
    decreases |xs|
  {
    if xs != [] {
      StepSound(policy, Final(s, xs[..|xs| - 1]), xs[|xs| - 1]);
    }
  }

  lemma {:induction false} RunJoined(a: Arena, rs: seq<Request>, more: seq<Request>)
    requires a.Valid() && Legal(rs) && Legal(more)
    ensures Legal(rs + more) && Run(a, rs + more) == Run(Run(a, rs), more)
    decreases |more|
  {
    hide Serve;
    if more == [] {
      assert rs + more == rs;
    } else {
      RunJoined(a, rs, more[..|more| - 1]);
      assert (rs + more)[..|rs + more| - 1] == rs + more[..|more| - 1];
    }
  }

  /** The run of the calls is the run of their requests. */
  lemma {:induction false} CallsAreRequests(policy: Policy, s: State, xs: seq<Call>)
    requires s.arena.Valid() && CallRun(policy, s, xs)
    ensures Legal(Requests(s, xs)) && Run(s.arena, Requests(s, xs)) == Final(s, xs).arena
    decreases |xs|
  {
    if xs != [] {
      var front, x := xs[..|xs| - 1], xs[|xs| - 1];
      CallsAreRequests(policy, s, front);
      StepSound(policy, Final(s, front), x);
      RunJoined(s.arena, Requests(s, front), StepRequest(Final(s, front), x));
    }
  }

  /** Whatever calls an instance gets, in whatever order and under whatever policy, it ends in
      a sound state that stands for the map that the same calls make. */
  lemma CallsRefineMap(policy: Policy, s: State, xs: seq<Call>, m: map<Key, Value>)
    requires s.arena.Valid() && s.arena.Represents(m) && CallRun(policy, s, xs)
    ensures Final(s, xs).arena.Valid() && 0 <= Final(s, xs).arena.Left() <= s.arena.total
    ensures Legal(Requests(s, xs)) && Final(s, xs).arena.Represents(RunMap(s.arena, m, Requests(s, xs)))
  {
    RunSound(policy, s, xs);
    CallsAreRequests(policy, s, xs);
    RunRefinesMap(s.arena, m, Requests(s, xs));
  }

  // ----- agreement -----

  /** The calls of one request: a compaction; or a SET, followed, if it answers COMPACT, by a
      compaction and a second call that goes on with the replaced keys of the first. */
  ghost predicate OneRequest(xs: seq<Call>) {
    || (|xs| == 1 && xs[0].CompactCall?)
    || (|xs| == 1 && xs[0].SetCall? && xs[0].given == [] && xs[0].st != StatusCompact)
    || (|xs| == 3 && xs[0].SetCall? && xs[0].given == [] && xs[0].st == StatusCompact && xs[1].CompactCall?
        && xs[2].SetCall? && xs[2].key == xs[0].key && xs[2].value == xs[0].value && xs[2].given == xs[0].replaced)
  }

  /** A SET that the policies are made for: of an absent key, or of a live one with as many
      slots, that evicts nothing or exactly what is missing. */
  ghost predicate Regular(policy: Policy, before: State, x: Call) {
    x.SetCall? ==>
      && x.key !in NO_KEYS
      && before.arena.es >= 1
      && Suited(policy, before.arena.table, before.arena.es, before.slots, before.arena.Left(), x.key, |x.value|)
      && AbsentOrSameBlocks(before.arena.table, before.arena.es, x.key, |x.value|)
  }

  /** A compaction that somebody asks for in between. */
  lemma CompactionAgrees(policy: Policy, before: State, x: Call)
    requires Agreeing(before) && x.CompactCall? && CallStep(policy, before, x)
    ensures Agreeing(x.after)
  {
    CompactionSound(before.arena);
    CompactionTracks(before.arena.table, before.arena.es, before.arena.total, before.slots, |before.arena.table|);
    StageKeys(before.arena.table, before.arena.es, |before.arena.table|);
  }

  lemma LastCall(policy: Policy, s: State, xs: seq<Call>)
    requires xs != [] && CallRun(policy, s, xs)
    ensures CallRun(policy, s, xs[..|xs| - 1]) && CallStep(policy, Final(s, xs[..|xs| - 1]), xs[|xs| - 1])
  {
  }

  lemma FirstCall(policy: Policy, s: State, xs: seq<Call>)
    requires |xs| == 1 && CallRun(policy, s, xs)
    ensures CallStep(policy, s, xs[0])
  {
    hide CallStep;
    LastCall(policy, s, xs);
  }

  lemma ThreeCalls(policy: Policy, s: State, xs: seq<Call>)
    requires |xs| == 3 && CallRun(policy, s, xs)
    ensures CallStep(policy, s, xs[0]) && CallStep(policy, xs[0].after, xs[1]) && CallStep(policy, xs[1].after, xs[2])
  {
    hide CallStep;
    hide CallRun;
    LastCall(policy, s, xs);
    var two := xs[..2];
    LastCall(policy, s, two);
    assert two[..1] == xs[..1];
    FirstCall(policy, s, xs[..1]);
  }

  /** A SET, and if it asks for a compaction, that and the second call. */
  lemma FirstCallAgrees(policy: Policy, s: State, x: Call)
    requires Agreeing(s) && x.SetCall? && x.given == [] && CallStep(policy, s, x) && Regular(policy, s, x)
    ensures x.st == StatusOk ==> Agreeing(x.after)
    ensures x.st == StatusNoSpace ==> x.after == s
    ensures x.st == StatusCompact ==>
              && x.after.arena.Valid()
              && ReadyFor(x.after.arena, x.after.slots, x.key, Blocks(|x.value|, x.after.arena.es))
    ensures x.st in {StatusOk, StatusNoSpace, StatusCompact}
  {
    StepSound(policy, s, x);
    SpecKeepsSize(policy, s, x);
    SetAgrees(policy, s, x.key, x.value, x.st, x.after, x.replaced, x.picked, x.order);
  }

  lemma SpecKeepsSize(policy: Policy, s: State, x: Call)
    requires x.SetCall? && CallStep(policy, s, x)
    ensures x.after.arena.es == s.arena.es && x.after.arena.total == s.arena.total
  {
    SpecIsServe(policy, s, x);
  }

  lemma SecondCallAgrees(policy: Policy, s: State, x: Call, y: Call)
    requires y.SetCall? && s.arena.Valid() && ReadyFor(s.arena, s.slots, y.key, Blocks(|y.value|, s.arena.es))
    requires x.CompactCall? && CallStep(policy, s, x) && CallStep(policy, x.after, y)
    ensures y.st == StatusOk && Agreeing(y.after)
  {
    StepSound(policy, s, x);
    RetryAgrees(policy, s, x.after, y.key, y.value, y.given, y.st, y.after, y.replaced, y.picked, y.order);
  }

  /** From agreeing tables a regular request ends with agreeing tables, in OK or refused. */
  lemma RequestAgrees(policy: Policy, s: State, xs: seq<Call>)
    requires Agreeing(s) && OneRequest(xs) && CallRun(policy, s, xs) && Regular(policy, s, xs[0])
    ensures Agreeing(Final(s, xs))
    ensures xs[0].SetCall? ==> xs[|xs| - 1].SetCall?
    ensures xs[0].SetCall? && xs[|xs| - 1].st != StatusOk ==>
              xs[|xs| - 1].st == StatusNoSpace && xs[|xs| - 1].after == s
  {
    hide CallStep;
    hide CallRun;
    hide Regular;
    if |xs| == 1 {
      FirstCall(policy, s, xs);
      if xs[0].CompactCall? {
        CompactionAgrees(policy, s, xs[0]);
      } else {
        FirstCallAgrees(policy, s, xs[0]);
      }
    } else {
      ThreeCalls(policy, s, xs);
      FirstCallAgrees(policy, s, xs[0]);
      SecondCallAgrees(policy, xs[0].after, xs[1], xs[2]);
    }
  }

  /** A run of one call, and a run with one call more in front. */
  lemma OneCall(policy: Policy, s: State, x: Call)
    requires CallStep(policy, s, x)
    ensures CallRun(policy, s, [x]) && Final(s, [x]) == x.after
  {
    hide CallStep;
    assert [x][..0] == [];
  }

  lemma RetryRun(policy: Policy, s: State, x: Call, y: Call)
    requires CallStep(policy, s, x) && CallStep(policy, x.after, y)
    ensures CallRun(policy, s, [x, y]) && Final(s, [x, y]) == y.after
  {
    hide CallStep;
    OneCall(policy, x.after, y);
    CallBefore(policy, s, x, [y]);
    assert [x] + [y] == [x, y];
  }

  /** A SET of the key with the value. */
  predicate Asks(x: Call, k: Key, v: Value) {
    x.SetCall? && x.key == k && x.value == v
  }

  /** The first call of a request is refused for lack of space exactly when its value lacks more
      slots than are free or taken by atomic entries. */
  lemma NoSpaceIff(policy: Policy, before: State, x: Call)
    requires x.SetCall? && CallStep(policy, before, x)
    ensures var a := before.arena;
            x.st == StatusNoSpace
            <==> DiffEntries(a.table, a.es, x.key, |x.value|) > a.Left() + AtomicCount(a.table, a.es)
  {
    hide SlotsAfter;
    hide Chosen;
    hide PointerMoves;
  }

  /** What the first call of a request brings about, from a state that stands for the map m. */
  lemma FirstAnswer(policy: Policy, s: State, x: Call, m: map<Key, Value>)
    requires x.SetCall? && x.given == [] && CallStep(policy, s, x) && s.arena.Represents(m)
    ensures CallRun(policy, s, [x]) && Final(s, [x]) == x.after && (x.st != StatusCompact ==> OneRequest([x]))
    ensures x.st in {StatusOk, StatusCompact, StatusNoSpace, StatusError}
    ensures x.st == StatusNoSpace ==> x.after == s
    ensures x.st == StatusOk ==> x.after.arena.Represents((m - KeySet(x.replaced))[x.key := x.value])
    ensures x.st == StatusOk ==> x.after.arena.Get(x.key) == Some(x.value)
    ensures x.st == StatusError ==> x.after.arena.Represents(m - KeySet(x.replaced))
    ensures x.st == StatusCompact ==>
              x.after.arena.Represents(m - KeySet(x.replaced) - {x.key}) && !Has(x.after.arena.table, x.key)
    ensures Agreeing(s) && Regular(policy, s, x) ==>
              && (x.st == StatusNoSpace || (x.st == StatusOk && Agreeing(x.after))
                  || (x.st == StatusCompact && x.after.arena.Valid()
                      && ReadyFor(x.after.arena, x.after.slots, x.key, Blocks(|x.value|, s.arena.es))))
              && (x.st != StatusNoSpace ==>
                    |x.replaced| == if Evicts(s, x.key, x.value) then Blocks(|x.value|, s.arena.es) - s.arena.Left()
                                    else 0)
  {
    hide SetSpec;
    hide ReqEntries;
    hide ExactPolicy;
    OneCall(policy, s, x);
    FirstOutcome(policy, s, x.key, x.value, x.st, x.after, x.replaced, x.picked, x.order, m);
    if Agreeing(s) && Regular(policy, s, x) {
      SetAgrees(policy, s, x.key, x.value, x.st, x.after, x.replaced, x.picked, x.order);
    }
  }

  lemma CallBefore(policy: Policy, s: State, x: Call, xs: seq<Call>)
    requires CallStep(policy, s, x) && CallRun(policy, x.after, xs)
    ensures CallRun(policy, s, [x] + xs) && Final(s, [x] + xs) == Final(x.after, xs)
  {
    hide CallStep;
    OneCall(policy, s, x);
    CallsJoined(policy, s, [x], xs);
  }

  // ----- runs of requests -----

  function Flat(qs: seq<seq<Call>>): seq<Call> {
    if qs == [] then [] else Flat(qs[..|qs| - 1]) + qs[|qs| - 1]
  }

  ghost predicate Service(policy: Policy, s: State, qs: seq<seq<Call>>)
    decreases |qs|
  {
    qs == [] ||
    var front, xs := qs[..|qs| - 1], qs[|qs| - 1];
    && Service(policy, s, front) && OneRequest(xs)
    && CallRun(policy, Final(s, Flat(front)), xs) && Regular(policy, Final(s, Flat(front)), xs[0])
  }

  lemma {:induction false} CallsJoined(policy: Policy, s: State, xs: seq<Call>, more: seq<Call>)
    requires CallRun(policy, s, xs) && CallRun(policy, Final(s, xs), more)
    ensures CallRun(policy, s, xs + more) && Final(s, xs + more) == Final(Final(s, xs), more)
    decreases |more|
  {
    hide CallStep;
    if more == [] {
      assert xs + more == xs;
    } else {
      LastCall(policy, Final(s, xs), more);
      CallsJoined(policy, s, xs, more[..|more| - 1]);
      OneCallMore(policy, s, xs + more[..|more| - 1], xs + more, more[|more| - 1]);
    }
  }

  lemma OneCallMore(policy: Policy, s: State, front: seq<Call>, xs: seq<Call>, x: Call)
    requires CallRun(policy, s, front) && CallStep(policy, Final(s, front), x) && xs == front + [x]
    ensures CallRun(policy, s, xs) && Final(s, xs) == x.after
  {
    hide CallStep;
    assert xs[..|xs| - 1] == front;
  }

  /** Over any run of regular requests, under any policy, the tables agree after each of them
      and the instance stands for the map that the run makes. */
  lemma {:induction false} ServiceAgrees(policy: Policy, s: State, qs: seq<seq<Call>>, m: map<Key, Value>)
    requires Agreeing(s) && s.arena.Represents(m) && Service(policy, s, qs)
    ensures CallRun(policy, s, Flat(qs)) && Agreeing(Final(s, Flat(qs)))
    ensures Legal(Requests(s, Flat(qs)))
    ensures Final(s, Flat(qs)).arena.Represents(RunMap(s.arena, m, Requests(s, Flat(qs))))
    decreases |qs|
  {
    if qs != [] {
      var front, xs := qs[..|qs| - 1], qs[|qs| - 1];
      ServiceAgrees(policy, s, front, m);
      RequestAgrees(policy, Final(s, Flat(front)), xs);
      CallsJoined(policy, s, Flat(front), xs);
    }
    CallsRefineMap(policy, s, Flat(qs), m);
  }
}
