/** The Coordinador's instance list, key table and distribution, and what becomes of a SET. */
module Dispatch {
  import opened Lists
  import opened Sharing

  type Key = string

  datatype Policy = LeastSpaceUsed | EquitativeLoad | KeyExplicit

  /** `key_table_data_t`; NONE is the null instance. */
  datatype KeyData = KeyData(initialized: bool, instance: int)

  const NONE: int := -1

  /** What happens to a SET at an instance: its status, one that is none of the known ones, or
      the failure of the connection. */
  datatype SetOutcome = StatusOk | StatusCompact | StatusReplaced | StatusNoSpace | StatusError | StatusUnknown | Broken

  datatype Reply = EverythingOk | IllegalOperation

  predicate Succeeded(o: SetOutcome) {
    o in {StatusOk, StatusCompact}
  }

  predicate Redispatched(o: SetOutcome) {
    o in {StatusNoSpace, StatusError, StatusUnknown, Broken}
  }

  /** After these the instance is taken for disconnected. */
  predicate Disconnects(o: SetOutcome) {
    o in {StatusUnknown, Broken}
  }

  function Available(connected: set<int>, excluded: seq<int>): int -> bool {
    i => i in connected && i !in excluded
  }

  /** `key_table_create_key`. */
  function KeyCreated(t: map<Key, KeyData>, k: Key, i: int): map<Key, KeyData> {
    if k !in t then t[k := KeyData(false, i)]
    else if i != NONE then t[k := t[k].(instance := i)]
    else t
  }

  /** The code of a character as a signed `char`. */
  function CharCode(c: char): int {
    var code := c as int % 256;
    if code < 128 then code else code - 256
  }

  /** The code of the first character, 0 for the empty key. */
  function FirstChar(k: Key): int {
    if k == "" then 0 else CharCode(k[0])
  }

  function InstanceOf(t: map<Key, KeyData>, k: Key): int {
    if k in t then t[k].instance else NONE
  }

  /** The instance at an index, none out of range. */
  function At(q: seq<int>, index: int): (i: int)
    ensures 0 <= index < |q| ==> i in q
  {
    if 0 <= index < |q| then q[index] else NONE
  }

  function LoadOf(used: map<int, nat>): int -> real {
    i => if i in used then used[i] as real else 0.0
  }

  /** A capital and a small letter are one, and nothing but the first character counts: keys whose
      first characters are the same, or the two cases of a letter, find the same instance. */
  lemma FirstLetterCounts(k: Key, j: Key, c: seq<int>)
    requires k != "" && j != "" && 0 < |c| <= MANY
    requires k[0] == j[0] || (65 <= k[0] as int <= 90 && j[0] as int == k[0] as int + 32)
    ensures At(c, LetterIndex(FirstChar(k), |c|)) == At(c, LetterIndex(FirstChar(j), |c|))
    ensures IsLetter(FirstChar(k)) <==> IsLetter(FirstChar(j))
  {
    hide LetterIndex;
    hide IsLetter;
    LetterCases(FirstChar(k), |c|);
    LetterCases(FirstChar(j), |c|);
  }

  /** Which keys start with a letter, by the code of their first character. */
  lemma LetterKeys(k: Key)
    ensures IsLetter(FirstChar(k)) <==>
            k != "" && var code := k[0] as int % 256; 65 <= code <= 90 || 97 <= code <= 122
  {
    LetterCases(FirstChar(k), 1);
  }

  /** The place of a letter among n instances. */
  lemma LetterPlace(k: Key, n: nat)
    requires n <= MANY
    ensures n > 0 && k != "" && 97 <= k[0] as int <= 122 ==> LetterIndex(FirstChar(k), n) == (k[0] as int - 97) * n / 26
    ensures n > 0 && k != "" && 65 <= k[0] as int <= 90 ==> LetterIndex(FirstChar(k), n) == (k[0] as int - 65) * n / 26
  {
    hide LetterIndex;
    if n > 0 {
      LetterCases(FirstChar(k), n);
      LetterCases(FirstChar(k) + 32, n);
    }
  }

  class Coordinador {
    const policy: Policy
    var elements: seq<int>
    var connected: set<int>
    var used: map<int, nat>
    var keys: map<Key, KeyData>

    predicate Valid()
      reads this
    {
      && (forall i, j :: 0 <= i < j < |elements| ==> elements[i] != elements[j])
      && |elements| <= MANY
      && (forall i :: i in elements ==> i >= 0 && i in used)
      && (forall i :: i in connected ==> i in elements)
    }

    constructor (policy: Policy)
      ensures Valid() && elements == [] && connected == {} && keys == map[] && this.policy == policy
    {
      this.policy := policy;
      elements, connected, used, keys := [], {}, map[], map[];
    }

    ghost function Candidates(excluded: seq<int>): seq<int>
      reads this
    {
      Keep(elements, Available(connected, excluded))
    }

    // ----- the instance list -----

    /** `instance_list_add` for a new name: the instance comes first, with no entries in use. */
    method Add(i: int)
      requires Valid() && i >= 0 && i !in elements && |elements| < MANY
      modifies this`elements, this`connected, this`used
      ensures Valid() && elements == [i] + old(elements)
      ensures connected == old(connected) + {i} && used == old(used)[i := 0]
    {
      elements, connected, used := [i] + elements, connected + {i}, used[i := 0];
    }

    /** `instance_list_pop` and `instance_list_push`. */
    method PopAndPush(excluded: seq<int>) returns (i: int)
      requires Valid()
      modifies this`elements
      ensures Valid() && multiset(elements) == old(multiset(elements))
      ensures elements == Rotated(old(elements), Available(connected, excluded))
      ensures i == At(old(Candidates(excluded)), 0)
      // the first available one goes to the end, every other one keeps its place
      ensures i == NONE <==> forall j :: j in connected ==> j in excluded
      ensures i == NONE ==> elements == old(elements)
      ensures i != NONE ==>
                && i in connected && i !in excluded
                && exists a :: 0 <= a < |old(elements)| && old(elements)[a] == i
                               && elements == old(elements)[..a] + old(elements)[a + 1..] + [i]
                               && forall b :: 0 <= b < a ==>
                                    old(elements)[b] !in connected || old(elements)[b] in excluded
    {
      hide Keep;
      hide Rotated;
      hide FirstIndex;
      hide RemoveFirst;
      var p := Available(connected, excluded);
      RotationFacts(elements, p);
      FirstAvailable(elements, connected, excluded);
      var at := FirstIndex(elements, p);
      if at < 0 {
        i := NONE;
      } else {
        i := elements[at];
        elements := RemoveFirst(elements, p);
        elements := elements + [i];
      }
    }

    /** `instance_list_get_by_index`: the index counts available instances only. */
    method GetByIndex(index: int, excluded: seq<int>) returns (i: int)
      ensures i == At(Candidates(excluded), index)
    {
      i := Kth(elements, Available(connected, excluded), index);
    }

    static method Kth(e: seq<int>, p: int -> bool, index: int) returns (r: int)
      ensures r == At(Keep(e, p), index)
    {
      var seen, j := 0, 0;
      assert e[..0] == [];
      while j < |e|
        invariant 0 <= j <= |e| && seen == |Keep(e[..j], p)|
        invariant 0 <= index ==> seen <= index
      {
        KthStep(e, p, j);
        if p(e[j]) {
          if seen == index {
            return e[j];
          }
          seen := seen + 1;
        }
        j := j + 1;
      }
      assert e[..j] == e;
      r := NONE;
    }

    /** `instance_list_sort` by used entries. */
    method SortByUsedSpace()
      requires Valid()
      modifies this`elements
      ensures Valid() && multiset(elements) == old(multiset(elements)) && Ascending(elements, LoadOf(used))
    {
      var sorted := SortBy(elements, LoadOf(used));
      SamePlaces(elements, sorted);
      elements := sorted;
    }

    // ----- the distribution -----

    /** `equitative_load`, without the key table. */
    method ShareEqually(k: Key, excluded: seq<int>) returns (i: int)
      requires Valid()
      modifies this`elements
      ensures Valid() && multiset(elements) == old(multiset(elements))
      ensures Shared(EquitativeLoad, old(elements), elements, Available(connected, excluded), used, k, i)
      ensures i != NONE ==>
                && i in connected && i !in excluded
                && exists a :: 0 <= a < |old(elements)| && old(elements)[a] == i
                               && elements == old(elements)[..a] + old(elements)[a + 1..] + [i]
                               && forall b :: 0 <= b < a ==>
                                    old(elements)[b] !in connected || old(elements)[b] in excluded
    {
      i := PopAndPush(excluded);
    }

    /** `least_space_used`, without the key table. */
    method ShareBySpace(k: Key, excluded: seq<int>) returns (i: int)
      requires Valid()
      modifies this`elements
      ensures Valid() && multiset(elements) == old(multiset(elements))
      ensures Shared(LeastSpaceUsed, old(elements), elements, Available(connected, excluded), used, k, i)
      ensures i != NONE ==>
                && i in connected && i !in excluded
                && forall j :: j in connected && j !in excluded ==> used[i] <= used[j]
    {
      ghost var was := elements;
      SortByUsedSpace();
      LightestAvailable(was, elements, LoadOf(used), Available(connected, excluded));
      i := PopAndPush(excluded);
    }

    /** `key_explicit`, without the key table. */
    method ShareByLetter(k: Key, excluded: seq<int>) returns (i: int)
      requires Valid()
      ensures Shared(KeyExplicit, elements, elements, Available(connected, excluded), used, k, i)
      ensures var c := Candidates(excluded);
              && (k != "" && 97 <= k[0] as int <= 122 && c != [] ==>
                    i == At(c, (k[0] as int - 97) * |c| / 26) && i in c)
              && (k != "" && 65 <= k[0] as int <= 90 && c != [] ==>
                    i == At(c, (k[0] as int - 65) * |c| / 26) && i in c)
    {
      var n := |Keep(elements, Available(connected, excluded))|;
      LetterPlace(k, n);
      hide LetterIndex;
      NoLetterFindsNone(Candidates(excluded), k);
      i := GetByIndex(LetterIndex(FirstChar(k), n), excluded);
    }

    /** The choice of a new home for a key among the available instances, or none. */
    method Share(k: Key, excluded: seq<int>) returns (i: int)
      requires Valid()
      modifies this`elements
      ensures Valid() && multiset(elements) == old(multiset(elements))
      ensures Shared(policy, old(elements), elements, Available(connected, excluded), used, k, i)
      ensures i != NONE ==> i in connected && i !in excluded
      ensures i == NONE <==>
              (forall j :: j in connected ==> j in excluded) || (policy == KeyExplicit && !IsLetter(FirstChar(k)))
      ensures policy == LeastSpaceUsed && i != NONE ==>
                forall j :: j in connected && j !in excluded ==> used[i] <= used[j]
    {
      NoneAvailable(elements, connected, excluded);
      match policy
      case EquitativeLoad => i := ShareEqually(k, excluded);
      case LeastSpaceUsed => i := ShareBySpace(k, excluded);
      case KeyExplicit => i := ShareByLetter(k, excluded);
    }

    /** `dispatch`: the home of the key if it is connected, a new one otherwise. */
    method DispatchKey(k: Key, excluded: seq<int>) returns (i: int)
      requires Valid()
      modifies this`elements, this`keys
      ensures Valid() && multiset(elements) == old(multiset(elements))
      ensures var home := InstanceOf(old(keys), k);
              if home in connected then i == home && keys == old(keys) && elements == old(elements)
              else
                && Shared(policy, old(elements), elements, Available(connected, excluded), used, k, i)
                && var t := if home == NONE then old(keys) else old(keys) - {k};
                   keys == if i == NONE then t else KeyCreated(t, k, i)
      // the key table holds the instance, and the flag of a key that was there with a live home or none
      ensures i != NONE ==> i in connected && InstanceOf(keys, k) == i
      ensures i != NONE ==>
                && k in keys
                && (keys[k].initialized <==>
                      && k in old(keys) && old(keys)[k].initialized
                      && (old(keys)[k].instance == NONE || old(keys)[k].instance in connected))
      ensures i == NONE ==> InstanceOf(keys, k) == NONE
      ensures keys - {k} == old(keys) - {k}
      // the choice: the home as long as it is connected, else none only if nobody is left or KE finds no letter
      ensures InstanceOf(old(keys), k) in connected ==>
                i == InstanceOf(old(keys), k) && keys == old(keys) && elements == old(elements)
      ensures InstanceOf(old(keys), k) !in connected ==>
                && (i == NONE <==> NobodyLeft(connected, excluded, policy, k))
                && (i != NONE ==> i !in excluded)
                && (policy == LeastSpaceUsed && i != NONE ==>
                      forall j :: j in connected && j !in excluded ==> used[i] <= used[j])
    {
      hide Shared;
      hide IsLetter;
      hide KeyCreated;
      var home := InstanceOf(keys, k);
      if home != NONE {
        if home in connected {
          return home;
        }
        keys := keys - {k};
      }
      i := Share(k, excluded);
      if i != NONE {
        CreateKey(k, i);
      }
    }

    /** `key_table_create_key`: a new key, or a home for a key that is there. */
    method CreateKey(k: Key, i: int)
      modifies this`keys
      ensures keys == KeyCreated(old(keys), k, i)
      ensures k in keys && keys[k].instance == (if i != NONE then i else InstanceOf(old(keys), k))
      ensures keys[k].initialized == (k in old(keys) && old(keys)[k].initialized)
      ensures keys - {k} == old(keys) - {k}
    {
      if k !in keys {
        keys := keys[k := KeyData(false, i)];
      } else if i != NONE {
        keys := keys[k := keys[k].(instance := i)];
      }
    }

    /** A key that has been dispatched stays where it is: the next operation on it goes to the same
        instance, and finds key table and instance list as they were. */
    method DispatchAgain(k: Key) returns (i: int, again: int)
      requires Valid()
      modifies this`elements, this`keys
      ensures Valid() && (i != NONE ==> again == i && InstanceOf(keys, k) == i)
      ensures i != NONE && InstanceOf(old(keys), k) == NONE ==> keys == KeyCreated(old(keys), k, i)
    {
      i := DispatchKey(k, []);
      label first:
      again := DispatchKey(k, []);
      assert i != NONE ==> keys == old@first(keys) && elements == old@first(elements);
    }

    /** One dispatch for each of several new keys: as many as there are connected instances go
        to each of them once. */
    method DispatchNewKeys(ks: seq<Key>) returns (picks: seq<int>)
      requires Valid() && policy == EquitativeLoad && Candidates([]) != [] && AllNew(keys, ks)
      modifies this`elements, this`keys
      ensures Valid() && picks == Picks(old(elements), Available(connected, []), |ks|)
      ensures |ks| == |old(Candidates([]))| ==> picks == old(Candidates([]))
    {
      RoundRobin(elements, Available(connected, []));
      picks := DispatchEach(ks, Available(connected, []), elements, keys);
    }

    method DispatchEach(ks: seq<Key>, ghost p: int -> bool, ghost e: seq<int>, ghost t: map<Key, KeyData>)
      returns (picks: seq<int>)
      requires Valid() && policy == EquitativeLoad && p == Available(connected, [])
      requires e == elements && t == keys && Keep(e, p) != [] && AllNew(t, ks)
      modifies this`elements, this`keys
      ensures Valid() && picks == Picks(e, p, |ks|)
      decreases |ks|
    {
      if ks == [] {
        picks := [];
      } else {
        PicksNext(e, p, |ks|);
        var i := DispatchNewKey(ks[0], p, e, t);
        StillNew(t, ks[0], i, ks[1..]);
        var rest := DispatchEach(ks[1..], p, Rotated(e, p), KeyCreated(t, ks[0], i));
        picks := [i] + rest;
      }
    }

    method DispatchNewKey(k: Key, ghost p: int -> bool, ghost e: seq<int>, ghost t: map<Key, KeyData>) returns (i: int)
      requires Valid() && policy == EquitativeLoad && p == Available(connected, [])
      requires e == elements && t == keys && Keep(e, p) != [] && InstanceOf(t, k) == NONE
      modifies this`elements, this`keys
      ensures Valid() && i == Keep(e, p)[0] && elements == Rotated(e, p) && keys == KeyCreated(t, k, i)
    {
      i := DispatchKey(k, []);
    }

    /** `instance_handle_set_request`, with the closing of a broken connection: the ESI gets its
        answer, or the request is pushed to another instance and this one is excluded. */
    method HandleSet(k: Key, i: int, excluded: seq<int>, o: SetOutcome, load: nat)
      returns (r: Handled, excluded': seq<int>)
      requires Valid() && i in connected && i !in excluded && k in keys && keys[k].instance == i
      modifies this`elements, this`connected, this`used, this`keys
      ensures Valid() && multiset(elements) == old(multiset(elements))
      ensures connected == if o == StatusUnknown || o == Broken then old(connected) - {i} else old(connected)
      ensures used == if o == Broken then old(used) else old(used)[i := load]
      ensures excluded' == if o in {StatusOk, StatusCompact, StatusReplaced} then excluded else excluded + [i]
      ensures o == StatusOk || o == StatusCompact ==>
                r == Answered(EverythingOk) && keys == old(keys)[k := KeyData(true, i)]
      ensures o == StatusReplaced ==> r == Answered(IllegalOperation) && keys == old(keys) - {k}
      ensures o in {StatusNoSpace, StatusError, StatusUnknown, Broken} ==>
                match r
                case Answered(reply) =>
                  && reply == IllegalOperation && keys == old(keys) - {k}
                  && NobodyLeft(connected, excluded', policy, k)
                case PushedTo(j) => j in connected && j !in excluded' && keys == old(keys)[k := KeyData(false, j)]
    {
      excluded' := excluded;
      if o != Broken {
        used := used[i := load];
      }
      if Succeeded(o) {
        keys := keys[k := keys[k].(initialized := true)];
        r := Answered(EverythingOk);
      } else if o == StatusReplaced {
        keys := keys - {k};
        r := Answered(IllegalOperation);
      } else {
        keys := keys - {k};
        excluded' := excluded + [i];
        r := DispatchFailed(k, excluded');
        if Disconnects(o) {
          connected := connected - {i};
        }
      }
    }

    /** `instance_dispatch_failed_set`, for a key that has been taken out of the key table. */
    method DispatchFailed(k: Key, excluded: seq<int>) returns (r: Handled)
      requires Valid() && k !in keys
      modifies this`elements, this`keys
      ensures Valid() && multiset(elements) == old(multiset(elements))
      ensures match r
              case Answered(reply) =>
                reply == IllegalOperation && keys == old(keys) && NobodyLeft(connected, excluded, policy, k)
              case PushedTo(j) => j in connected && j !in excluded && keys == old(keys)[k := KeyData(false, j)]
    {
      ghost var p := Available(connected, excluded);
      ghost var candidates := Keep(elements, p);
      var j := DispatchKey(k, excluded);
      if j == NONE {
        forall x | x in connected && candidates == []
          ensures x in excluded
        {
          assert x in candidates || x in excluded;
        }
        r := Answered(IllegalOperation);
      } else {
        assert j in candidates;
        r := PushedTo(j);
      }
    }

    /** The instance threads serve a SET: the one it was pushed to, and after each failure the
        one it is dispatched to next. */
    method ServeSet(k: Key, first: int, outcomes: nat -> SetOutcome, loads: nat -> nat)
      returns (visits: seq<int>, answers: seq<Reply>, destroyed: nat)
      requires Valid() && first in connected && k in keys && keys[k].instance == first
      modifies this`elements, this`connected, this`used, this`keys
      ensures Valid() && multiset(elements) == old(multiset(elements))
      ensures visits != [] && visits[0] == first && Visited(visits, elements)
      ensures |answers| == 1 && destroyed == 1
      // every visit but the last one failed, the last one decides the answer and the key table
      ensures var n := |visits| - 1;
              && (forall j :: 0 <= j < n ==> outcomes(j) in {StatusNoSpace, StatusError, StatusUnknown, Broken})
              && (outcomes(n) in {StatusOk, StatusCompact} ==>
                    answers[0] == EverythingOk && keys == old(keys)[k := KeyData(true, visits[n])])
              && (outcomes(n) !in {StatusOk, StatusCompact} ==>
                    answers[0] == IllegalOperation && keys == old(keys) - {k})
              && (outcomes(n) in {StatusNoSpace, StatusError, StatusUnknown, Broken} ==>
                    (forall x :: x in connected ==> x in visits) || (policy == KeyExplicit && !IsLetter(FirstChar(k))))
      // who broke is disconnected, who answered has told its used entries, the others are as they were
      ensures forall x :: x in connected <==> x in old(connected) && !Lost(visits, outcomes, x)
      ensures forall j :: 0 <= j < |visits| && outcomes(j) != Broken ==> used[visits[j]] == loads(j)
      ensures forall x :: x in old(used) && x !in visits ==> x in used && used[x] == old(used)[x]
    {
      visits, answers, destroyed := FollowRequest(k, first, outcomes, loads);
    }

    method FollowRequest(k: Key, first: int, outcomes: nat -> SetOutcome, loads: nat -> nat)
      returns (visits: seq<int>, answers: seq<Reply>, destroyed: nat)
      requires Valid() && first in connected && k in keys && keys[k].instance == first
      modifies this`elements, this`connected, this`used, this`keys
      ensures Valid() && multiset(elements) == old(multiset(elements))
      ensures visits != [] && visits[0] == first && Visited(visits, elements)
      ensures |answers| == 1 && destroyed == 1
      ensures Served(old(keys), keys, k, visits, outcomes, answers[0], connected, policy)
      ensures Kept(old(connected), old(used), connected, used, visits, outcomes, loads)
    {
      ghost var e, t, c0, u0 := elements, keys, connected, used;
      var next, excluded := first, [];
      visits, answers, destroyed := [], [], 0;
      KeptNone(connected, used, outcomes, loads);
      NothingVisited(e);
      assert OnTheWay(k, next, visits, excluded, outcomes, e, t);
      hide Kept;
      hide Served;
      hide OnTheWay;
      while answers == []
        invariant Valid() && multiset(elements) == multiset(e) && Visited(visits, e)
        invariant if visits == [] then next == first && answers == [] else visits[0] == first
        invariant Kept(c0, u0, connected, used, visits, outcomes, loads)
        invariant answers == [] ==> destroyed == 0 && OnTheWay(k, next, visits, excluded, outcomes, e, t)
        invariant answers != [] ==>
                    && |answers| == 1 && destroyed == 1
                    && Served(t, keys, k, visits, outcomes, answers[0], connected, policy)
        decreases |e| - |visits|, if answers == [] then 1 else 0
      {
        var r;
        r, visits, excluded := VisitNext(k, next, visits, excluded, outcomes, loads, e, t, c0, u0);
        match r {
          case Answered(reply) => answers, destroyed := [reply], 1;
          case PushedTo(j) => next := j;
        }
      }
      SameElements(e, elements);
      VisitedSame(visits, e, elements);
    }

    /** A request that is still on its way: all visits so far failed, and it is at the next instance. */
    ghost predicate OnTheWay(k: Key, next: int, visits: seq<int>, excluded: seq<int>, outcomes: nat -> SetOutcome,
                             e: seq<int>, t: map<Key, KeyData>)
      reads this
    {
      && excluded == visits && next in connected && next !in visits
      && k in keys && keys[k].instance == next && keys == t[k := keys[k]]
      && (forall j :: 0 <= j < |visits| ==> Redispatched(outcomes(j)))
      && (forall x :: x in elements ==> x in e)
    }

    /** One visit: it ends the request, or sends it on. */
    method VisitNext(k: Key, next: int, visits: seq<int>, excluded: seq<int>, outcomes: nat -> SetOutcome,
                     loads: nat -> nat, ghost e: seq<int>, ghost t: map<Key, KeyData>, ghost c0: set<int>,
                     ghost u0: map<int, nat>)
      returns (r: Handled, visits': seq<int>, excluded': seq<int>)
      requires Valid() && multiset(elements) == multiset(e) && Visited(visits, e)
      requires OnTheWay(k, next, visits, excluded, outcomes, e, t)
      requires Kept(c0, u0, connected, used, visits, outcomes, loads)
      modifies this`elements, this`connected, this`used, this`keys
      ensures Valid() && multiset(elements) == multiset(e) && visits' == visits + [next] && Visited(visits', e)
      ensures |visits'| <= |e| && Kept(c0, u0, connected, used, visits', outcomes, loads)
      ensures match r
              case Answered(reply) => Served(t, keys, k, visits', outcomes, reply, connected, policy)
              case PushedTo(j) => OnTheWay(k, j, visits', excluded', outcomes, e, t)
    {
      hide Kept;
      hide Visited;
      hide NobodyLeft;
      hide Available;
      hide Served;
      var o := outcomes(|visits|);
      ghost var c, u, was := connected, used, keys;
      SameElements(e, elements);
      VisitedMore(visits, next, e);
      r, excluded' := HandleSet(k, next, excluded, o, loads(|visits|));
      visits' := visits + [next];
      KeysOver(t, was, k, if k in keys then keys[k] else was[k]);
      SameElements(e, elements);
      KeptMore(c0, u0, c, u, connected, used, visits', outcomes, loads);
      if r.Answered? {
        ServedNow(t, keys, k, visits', outcomes, r.reply, connected, policy);
      }
    }
  }

  /** What is done to one key of a table that differs in that key only. */
  lemma KeysOver(t: map<Key, KeyData>, keys: map<Key, KeyData>, k: Key, d: KeyData)
    requires k in keys && keys == t[k := keys[k]]
    ensures keys - {k} == t - {k} && keys[k := d] == t[k := d]
  {
  }

  lemma ServedNow(t: map<Key, KeyData>, t': map<Key, KeyData>, k: Key, visits: seq<int>,
                  outcomes: nat -> SetOutcome, reply: Reply, connected: set<int>, policy: Policy)
    requires visits != [] && forall j :: 0 <= j < |visits| - 1 ==> Redispatched(outcomes(j))
    requires var last := outcomes(|visits| - 1);
             && reply == (if Succeeded(last) then EverythingOk else IllegalOperation)
             && t' == (if Succeeded(last) then t[k := KeyData(true, visits[|visits| - 1])] else t - {k})
             && (Redispatched(last) ==> NobodyLeft(connected, visits, policy, k))
    ensures Served(t, t', k, visits, outcomes, reply, connected, policy)
  {
  }

  lemma VisitedSame(visits: seq<int>, a: seq<int>, b: seq<int>)
    requires Visited(visits, a) && forall x :: x in a <==> x in b
    ensures Visited(visits, b)
  {
  }

  /** Where the first available instance stands, and the list after its rotation. */
  lemma FirstAvailable(e: seq<int>, connected: set<int>, excluded: seq<int>)
    requires forall i :: i in connected ==> i in e
    ensures var p, at := Available(connected, excluded), FirstIndex(e, Available(connected, excluded));
            && (at < 0 <==> forall j :: j in connected ==> j in excluded)
            && (at < 0 ==> Rotated(e, p) == e)
            && (at >= 0 ==>
                  && e[at] in connected && e[at] !in excluded
                  && (forall b :: 0 <= b < at ==> e[b] !in connected || e[b] in excluded)
                  && RemoveFirst(e, p) == e[..at] + e[at + 1..] && Rotated(e, p) == RemoveFirst(e, p) + [e[at]])
  {
    var p, at := Available(connected, excluded), FirstIndex(e, Available(connected, excluded));
    assert forall b :: 0 <= b < (if at < 0 then |e| else at) ==> !p(e[b]);
    if at < 0 {
      forall j | j in connected
        ensures j in excluded
      {
        var b :| 0 <= b < |e| && e[b] == j;
        assert !p(e[b]);
      }
    } else {
      var x := e[at];
      assert p(x);
      assert x in connected && x !in excluded;
    }
  }

  /** Nobody can be picked exactly when everybody connected has been excluded. */
  lemma NoneAvailable(e: seq<int>, connected: set<int>, excluded: seq<int>)
    requires forall i :: i in connected ==> i in e
    ensures Keep(e, Available(connected, excluded)) == [] <==> forall j :: j in connected ==> j in excluded
  {
    var c := Keep(e, Available(connected, excluded));
    if c != [] {
      var x := c[0];
      assert x in c;
      assert x in connected && x !in excluded;
    } else {
      forall j | j in connected
        ensures j in excluded
      {
        assert j in c || j in excluded;
      }
    }
  }

  /** A SET that has been handled: answered, or on its way to another instance. */
  datatype Handled = Answered(reply: Reply) | PushedTo(instance: int)

  /** Every connected instance has been excluded, or the key is one that `key_explicit` cannot place. */
  ghost predicate NobodyLeft(connected: set<int>, excluded: seq<int>, policy: Policy, k: Key) {
    (forall i :: i in connected ==> i in excluded) || (policy == KeyExplicit && !IsLetter(FirstChar(k)))
  }

  /** Different keys, none of which has an instance. */
  ghost predicate AllNew(t: map<Key, KeyData>, ks: seq<Key>) {
    ks == [] || (InstanceOf(t, ks[0]) == NONE && ks[0] !in ks[1..] && AllNew(t, ks[1..]))
  }

  lemma {:induction false} StillNew(t: map<Key, KeyData>, k: Key, i: int, ks: seq<Key>)
    requires AllNew(t, ks) && k !in ks
    ensures AllNew(KeyCreated(t, k, i), ks)
  {
    if ks != [] {
      StillNew(t, k, i, ks[1..]);
    }
  }

  /** Instances of the list, none of them twice. */
  ghost predicate Visited(visits: seq<int>, e: seq<int>) {
    && (forall i, j :: 0 <= i < j < |visits| ==> visits[i] != visits[j])
    && (forall i :: i in visits ==> i in e)
  }

  /** The last instance decided the answer, all the ones before failed; the key is in the table,
      initialized and at that instance, only after a success. */
  ghost predicate Served(t: map<Key, KeyData>, t': map<Key, KeyData>, k: Key, visits: seq<int>,
                         outcomes: nat -> SetOutcome,
                         reply: Reply, connected: set<int>, policy: Policy)
  {
    && visits != []
    && var last := outcomes(|visits| - 1);
       && (forall j :: 0 <= j < |visits| - 1 ==> Redispatched(outcomes(j)))
       && reply == (if Succeeded(last) then EverythingOk else IllegalOperation)
       && t' == (if Succeeded(last) then t[k := KeyData(true, visits[|visits| - 1])] else t - {k})
       && (Redispatched(last) ==> NobodyLeft(connected, visits, policy, k))
  }

  /** The instance has been visited, and its connection broke or it answered nonsense. */
  ghost predicate Lost(visits: seq<int>, outcomes: nat -> SetOutcome, x: int) {
    exists j :: 0 <= j < |visits| && visits[j] == x && outcomes(j) in {StatusUnknown, Broken}
  }

  lemma LostMore(visits: seq<int>, outcomes: nat -> SetOutcome)
    requires visits != []
    ensures var n := |visits| - 1;
            forall x :: Lost(visits, outcomes, x) <==>
                        Lost(visits[..n], outcomes, x)
                        || (x == visits[n] && outcomes(n) in {StatusUnknown, Broken})
  {
    var n := |visits| - 1;
    forall x
      ensures Lost(visits, outcomes, x) <==>
              Lost(visits[..n], outcomes, x) || (x == visits[n] && outcomes(n) in {StatusUnknown, Broken})
    {
      if Lost(visits[..n], outcomes, x) {
        var j :| 0 <= j < n && visits[..n][j] == x && outcomes(j) in {StatusUnknown, Broken};
        assert visits[j] == x;
      }
    }
  }

  /** What visits leave of the connections and the used entries. */
  ghost predicate Kept(c0: set<int>, u0: map<int, nat>, connected: set<int>, used: map<int, nat>,
                       visits: seq<int>, outcomes: nat -> SetOutcome, loads: nat -> nat)
  {
    && (forall x :: x in connected <==> x in c0 && !Lost(visits, outcomes, x))
    && (forall j :: 0 <= j < |visits| && outcomes(j) != Broken ==> visits[j] in used && used[visits[j]] == loads(j))
    && (forall x :: x in u0 && x !in visits ==> x in used && used[x] == u0[x])
  }

  lemma KeptNone(c: set<int>, u: map<int, nat>, outcomes: nat -> SetOutcome, loads: nat -> nat)
    ensures Kept(c, u, c, u, [], outcomes, loads)
  {
  }

  lemma NothingVisited(e: seq<int>)
    ensures Visited([], e)
  {
  }

  /** One visit more. */
  lemma KeptMore(c0: set<int>, u0: map<int, nat>, c: set<int>, u: map<int, nat>, connected: set<int>,
                 used: map<int, nat>, visits: seq<int>, outcomes: nat -> SetOutcome, loads: nat -> nat)
    requires visits != [] && Kept(c0, u0, c, u, visits[..|visits| - 1], outcomes, loads)
    requires visits[|visits| - 1] !in visits[..|visits| - 1]
    requires var n := |visits| - 1;
             && connected == (if outcomes(n) in {StatusUnknown, Broken} then c - {visits[n]} else c)
             && used == if outcomes(n) == Broken then u else u[visits[n] := loads(n)]
    ensures Kept(c0, u0, connected, used, visits, outcomes, loads)
  {
    var n := |visits| - 1;
    LostMore(visits, outcomes);
    forall j | 0 <= j < |visits| && outcomes(j) != Broken
      ensures visits[j] in used && used[visits[j]] == loads(j)
    {
      if j < n {
        assert visits[..n][j] == visits[j] && visits[j] in visits[..n];
      }
    }
    assert visits == visits[..n] + [visits[n]];
  }

  lemma VisitedMore(visits: seq<int>, next: int, e: seq<int>)
    requires Visited(visits, e) && next in e && next !in visits
    ensures Visited(visits + [next], e) && |visits| < |e|
  {
    VisitedShort(visits + [next], e);
  }

  lemma {:induction false} VisitedShort(visits: seq<int>, e: seq<int>)
    requires Visited(visits, e)
    ensures |visits| <= |e|
    decreases |visits|
  {
    if visits != [] {
      var front, x := visits[..|visits| - 1], visits[|visits| - 1];
      assert x in visits;
      var i :| 0 <= i < |e| && e[i] == x;
      var rest := e[..i] + e[i + 1..];
      forall y | y in front
        ensures y in rest
      {
        assert y in visits;
        var j :| 0 <= j < |e| && e[j] == y;
        assert rest[if j < i then j else j - 1] == y;
      }
      VisitedShort(front, rest);
    }
  }

  /** What each algorithm promises of the instance it picks: i out of the list, with `p` the
      available ones, and the list afterwards. */
  ghost predicate Shared(policy: Policy, was: seq<int>, now: seq<int>, p: int -> bool, used: map<int, nat>, k: Key,
                         i: int) {
    var c := Keep(was, p);
    && (i != NONE ==> i in c)
    && (i == NONE <==> c == [] || (policy == KeyExplicit && !IsLetter(FirstChar(k))))
    && match policy
       case EquitativeLoad => now == Rotated(was, p) && i == At(c, 0)
       case LeastSpaceUsed => i != NONE ==> forall j :: j in c ==> LoadOf(used)(i) <= LoadOf(used)(j)
       case KeyExplicit => now == was && i == At(c, LetterIndex(FirstChar(k), |c|))
  }

  /** The letter index of a key finds no instance among the available ones exactly when there is
      none, or the key does not start with a letter. */
  lemma NoLetterFindsNone(c: seq<int>, k: Key)
    requires |c| <= MANY && NONE !in c
    ensures At(c, LetterIndex(FirstChar(k), |c|)) == NONE <==> c == [] || !IsLetter(FirstChar(k))
  {
    if c != [] {
      LetterIndexInRange(FirstChar(k), |c|);
    }
  }

  // ----- lists -----

  lemma RotationFacts(e: seq<int>, p: int -> bool)
    requires forall i, j :: 0 <= i < j < |e| ==> e[i] != e[j]
    ensures var r, i := Rotated(e, p), FirstIndex(e, p);
            && multiset(r) == multiset(e) && |r| == |e|
            && (forall i, j :: 0 <= i < j < |r| ==> r[i] != r[j])
            && (forall x :: x in e <==> x in r)
            && At(Keep(e, p), 0) == if i < 0 then NONE else e[i]
  {
    FirstKept(e, p);
    RotatedMultiset(e, p);
    SamePlaces(e, Rotated(e, p));
  }

  lemma SamePlaces(a: seq<int>, b: seq<int>)
    requires multiset(a) == multiset(b) && forall i, j :: 0 <= i < j < |a| ==> a[i] != a[j]
    ensures forall i, j :: 0 <= i < j < |b| ==> b[i] != b[j]
    ensures |a| == |b| && forall x :: x in a <==> x in b
  {
    assert |multiset(a)| == |multiset(b)|;
    SameElements(a, b);
    forall i, j | 0 <= i < j < |b|
      ensures b[i] != b[j]
    {
      if b[i] == b[j] {
        TwiceInMultiset(b, i, j);
        OnceInMultiset(a, b[i]);
        assert false;
      }
    }
  }

  lemma TwiceInMultiset(b: seq<int>, i: nat, j: nat)
    requires i < j < |b| && b[i] == b[j]
    ensures multiset(b)[b[i]] >= 2
  {
    assert b == b[..j] + [b[j]] + b[j + 1..];
    assert b[i] == b[..j][i] && b[i] in b[..j];
    assert b[i] in multiset(b[..j]);
  }

  lemma {:induction false} OnceInMultiset(a: seq<int>, x: int)
    requires forall i, j :: 0 <= i < j < |a| ==> a[i] != a[j]
    ensures multiset(a)[x] <= 1
  {
    if a != [] {
      var front := a[..|a| - 1];
      OnceInMultiset(front, x);
      assert a == front + [a[|a| - 1]];
      assert x in multiset(front) <==> x in front;
    }
  }

  /** What the elements before j contribute to a filtered list, and the place of the next one. */
  lemma KthStep(e: seq<int>, p: int -> bool, j: nat)
    requires j < |e|
    ensures |Keep(e[..j + 1], p)| == |Keep(e[..j], p)| + if p(e[j]) then 1 else 0
    ensures p(e[j]) ==> |Keep(e[..j], p)| < |Keep(e, p)| && Keep(e, p)[|Keep(e[..j], p)|] == e[j]
  {
    var a := e[..j];
    assert e[..j + 1][..j] == a;
    KeepConcat(e[..j + 1], e[j + 1..], p);
    assert e == e[..j + 1] + e[j + 1..];
  }

  /** In a list sorted by weight the first available instance is a lightest one. */
  lemma LightestAvailable(was: seq<int>, e: seq<int>, weight: int -> real, p: int -> bool)
    requires Ascending(e, weight) && multiset(was) == multiset(e)
    ensures Keep(e, p) == [] <==> Keep(was, p) == []
    ensures Keep(e, p) != [] ==> Keep(e, p)[0] in Keep(was, p)
    ensures Keep(e, p) != [] ==> forall j :: j in Keep(was, p) ==> weight(Keep(e, p)[0]) <= weight(j)
  {
    SameElements(was, e);
    KeptSame(was, e, p);
    if Keep(e, p) != [] {
      FirstKept(e, p);
      forall j | j in Keep(was, p)
        ensures weight(Keep(e, p)[0]) <= weight(j)
      {
        NoneBefore(e, p, weight, j);
      }
    }
  }

  lemma KeptSame(a: seq<int>, b: seq<int>, p: int -> bool)
    requires forall x :: x in a <==> x in b
    ensures forall x :: x in Keep(a, p) <==> x in Keep(b, p)
    ensures Keep(a, p) == [] <==> Keep(b, p) == []
    ensures Keep(b, p) != [] ==> Keep(b, p)[0] in Keep(a, p)
  {
    if Keep(a, p) != [] {
      var x := Keep(a, p)[0];
      assert x in Keep(a, p) && x in Keep(b, p);
    }
    if Keep(b, p) != [] {
      var x := Keep(b, p)[0];
      assert x in Keep(b, p) && x in Keep(a, p);
    }
  }

  lemma NoneBefore(e: seq<int>, p: int -> bool, weight: int -> real, j: int)
    requires Ascending(e, weight) && j in e && p(j)
    ensures FirstIndex(e, p) >= 0 && weight(e[FirstIndex(e, p)]) <= weight(j)
  {
    var a :| 0 <= a < |e| && e[a] == j;
    assert p(e[a]);
  }

  lemma SameElements(a: seq<int>, b: seq<int>)
    requires multiset(a) == multiset(b)
    ensures forall x :: x in a <==> x in b
  {
    forall x
      ensures x in a <==> x in b
    {
      assert x in a <==> x in multiset(a);
      assert x in b <==> x in multiset(b);
    }
  }
}
