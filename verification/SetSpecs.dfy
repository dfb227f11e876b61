/** What `instance_set` does as a relation between whole states, and what follows: it
    refines a map update, the retry after a compaction keeps its promise, and the two
    tables agree at the end of a SET. */
module SetSpecs {
  import opened EntryTable
  import opened Storage
  import opened Compaction
  import opened Slots
  import opened Agreement
  import opened Policies
  import opened SetRuns
  import opened Biggest

  datatype Policy = Circular | LeastRecentlyUsed | BiggestSpaceUsed | UnknownPolicy

  /** What each policy picks to make room for `needed` slots. */
  ghost predicate Chosen(policy: Policy, slots: seq<Slot>, pointer: nat, needed: nat, left: int, atomics: nat,
                         picked: seq<nat>, order: seq<nat>)
  {
    if left < 0 || !CanEvict(needed, left, atomics) then picked == []
    else match policy
      case Circular =>
        && InRange(Rotation(AllSlots(|slots|), pointer), |slots|)
        && picked == Picked(slots, Rotation(AllSlots(|slots|), pointer), needed - left)
      case LeastRecentlyUsed =>
        Ranking(order, Ages(slots)) && picked == Picked(slots, order, needed - left)
      case BiggestSpaceUsed =>
        && Ranking(order, Sizes(slots)) && InRange(order, |slots|)
        && picked == Bsu(slots, order, needed, left, atomics, pointer).picked
      case UnknownPolicy =>
        picked == []
  }

  /** Where each policy leaves the circular pointer. */
  ghost predicate PointerMoves(policy: Policy, slots: seq<Slot>, pointer: nat, stop: nat, needed: nat, left: int,
                               atomics: nat, order: seq<nat>) {
    if left < 0 || !CanEvict(needed, left, atomics) then stop == pointer
    else match policy
      case Circular =>
        InRange(AllSlots(|slots|), |slots|) && stop == HandAfter(slots, AllSlots(|slots|), pointer, needed - left)
      case BiggestSpaceUsed =>
        InRange(order, |slots|) && stop == Bsu(slots, order, needed, left, atomics, pointer).hand
      case _ => stop == pointer
  }

  /** Whatever the policy, the victims are distinct atomic slots. */
  lemma ChosenVictims(policy: Policy, slots: seq<Slot>, pointer: nat, needed: nat, left: int, atomics: nat,
                      picked: seq<nat>, order: seq<nat>)
    requires Chosen(policy, slots, pointer, needed, left, atomics, picked, order)
    ensures Victims(slots, picked)
  {
    hide Picked;
    hide Rotation;
    hide AllSlots;
    hide Bsu;
    if picked != [] {
      match policy
      case Circular =>
        PickedDistinct(slots, Rotation(AllSlots(|slots|), pointer), needed - left);
        PickedAtomic(slots, Rotation(AllSlots(|slots|), pointer), needed - left);
      case LeastRecentlyUsed =>
        PickedDistinct(slots, order, needed - left);
        PickedAtomic(slots, order, needed - left);
      case BiggestSpaceUsed => BsuVictims(slots, order, needed, left, atomics, pointer);
    }
  }

  /** The whole of an instance as a value. */
  datatype State = State(arena: Arena, slots: seq<Slot>, pointer: nat)

  /** The entry table and the status table agree, on ordinary keys. */
  ghost predicate Agreeing(s: State) {
    InStep(s.arena, s.slots) && NoneUsed(s.slots)
  }

  function DiffEntries(t: seq<Entry>, es: nat, k: Key, size: nat): int
    requires es >= 1
  {
    ReqEntries(size, es) - if Has(t, k) then ReqEntries(EntryOf(t, k).size, es) else 0
  }

  /** What `instance_set` does: refuse what can never fit; evict when the free slots do not
      reach; then place the value or ask for a compaction. */
  ghost predicate SetSpec(policy: Policy, before: State, k: Key, v: Value, replaced: seq<Key>,
                          st: Status, after: State, replaced': seq<Key>, picked: seq<nat>, order: seq<nat>)
    requires before.arena.Valid() && |v| >= 1
  {
    var a, slots := before.arena, before.slots;
    var diff, atomics, needed := DiffEntries(a.table, a.es, k, |v|), AtomicCount(a.table, a.es), Blocks(|v|, a.es);
    if diff > a.Left() + atomics then
      st == StatusNoSpace && after == before && replaced' == replaced && picked == []
    else if diff <= a.Left() then
      && picked == [] && replaced' == replaced && after.pointer == before.pointer
      && (st, after.arena) == Attempt(a, k, v)
      && after.slots == SlotsAfter(a, slots, k, v)
    else
      && Chosen(policy, slots, before.pointer, needed, a.Left(), atomics, picked, order)
      && InRange(picked, |slots|) && replaced' == replaced + KeysAt(slots, picked)
      && PointerMoves(policy, slots, before.pointer, after.pointer, needed, a.Left(), atomics, order)
      && if policy == Circular && 0 <= a.Left() && CanEvict(needed, a.Left(), atomics) && picked == [] then
           st == StatusError && after.arena == a && after.slots == slots
         else
           && (st, after.arena) == Attempt(Evicted(a, replaced'), k, v)
           && after.slots == SlotsAfter(Evicted(a, replaced'), Marked(slots, picked), k, v)
  }

  predicate Evicts(before: State, k: Key, v: Value)
    requires before.arena.es >= 1
  {
    DiffEntries(before.arena.table, before.arena.es, k, |v|) > before.arena.Left()
  }

  /** What an answer means for the arena `b` when `kept` is the map after eviction. */
  ghost predicate Refined(st: Status, b: Arena, kept: map<Key, Value>, k: Key, v: Value) {
    match st
    case StatusOk => b.Represents(kept[k := v])
    case StatusCompact => b.Represents(kept - {k}) && !Has(b.table, k)
    case _ => st == StatusError && b.Represents(kept)
  }

  lemma AttemptRefined(a: Arena, k: Key, v: Value, kept: map<Key, Value>)
    requires a.Valid() && |v| >= 1 && a.Represents(kept)
    ensures var (st, b) := Attempt(a, k, v);
            b.Valid() && b.es == a.es && b.total == a.total && Refined(st, b, kept, k, v)
  {
    AttemptRefinesMap(a, k, v, kept);
    RemoveElements(a.table, k);
  }

  /** `instance_set` refines a map update: the key is set, after dropping the replaced keys
      if it evicted; StatusCompact drops the key too; StatusError only drops the replaced
      keys; a refusal for lack of space, or of victims, changes nothing. */
  lemma SpecRefinesMap(policy: Policy, before: State, k: Key, v: Value, replaced: seq<Key>,
                       st: Status, after: State, replaced': seq<Key>, picked: seq<nat>, order: seq<nat>,
                       m: map<Key, Value>)
    requires before.arena.Valid() && |v| >= 1 && before.arena.Represents(m)
    requires SetSpec(policy, before, k, v, replaced, st, after, replaced', picked, order)
    ensures after.arena.Valid() && after.arena.es == before.arena.es && after.arena.total == before.arena.total
    ensures var kept := if Evicts(before, k, v) then m - KeySet(replaced') else m;
            || Refined(st, after.arena, kept, k, v)
            || (st == StatusNoSpace && after == before)
            || (st == StatusError && picked == [] && after.arena == before.arena)
  {
    var a := before.arena;
    AttemptRefined(a, k, v, m);
    PurgeRefinesMap(a, replaced', m);
    AttemptRefined(Evicted(a, replaced'), k, v, m - KeySet(replaced'));
  }

  /** The map after the first call of a request, with nothing replaced before it. */
  lemma FirstOutcome(policy: Policy, before: State, k: Key, v: Value, st: Status, after: State,
                     replaced: seq<Key>, picked: seq<nat>, order: seq<nat>, m: map<Key, Value>)
    requires before.arena.Valid() && |v| >= 1 && before.arena.Represents(m)
    requires SetSpec(policy, before, k, v, [], st, after, replaced, picked, order)
    ensures after.arena.Valid() && after.arena.es == before.arena.es && after.arena.total == before.arena.total
    ensures st == StatusNoSpace ==> after == before
    ensures st != StatusNoSpace ==> Refined(st, after.arena, m - KeySet(replaced), k, v)
  {
    NoneReplaced(policy, before, k, v, st, after, replaced, picked, order);
    MinusNothing(m);
    var kept := if Evicts(before, k, v) then m - KeySet(replaced) else m;
    assert kept == m - KeySet(replaced);
    assert Evicts(before, k, v) && picked == [] ==> kept == m;
    SpecRefinesMap(policy, before, k, v, [], st, after, replaced, picked, order, m);
  }

  lemma MinusNothing(m: map<Key, Value>)
    ensures m - KeySet([]) == m
  {
  }

  lemma NoneReplaced(policy: Policy, before: State, k: Key, v: Value, st: Status, after: State,
                     replaced: seq<Key>, picked: seq<nat>, order: seq<nat>)
    requires before.arena.Valid() && |v| >= 1
    requires SetSpec(policy, before, k, v, [], st, after, replaced, picked, order)
    ensures !Evicts(before, k, v) || picked == [] ==> replaced == []
    ensures st == StatusNoSpace ==> after == before
  {
  }

  /** The map after the second call: whatever it replaces adds to what the first replaced. */
  lemma SecondOutcome(policy: Policy, before: State, k: Key, v: Value, replaced: seq<Key>, st: Status, after: State,
                      replaced': seq<Key>, picked: seq<nat>, order: seq<nat>, m: map<Key, Value>)
    requires before.arena.Valid() && |v| >= 1 && before.arena.Represents(m - KeySet(replaced) - {k})
    requires SetSpec(policy, before, k, v, replaced, st, after, replaced', picked, order)
    ensures st == StatusOk ==> after.arena.Represents((m - KeySet(replaced'))[k := v])
    ensures st != StatusOk ==> after.arena.Represents(m - KeySet(replaced') - {k})
  {
    var m1 := m - KeySet(replaced) - {k};
    SpecRefinesMap(policy, before, k, v, replaced, st, after, replaced', picked, order, m1);
    if st == StatusOk {
      if Evicts(before, k, v) {
        assert replaced <= replaced';
        MapsMerge(m, replaced, replaced', k, v);
      } else {
        MapsMerge(m, replaced, [], k, v);
      }
    } else {
      StillOut(policy, before, k, v, replaced, st, after, replaced', picked, order, m);
    }
  }

  /** A second call that fails leaves the key out and drops what was replaced, no more. */
  lemma StillOut(policy: Policy, before: State, k: Key, v: Value, replaced: seq<Key>, st: Status, after: State,
                 replaced': seq<Key>, picked: seq<nat>, order: seq<nat>, m: map<Key, Value>)
    requires before.arena.Valid() && |v| >= 1 && before.arena.Represents(m - KeySet(replaced) - {k})
    requires SetSpec(policy, before, k, v, replaced, st, after, replaced', picked, order) && st != StatusOk
    ensures after.arena.Represents(m - KeySet(replaced') - {k})
  {
    var m1 := m - KeySet(replaced) - {k};
    SpecRefinesMap(policy, before, k, v, replaced, st, after, replaced', picked, order, m1);
    ReplacedGrow(policy, before, k, v, replaced, st, after, replaced', picked, order);
    LessAndLess(m, replaced, replaced', k);
  }

  lemma ReplacedGrow(policy: Policy, before: State, k: Key, v: Value, replaced: seq<Key>, st: Status, after: State,
                     replaced': seq<Key>, picked: seq<nat>, order: seq<nat>)
    requires before.arena.Valid() && |v| >= 1
    requires SetSpec(policy, before, k, v, replaced, st, after, replaced', picked, order)
    ensures replaced <= replaced'
    ensures !Evicts(before, k, v) || picked == [] || st == StatusNoSpace ==> replaced' == replaced
  {
  }

  lemma LessAndLess(m: map<Key, Value>, a: seq<Key>, b: seq<Key>, k: Key)
    requires a <= b
    ensures m - KeySet(a) - {k} - KeySet(b) == m - KeySet(b) - {k}
    ensures m - KeySet(a) - {k} - {k} == m - KeySet(a) - {k}
    ensures m - KeySet(b) - {k} - {k} == m - KeySet(b) - {k}
  {
    assert forall j :: j in a ==> j in b;
  }

  lemma MapsMerge(m: map<Key, Value>, a: seq<Key>, b: seq<Key>, k: Key, v: Value)
    requires a <= b || b == []
    ensures (m - KeySet(a) - {k} - KeySet(b))[k := v] == (m - KeySet(if b == [] then a else b))[k := v]
    ensures (m - KeySet(a) - {k})[k := v] == (m - KeySet(a))[k := v]
  {
    assert forall j :: j in a && a <= b ==> j in b;
  }

  // ----- compaction and retry -----

  /** After an answer of StatusCompact the key is out of the table, so the usage reported -
      what is in use plus the slots of the value - fits exactly when the value does; then the
      compaction and the retry end in StatusOk with no eviction, using what was reported.
      When it does not fit, the retry never ends that way. */
  lemma RetryKeepsPromise(policy: Policy, s1: State, s2: State, k: Key, v: Value, replaced: seq<Key>,
                          final: Status, s3: State, replaced': seq<Key>, picked: seq<nat>, order: seq<nat>)
    requires s1.arena.Valid() && |v| >= 1 && !Has(s1.arena.table, k)
    requires s2.arena == Compacted(s1.arena) && s2.arena.Valid()
    requires SetSpec(policy, s2, k, v, replaced, final, s3, replaced', picked, order)
    ensures s3.arena.Valid() && s3.arena.es == s1.arena.es
    ensures var a, usage := s1.arena, s1.arena.total - s1.arena.Left() + Blocks(|v|, s1.arena.es);
            && (usage <= a.total ==> picked == [] && replaced' == replaced)
            && (usage <= a.total <==> final == StatusOk && usage == a.total - s3.arena.Left())
  {
    var a, n := s1.arena, Blocks(|v|, s1.arena.es);
    RetryAfterCompaction(a, k, v);
    CompactionSound(a);
    AttemptSound(s2.arena, k, v);
    AttemptSound(Evicted(s2.arena, replaced'), k, v);
    UsedAtMostTotal(s3.arena.table, a.es, a.total);
  }

  /** Whether an answer of StatusCompact can be kept shows before the SET: the usage it reports
      fits unless the SET needs an eviction that the atomic values are too few for. */
  lemma PromiseIff(policy: Policy, before: State, k: Key, v: Value, after: State,
                   replaced: seq<Key>, picked: seq<nat>, order: seq<nat>)
    requires InStep(before.arena, before.slots) && |v| >= 1
    requires Suited(policy, before.arena.table, before.arena.es, before.slots, before.arena.Left(), k, |v|)
    requires policy == BiggestSpaceUsed && before.arena.Left() > 0 ==> NoneUsed(before.slots)
    requires SetSpec(policy, before, k, v, [], StatusCompact, after, replaced, picked, order)
    ensures after.arena.es == before.arena.es && after.arena.total == before.arena.total
    ensures var a, n := before.arena, Blocks(|v|, before.arena.es);
            a.total - after.arena.Left() + n <= a.total
            <==> !Evicts(before, k, v) || n <= a.Left() + AtomicCount(a.table, a.es)
  {
    hide SetSpec;
    hide Attempt;
    hide ReqEntries;
    hide Blocks;
    hide Used;
    hide Purge;
    hide Tracks;
    hide WellPlaced;
    hide ExactPolicy;
    var a := before.arena;
    CompactComesOf(policy, before, k, v, after, replaced, picked, order);
    if Evicts(before, k, v) {
      EvictedLeft(policy, before, k, v, after, replaced, picked, order);
      TakenOut(Evicted(a, replaced), k, v);
    } else {
      TakenOut(a, k, v);
    }
  }

  lemma CompactComesOf(policy: Policy, before: State, k: Key, v: Value, after: State,
                       replaced: seq<Key>, picked: seq<nat>, order: seq<nat>)
    requires before.arena.Valid() && |v| >= 1
    requires SetSpec(policy, before, k, v, [], StatusCompact, after, replaced, picked, order)
    ensures (StatusCompact, after.arena)
         == Attempt(if Evicts(before, k, v) then Evicted(before.arena, replaced) else before.arena, k, v)
  {
    hide Chosen;
    hide PointerMoves;
    hide Attempt;
    hide SlotsAfter;
    hide Evicted;
  }

  /** The free slots after an eviction that is exact, or that there are too few atomic values for. */
  lemma EvictedLeft(policy: Policy, before: State, k: Key, v: Value, after: State,
                    replaced: seq<Key>, picked: seq<nat>, order: seq<nat>)
    requires InStep(before.arena, before.slots) && |v| >= 1 && Evicts(before, k, v)
    requires ExactPolicy(policy, before.slots, Blocks(|v|, before.arena.es), before.arena.Left())
    requires policy == BiggestSpaceUsed && before.arena.Left() > 0 ==> NoneUsed(before.slots)
    requires SetSpec(policy, before, k, v, [], StatusCompact, after, replaced, picked, order)
    ensures var a, n := before.arena, Blocks(|v|, before.arena.es);
            Evicted(a, replaced)
            == (if n <= a.Left() + AtomicCount(a.table, a.es) then Evicted(a, KeysAt(before.slots, picked)) else a)
            && (n <= a.Left() + AtomicCount(a.table, a.es) ==> Evicted(a, replaced).Left() == n)
  {
    hide Attempt;
    hide SlotsAfter;
    hide PointerMoves;
    hide ExactPolicy;
    hide Bsu;
    hide Picked;
    var a, slots, n := before.arena, before.slots, Blocks(|v|, before.arena.es);
    UsedAtMostTotal(a.table, a.es, a.total);
    NoneReplaced(policy, before, k, v, StatusCompact, after, replaced, picked, order);
    if n <= a.Left() + AtomicCount(a.table, a.es) {
      ChosenExact(policy, a, slots, before.pointer, n, picked, order);
      EvictionFrees(a.table, a.es, a.total, slots, picked);
      assert [] + KeysAt(slots, picked) == KeysAt(slots, picked);
    } else {
      assert Evicted(a, []) == a;
    }
  }

  lemma TakenOut(a: Arena, k: Key, v: Value)
    requires a.Valid() && |v| >= 1 && Attempt(a, k, v).0 == StatusCompact
    ensures Attempt(a, k, v).1.es == a.es && Attempt(a, k, v).1.total == a.total
    ensures Attempt(a, k, v).1.Left()
         == a.Left() + if Has(a.table, k) then Blocks(EntryOf(a.table, k).size, a.es) else 0
  {
    RemoveWellPlaced(a.table, a.es, a.total, k);
  }

  // ----- agreement -----

  /** The policies that evict exactly what is missing: BSU when no slot is free, and when one is
      missing and one atomic value is bigger than all the others. */
  predicate ExactPolicy(policy: Policy, slots: seq<Slot>, needed: nat, left: int) {
    match policy
    case BiggestSpaceUsed => left == 0 || (needed == left + 1 && exists x: nat :: x < |slots| && Alone(slots, x))
    case UnknownPolicy => false
    case _ => true
  }

  /** A SET that evicts nothing, or exactly what is missing. */
  predicate Suited(policy: Policy, t: seq<Entry>, es: nat, slots: seq<Slot>, left: int, k: Key, size: nat)
    requires es >= 1
  {
    DiffEntries(t, es, k, size) <= left || ExactPolicy(policy, slots, Blocks(size, es), left)
  }

  predicate AbsentOrSameBlocks(t: seq<Entry>, es: nat, k: Key, size: nat)
    requires es >= 1
  {
    Has(t, k) ==> Blocks(size, es) == Blocks(EntryOf(t, k).size, es)
  }

  /** With agreeing tables each exact policy evicts exactly the number of atomic keys that
      are missing, each of them once. */
  lemma ChosenExact(policy: Policy, a: Arena, slots: seq<Slot>, pointer: nat, needed: nat, picked: seq<nat>,
                    order: seq<nat>)
    requires InStep(a, slots) && ExactPolicy(policy, slots, needed, a.Left())
    requires policy == BiggestSpaceUsed && a.Left() > 0 ==> NoneUsed(slots)
    requires Chosen(policy, slots, pointer, needed, a.Left(), AtomicCount(a.table, a.es), picked, order)
    requires 0 <= a.Left() && CanEvict(needed, a.Left(), AtomicCount(a.table, a.es))
    ensures Victims(slots, picked) && |picked| == needed - a.Left()
  {
    hide Picked;
    hide Bsu;
    hide AtomicCount;
    hide Used;
    hide Tracks;
    var n := needed - a.Left();
    ChosenVictims(policy, slots, pointer, needed, a.Left(), AtomicCount(a.table, a.es), picked, order);
    match policy
    case Circular =>
      CircularVisitsAll(a.total, pointer);
      OrderExact(a, slots, Rotation(AllSlots(a.total), pointer), n);
    case LeastRecentlyUsed => OrderExact(a, slots, order, n);
    case BiggestSpaceUsed => BsuExact(a.table, a.es, a.total, slots, order, needed, a.Left(), pointer);
  }

  lemma OrderExact(a: Arena, slots: seq<Slot>, order: seq<nat>, n: nat)
    requires InStep(a, slots) && n <= AtomicCount(a.table, a.es)
    requires InRange(order, |slots|) && forall x: nat :: x < |slots| ==> x in order
    ensures |Picked(slots, order, n)| == n
  {
    EnoughVictims(a.table, a.es, a.total, slots, order, n);
  }

  /** From agreeing tables, a SET of an absent key, or of a live one with as many slots as
      before, is refused with nothing changed, or ends with agreeing tables, or asks for a
      compaction with tables that are ready for the retry. It never ends in StatusError. */
  lemma SetAgrees(policy: Policy, before: State, k: Key, v: Value, st: Status, after: State,
                  replaced: seq<Key>, picked: seq<nat>, order: seq<nat>)
    requires InStep(before.arena, before.slots) && NoneUsed(before.slots) && |v| >= 1 && k !in NO_KEYS
    requires Suited(policy, before.arena.table, before.arena.es, before.slots, before.arena.Left(), k, |v|)
    requires AbsentOrSameBlocks(before.arena.table, before.arena.es, k, |v|)
    requires SetSpec(policy, before, k, v, [], st, after, replaced, picked, order)
    ensures || (st == StatusNoSpace && after == before)
            || (st == StatusOk && InStep(after.arena, after.slots) && NoneUsed(after.slots))
            || (st == StatusCompact && after.arena.Valid()
                && ReadyFor(after.arena, after.slots, k, Blocks(|v|, before.arena.es)))
    ensures st != StatusNoSpace ==>
              |replaced| == if Evicts(before, k, v) then Blocks(|v|, before.arena.es) - before.arena.Left() else 0
  {
    hide Attempt;
    hide SlotsAfter;
    hide ReqEntries;
    hide PointerMoves;
    hide ExactPolicy;
    hide Chosen;
    var a, slots := before.arena, before.slots;
    UsedAtMostTotal(a.table, a.es, a.total);
    NoneReplaced(policy, before, k, v, st, after, replaced, picked, order);
    if Has(a.table, k) {
      SameBlocksAgrees(a, slots, k, v);
      OkInStep(a, slots, k, v);
    } else if st != StatusNoSpace {
      if Evicts(before, k, v) {
        ChosenExact(policy, a, slots, before.pointer, Blocks(|v|, a.es), picked, order);
        assert replaced == KeysAt(slots, picked);
        EvictionMakesReady(a, slots, picked, k, Blocks(|v|, a.es));
        ReadyAttempt(Evicted(a, replaced), Marked(slots, picked), k, v);
      } else {
        AbsentKeyNotCarried(a, slots, k);
        ReadyAttempt(a, slots, k, v);
      }
    }
  }

  /** An attempt on tables that are ready for the key. */
  lemma ReadyAttempt(a: Arena, slots: seq<Slot>, k: Key, v: Value)
    requires a.Valid() && |v| >= 1 && ReadyFor(a, slots, k, Blocks(|v|, a.es))
    ensures var (st, b) := Attempt(a, k, v);
            || (st == StatusOk && InStep(b, SlotsAfter(a, slots, k, v)) && NoneUsed(SlotsAfter(a, slots, k, v)))
            || (st == StatusCompact && b == a && SlotsAfter(a, slots, k, v) == slots)
  {
    AbsentAttempt(a, k, v);
    if Attempt(a, k, v).0 == StatusOk {
      AttemptSound(a, k, v);
      PlacementAgrees(a, slots, k, v);
    }
  }

  lemma OkInStep(a: Arena, slots: seq<Slot>, k: Key, v: Value)
    requires InStep(a, slots) && |v| >= 1 && k !in NO_KEYS && Attempt(a, k, v).0 == StatusOk
    requires Agrees(Attempt(a, k, v).1.table, a.es, SlotsAfter(a, slots, k, v))
    ensures InStep(Attempt(a, k, v).1, SlotsAfter(a, slots, k, v))
  {
    AttemptSound(a, k, v);
    PutKeepsOrdinary(a.table, k, |v|, Spot(a.table, a.es, a.total, k, |v|));
  }

  /** The retry on ready tables succeeds and ends with agreeing tables. */
  lemma RetryAgrees(policy: Policy, s1: State, s2: State, k: Key, v: Value, replaced: seq<Key>,
                    final: Status, s3: State, replaced': seq<Key>, picked: seq<nat>, order: seq<nat>)
    requires s1.arena.Valid() && |v| >= 1 && ReadyFor(s1.arena, s1.slots, k, Blocks(|v|, s1.arena.es))
    requires s2.arena == Compacted(s1.arena) && s2.arena.Valid()
    requires s2.slots == CompactedSlots(s1.arena.table, s1.arena.es, s1.slots, |s1.arena.table|)
    requires SetSpec(policy, s2, k, v, replaced, final, s3, replaced', picked, order)
    ensures final == StatusOk && InStep(s3.arena, s3.slots) && NoneUsed(s3.slots) && replaced' == replaced
  {
    CompactionKeepsReady(s1.arena, s1.slots, k, Blocks(|v|, s1.arena.es));
    CompactionSound(s1.arena);
    RetryAfterCompaction(s1.arena, k, v);
    ReadyAttempt(s2.arena, s2.slots, k, v);
  }
}
