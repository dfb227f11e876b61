/** The Planificador: five queues, the lock table, the waiter list and the flags that the
    main loop reacts to, for the algorithms that do not preempt (FIFO, SJFSD, HRRN). */
module Planner {
  import opened Locks
  import opened Lists
  import opened Release
  import opened PlannerTables
  import opened PlannerSteps
  import opened PlannerTurns
  import opened QueueOrder

  /** What the main loop can be woken by, and the console commands between two turns. */
  datatype Event =
    | Connect(fd: int)
    | Query(key: Key)
    | BlockKey
    | UnlockKey(key: Key)
    | Report(outcome: Outcome)
    | Idle
    | Kill(esi: int)
    | ConsoleBlock(esi: int, key: Key)
    | ConsoleUnblock(key: Key)

  class Planificador {
    /** FIFO keeps the order of arrival; the other algorithms sort the ready queue by a rank
        that depends on the ESI and on how far the run has gone. */
    const fifo: bool
    const rank: (int, nat) -> real

    var newQueue: seq<int>
    var ready: seq<int>
    var execution: seq<int>
    var blocked: seq<int>
    var finished: seq<int>
    var bursts: seq<int>
    var locks: seq<Lock>
    var waiters: seq<Waiter>

    var rescheduleFlag: bool
    var unlockFlag: bool
    var killedFlag: bool
    var killed: seq<int>
    /** The other flags and what they announce. */
    var pending: Pending
    var lastKey: Key
    var executing: int
    var clock: nat

    ghost function T(): Tables
      reads this`ready, this`blocked, this`locks, this`waiters
    {
      Tables(ready, blocked, locks, waiters)
    }

    ghost function S(): Sched
      reads this`newQueue, this`execution, this`bursts, this`ready, this`blocked, this`locks, this`waiters,
            this`unlockFlag
    {
      Sched(newQueue, execution, bursts, T(), unlockFlag)
    }

    /** What holds between turns. */
    ghost predicate Inv()
      reads this`newQueue, this`execution, this`bursts, this`ready, this`blocked, this`locks, this`waiters,
            this`unlockFlag, this`executing, this`rescheduleFlag
    {
      && SchedInv(S())
      && (execution == [] || execution == [executing])
      && (rescheduleFlag ==> execution == [])
    }

    /** Console kills name live ESIs, each once. */
    predicate KillsLive()
      reads this
    {
      Mortal(killed, bursts)
    }

    /** At most one pending console block per live ESI, and none on a key of its own. */
    predicate BlocksFair()
      reads this
    {
      Fair(pending.blocks, bursts, locks)
    }

    constructor (fifo: bool, rank: (int, nat) -> real, initialLocks: seq<Key>)
      requires DistinctKeys(initialLocks)
      ensures Inv() && KillsLive() && BlocksFair()
      ensures locks == Map(initialLocks, SystemLock) && bursts == [] && rescheduleFlag
    {
      this.fifo, this.rank := fifo, rank;
      newQueue, ready, execution, blocked, finished, bursts, waiters := [], [], [], [], [], [], [];
      locks := Map(initialLocks, SystemLock);
      rescheduleFlag, unlockFlag, killedFlag, killed := true, false, false, [];
      pending := Pending("", false, [], false, false, []);
      lastKey, executing, clock := "", NOBODY, 0;
    }

    // ----- pieces of a turn -----

    /** `update_blocked_esi_queue`. */
    method UpdateBlockedQueue(k: Key, wasStore: bool)
      modifies this`ready, this`blocked, this`locks, this`waiters
      ensures T() == Unlock(old(T()), k, wasStore)
    {
      var e := FirstWaiter(waiters, k);
      if e == [] {
        locks := DropLock(locks, k);
      } else {
        waiters := DropWaiter(waiters, e[0]);
        blocked := TakeOut(blocked, e[0]);
        ready := ready + e;
        if wasStore {
          locks := DropLock(locks, k);
        }
      }
    }

    /** `release_resources`. */
    method ReleaseResources(e: int)
      modifies this`ready, this`blocked, this`locks, this`waiters, this`bursts, this`unlockFlag
      ensures T() == Released(old(T()), e) && bursts == TakeOut(old(bursts), e)
      ensures unlockFlag == (old(unlockFlag) && !Holds(old(locks), e))
    {
      HoldsOwned(locks, e);
      ReleaseKeys(OwnedKeys(locks, e), T());
      waiters := DropWaiter(waiters, e);
      locks := RemoveFirst(locks, LockOf(e));
      bursts := TakeOut(bursts, e);
    }

    method ReleaseKeys(keys: seq<Key>, ghost t: Tables)
      requires T() == t
      modifies this`ready, this`blocked, this`locks, this`waiters, this`unlockFlag
      ensures T() == UnlockAll(t, keys)
      ensures unlockFlag == (old(unlockFlag) && keys == [])
    {
      var i: nat := 0;
      assert keys[..0] == [];
      while i < |keys|
        invariant i <= |keys| && T() == UnlockAll(t, keys[..i])
        invariant unlockFlag == (old(unlockFlag) && i == 0)
      {
        i := ReleaseNext(keys, i, t);
      }
      assert keys[..i] == keys;
    }

    method ReleaseNext(keys: seq<Key>, i: nat, ghost t: Tables) returns (next: nat)
      requires i < |keys| && T() == UnlockAll(t, keys[..i])
      modifies this`ready, this`blocked, this`locks, this`waiters, this`unlockFlag
      ensures next == i + 1 && T() == UnlockAll(t, keys[..next]) && !unlockFlag
    {
      UnlockNext(t, keys, i);
      UpdateBlockedQueue(keys[i], true);
      unlockFlag := false;
      next := i + 1;
    }

    /** The queues without the ESI. */
    method Bury(e: int)
      modifies this`newQueue, this`ready, this`execution, this`blocked, this`finished
      ensures newQueue == TakeOut(old(newQueue), e) && execution == TakeOut(old(execution), e)
      ensures T() == Buried(old(T()), e) && finished == old(finished) + Corpse(old(S()), e)
    {
      hide TakeOut;
      TakeOutAbsent(newQueue, e);
      TakeOutAbsent(ready, e);
      TakeOutAbsent(execution, e);
      TakeOutAbsent(blocked, e);
      if e in newQueue {
        newQueue, finished := TakeOut(newQueue, e), finished + [e];
      }
      if e in ready {
        ready, finished := TakeOut(ready, e), finished + [e];
      }
      if e in execution {
        execution, finished := TakeOut(execution, e), finished + [e];
      }
      if e in blocked {
        blocked, finished := TakeOut(blocked, e), finished + [e];
      }
    }

    /** `sock_my_port`: bury the ESI wherever it is, then release what it had. */
    method SockMyPort(e: int)
      modifies this`newQueue, this`ready, this`execution, this`blocked, this`finished,
               this`locks, this`waiters, this`bursts, this`unlockFlag
      ensures S() == Socked(old(S()), e) && finished == old(finished) + Corpse(old(S()), e)
    {
      Bury(e);
      ReleaseResources(e);
    }

    /** `burn_esi_corpses`. A pending release of a stored key is forgotten exactly when one
        of the victims held a key. */
    method Burn(ended: bool)
      modifies this`newQueue, this`ready, this`execution, this`blocked, this`finished, this`locks,
               this`waiters, this`bursts, this`unlockFlag, this`killed, this`killedFlag
      ensures S() == SockAll(old(S()), Victims(old(killed), ended, executing))
      ensures finished == old(finished) + Corpses(old(S()), Victims(old(killed), ended, executing))
      ensures killed == [] && !killedFlag
    {
      if ended {
        killed := TakeOut(killed, executing);
      }
      SockEach(killed, S());
      killed, killedFlag := [], false;
    }

    method SockEach(victims: seq<int>, ghost s: Sched)
      requires S() == s
      modifies this`newQueue, this`ready, this`execution, this`blocked, this`finished, this`locks,
               this`waiters, this`bursts, this`unlockFlag
      ensures S() == SockAll(s, victims) && finished == old(finished) + Corpses(s, victims)
    {
      var i: nat := 0;
      assert victims[..0] == [];
      while i < |victims|
        invariant i <= |victims| && S() == SockAll(s, victims[..i])
        invariant finished == old(finished) + Corpses(s, victims[..i])
      {
        i := SockNextVictim(victims, i, s, old(finished));
      }
      assert victims[..i] == victims;
    }

    method SockNextVictim(victims: seq<int>, i: nat, ghost s: Sched, ghost f: seq<int>) returns (next: nat)
      requires i < |victims| && S() == SockAll(s, victims[..i]) && finished == f + Corpses(s, victims[..i])
      modifies this`newQueue, this`ready, this`execution, this`blocked, this`finished, this`locks,
               this`waiters, this`bursts, this`unlockFlag
      ensures next == i + 1 && S() == SockAll(s, victims[..next]) && finished == f + Corpses(s, victims[..next])
    {
      hide Socked;
      hide Corpse;
      assert victims[..i + 1][..i] == victims[..i];
      SockMyPort(victims[i]);
      next := i + 1;
    }

    /** The releases that are pending, after a STORE and by console. */
    method ReleasePending(ghost s: Sched, ghost p: Pending)
      requires S() == s && pending == p
      modifies this`ready, this`blocked, this`locks, this`waiters, this`unlockFlag, this`pending
      ensures S() == AfterReleases(s, p)
      ensures pending == p.(consoleUnlock := p.consoleUnlock && p.consoleKeys == [],
                            consoleKeys := if p.consoleUnlock then [] else p.consoleKeys)
    {
      if unlockFlag {
        UpdateBlockedQueue(pending.key, true);
        unlockFlag := false;
      }
      if pending.consoleUnlock {
        ReleaseByConsole(S());
      }
    }

    /** The flag is cleared by each release, so not when there is none. */
    method ReleaseByConsole(ghost s: Sched)
      requires S() == s
      modifies this`ready, this`blocked, this`locks, this`waiters, this`pending
      ensures S() == WakeAll(s, old(pending.consoleKeys))
      ensures pending == old(pending).(consoleUnlock := old(pending).consoleUnlock && old(pending).consoleKeys == [],
                                       consoleKeys := [])
    {
      var keys, i: nat := pending.consoleKeys, 0;
      assert keys[..0] == [];
      while i < |keys|
        invariant i <= |keys| && S() == WakeAll(s, keys[..i])
        invariant pending == old(pending).(consoleUnlock := old(pending).consoleUnlock && i == 0)
      {
        i := WakeNext(keys, i, s);
      }
      assert keys[..i] == keys;
      pending := pending.(consoleKeys := []);
    }

    method WakeNext(keys: seq<Key>, i: nat, ghost s: Sched) returns (next: nat)
      requires i < |keys| && S() == WakeAll(s, keys[..i])
      modifies this`ready, this`blocked, this`locks, this`waiters, this`pending
      ensures next == i + 1 && S() == WakeAll(s, keys[..next]) && pending == old(pending).(consoleUnlock := false)
    {
      assert keys[..i + 1][..i] == keys[..i];
      UpdateBlockedQueue(keys[i], false);
      pending := pending.(consoleUnlock := false);
      next := i + 1;
    }

    /** `update_new_esi_queue`. */
    method UpdateNewQueue()
      modifies this`newQueue, this`ready, this`pending
      ensures S() == Admitted(old(S())) && pending == old(pending).(arrivals := false)
      ensures newQueue == [] && ready == old(ready) + old(newQueue)
    {
      ready := ready + newQueue;
      newQueue, pending := [], pending.(arrivals := false);
    }

    /** One console block of an ESI that executes or is ready. */
    method BlockNamed(w: Waiter)
      modifies this`ready, this`execution, this`blocked, this`locks, this`waiters
      ensures S() == BlockOne(old(S()), w)
    {
      hide TakeOut;
      hide IsLocked;
      TakeOutAbsent(execution, w.esi);
      TakeOutAbsent(ready, w.esi);
      if IsLocked(locks, w.key) {
        waiters := waiters + [w];
        if w.esi in execution {
          execution := TakeOut(execution, w.esi);
        }
        if w.esi in ready {
          ready := TakeOut(ready, w.esi);
        }
        blocked := blocked + [w.esi];
      } else {
        locks := locks + [Lock(w.key, w.esi)];
      }
    }

    /** `block_by_console_procedure`. */
    method BlockByConsole()
      modifies this`ready, this`execution, this`blocked, this`locks, this`waiters, this`pending
      ensures S() == ConsoleBlocked(old(S()), old(pending.blocks))
      ensures pending == old(pending).(consoleBlock := false, blocks := [])
    {
      var blocks := pending.blocks;
      var i := if execution == [] then -1 else FirstIndex(blocks, WaiterOf(execution[0]));
      if i >= 0 {
        var w := blocks[i];
        blocks := DropWaiter(blocks, execution[0]);
        BlockNamed(w);
      }
      blocks := BlockReady(blocks);
      BlockOrphans(blocks);
      pending := pending.(consoleBlock := false, blocks := []);
    }

    method BlockReady(blocks: seq<Waiter>) returns (left: seq<Waiter>)
      modifies this`ready, this`execution, this`blocked, this`locks, this`waiters
      ensures var ours := Keep(blocks, OnReady(old(ready)));
              S() == BlockAll(old(S()), ours) && left == DropEach(blocks, ours)
    {
      ghost var s0 := S();
      var ours, i := Keep(blocks, OnReady(ready)), 0;
      left := blocks;
      assert ours[..0] == [];
      while i < |ours|
        invariant 0 <= i <= |ours| && S() == BlockAll(s0, ours[..i])
        invariant left == DropEach(blocks, ours[..i])
      {
        assert ours[..i + 1][..i] == ours[..i];
        BlockNamed(ours[i]);
        left := DropWaiter(left, ours[i].esi);
        i := i + 1;
      }
      assert ours[..i] == ours;
    }

    method BlockOrphans(blocks: seq<Waiter>)
      modifies this`locks
      ensures S() == OrphanAll(old(S()), blocks)
    {
      ghost var s0 := S();
      var i := 0;
      assert blocks[..0] == [];
      while i < |blocks|
        invariant 0 <= i <= |blocks| && S() == OrphanAll(s0, blocks[..i])
      {
        assert blocks[..i + 1][..i] == blocks[..i];
        var w := blocks[i];
        if w.esi !in bursts && !IsLocked(locks, w.key) {
          locks := locks + [Lock(w.key, SYSTEM)];
        }
        i := i + 1;
      }
      assert blocks[..i] == blocks;
    }

    /** The order an election goes by: FIFO as the queue stands, the others with an ESI of least
        rank in front. */
    predicate Elects(queue: seq<int>, order: seq<int>)
      reads this`clock
    {
      && order != [] && multiset(order) == multiset(queue)
      && if fifo then order == queue else forall e :: e in queue ==> rank(order[0], clock) <= rank(e, clock)
    }

    /** `reschedule`: FIFO elects the first ready ESI, the others one of least rank. */
    method Reschedule() returns (ghost order: seq<int>)
      requires ready != [] && execution == []
      modifies this`ready, this`execution, this`executing, this`rescheduleFlag
      ensures Elects(old(ready), order) && S() == Elected(old(S()), order)
      ensures executing == order[0] && !rescheduleFlag
    {
      order := ready;
      if !fifo {
        hide Ascending;
        hide TakeOut;
        var sorted := SortBy(ready, RankAt(rank, clock));
        FirstOfSorted(ready, sorted, RankAt(rank, clock));
        order := sorted;
        ready := sorted;
      }
      executing := ready[0];
      ready := TakeOut(ready, executing);
      execution := execution + [executing];
      rescheduleFlag := false;
    }

    // ----- the turns of the main loop -----

    /** What the report of the executing ESI itself does, from the tables s. */
    method HandleReport(o: Outcome, ghost s: Sched)
      requires S() == s && (o != Lost ==> s.execution == [executing] && executing !in s.t.ready)
      modifies this`newQueue, this`ready, this`execution, this`blocked, this`finished, this`locks,
               this`waiters, this`bursts, this`unlockFlag, this`rescheduleFlag
      ensures S() == AfterReport(s, o, executing, lastKey)
      ensures finished == old(finished) + if Dies(o) then Corpse(s, executing) else []
      ensures rescheduleFlag == (old(rescheduleFlag) || (Leaves(o) && S().t.ready != []))
      ensures o == IAmBlocked ==>
                FirstWaiter(waiters, lastKey)
                == if FirstWaiter(s.t.waiters, lastKey) == [] then [executing] else FirstWaiter(s.t.waiters, lastKey)
      ensures o == IAmBlocked ==> forall k :: k != lastKey ==> FirstWaiter(waiters, k) == FirstWaiter(s.t.waiters, k)
    {
      hide Parked;
      hide Socked;
      if o == IAmBlocked {
        ParkExecuting(s);
      } else if Dies(o) {
        SockMyPort(executing);
      }
      if Leaves(o) && ready != [] {
        rescheduleFlag := true;
      }
    }

    method ParkExecuting(ghost s: Sched)
      requires S() == s && executing !in ready
      modifies this`execution, this`blocked, this`waiters
      ensures S() == Parked(s, Waiter(executing, lastKey))
      ensures FirstWaiter(waiters, lastKey)
              == if FirstWaiter(s.t.waiters, lastKey) == [] then [executing] else FirstWaiter(s.t.waiters, lastKey)
      ensures forall k :: k != lastKey ==> FirstWaiter(waiters, k) == FirstWaiter(s.t.waiters, k)
    {
      TakeOutAbsent(ready, executing);
      forall k
        ensures FirstWaiter(waiters + [Waiter(executing, lastKey)], k)
                == if FirstWaiter(waiters, k) == [] && k == lastKey then [executing] else FirstWaiter(waiters, k)
      {
        FirstWaiterAppend(waiters, Waiter(executing, lastKey), k);
      }
      waiters := waiters + [Waiter(executing, lastKey)];
      execution, blocked := TakeOut(execution, executing), blocked + [executing];
    }

    /** The end of a script: its resources are released before it leaves the execution queue. */
    method FinishExecuting(ghost s: Sched)
      requires S() == s && execution == [executing] && executing !in ready && executing !in blocked
      modifies this`ready, this`execution, this`blocked, this`finished, this`locks, this`waiters,
               this`bursts, this`unlockFlag, this`executing
      ensures S() == Ended(s, old(executing)) && executing == NOBODY
      ensures finished == old(finished) + [old(executing)]
    {
      ReleaseResources(executing);
      finished := finished + [executing];
      execution := TakeOut(execution, executing);
      executing := NOBODY;
    }

    /** Releases, arrivals and console blocks, in this order; an idle turn leaves an arrival
        pending when nobody is new any more. */
    method Housekeeping(idle: bool, ghost s: Sched, ghost p: Pending)
      requires S() == s && pending == p
      modifies this`newQueue, this`ready, this`execution, this`blocked, this`locks, this`waiters,
               this`unlockFlag, this`pending
      ensures S() == Housekept(s, p) && pending == Cleared(p).(arrivals := p.arrivals && idle && s.newQueue == [])
    {
      ghost var s1 := AfterReleases(s, p);
      ReleasePending(s, p);
      AdmitPending(idle, s1);
      BlockPending(if p.arrivals then Admitted(s1) else s1);
    }

    method AdmitPending(idle: bool, ghost s: Sched)
      requires S() == s
      modifies this`newQueue, this`ready, this`pending
      ensures S() == if old(pending.arrivals) then Admitted(s) else s
      ensures pending == old(pending).(arrivals := old(pending.arrivals) && idle && s.newQueue == [])
    {
      assert ready + [] == ready;
      if pending.arrivals && (!idle || newQueue != []) {
        UpdateNewQueue();
      }
    }

    method BlockPending(ghost s: Sched)
      requires S() == s
      modifies this`ready, this`execution, this`blocked, this`locks, this`waiters, this`pending
      ensures S() == if old(pending.consoleBlock) then ConsoleBlocked(s, old(pending.blocks)) else s
      ensures pending == if old(pending.consoleBlock) then old(pending).(consoleBlock := false, blocks := [])
                         else old(pending)
    {
      if pending.consoleBlock {
        BlockByConsole();
      }
    }

    method BurnKilled(o: Outcome, ghost s1: Sched, ghost dead: seq<int>)
      requires S() == s1 && dead == Dead(killedFlag, killed, o, executing)
      modifies this`newQueue, this`ready, this`execution, this`blocked, this`finished, this`locks,
               this`waiters, this`bursts, this`unlockFlag, this`killed, this`killedFlag
      ensures S() == SockAll(s1, dead) && finished == old(finished) + Corpses(s1, dead)
      ensures !killedFlag && killed == if old(killedFlag) then [] else old(killed)
    {
      if killedFlag {
        Burn(o == Success(true));
      }
    }

    method FinishOrTidy(o: Outcome, ghost s2: Sched, ghost p: Pending)
      requires S() == s2 && pending == p
      requires o == Success(true) ==>
                 s2.execution == [executing] && executing !in s2.t.ready && executing !in s2.t.blocked
      modifies this
      ensures S() == Closed(s2, o, old(executing), p)
      ensures pending == if o != Success(true) && (s2.unlock || p.arrivals || p.consoleUnlock) then Cleared(p) else p
      ensures o != Success(true) ==> executing == old(executing)
      ensures rescheduleFlag == old(rescheduleFlag)
      ensures unchanged(`killed, `killedFlag, `lastKey, `clock)
      ensures finished == old(finished) + if o == Success(true) then [old(executing)] else []
    {
      hide Ended;
      hide Housekept;
      if o == Success(true) {
        FinishExecuting(s2);
      } else if unlockFlag || pending.arrivals || pending.consoleUnlock {
        Housekeeping(false, s2, p);
      }
    }

    /** A turn after a report, up to the election. The ghosts are the tables now, after the
        report and after the deaths, and what is pending. */
    method Attend(o: Outcome, ghost s: Sched, ghost p: Pending, ghost s1: Sched, ghost dead: seq<int>, ghost s2: Sched)
      requires S() == s && pending == p && (o != Lost ==> s.execution == [executing] && executing !in s.t.ready)
      requires s1 == AfterReport(s, o, executing, lastKey) && dead == Dead(killedFlag, killed, o, executing)
      requires s2 == SockAll(s1, dead)
      requires o == Success(true) ==>
                 s2.execution == [executing] && executing !in s2.t.ready && executing !in s2.t.blocked
      modifies this
      ensures S() == Closed(s2, o, old(executing), p)
      ensures pending == if o != Success(true) && (s2.unlock || p.arrivals || p.consoleUnlock) then Cleared(p) else p
      ensures o != Success(true) ==> executing == old(executing)
      ensures rescheduleFlag == (old(rescheduleFlag) || (Leaves(o) && s1.t.ready != []))
      ensures !killedFlag && killed == (if old(killedFlag) then [] else old(killed)) && unchanged(`lastKey, `clock)
      ensures finished == old(finished) + TurnCorpses(s, o, old(executing), s1, dead)
    {
      hide *;
      HandleReport(o, s);
      BurnKilled(o, s1, dead);
      FinishOrTidy(o, s2, p);
      TurnCorpsesIs(s, o, old(executing), s1, dead, old(finished));
    }

    method TakeTurn(o: Outcome, ghost s: Sched, ghost p: Pending, ghost r: Sched, ghost q: Pending)
      returns (ghost order: seq<int>)
      requires S() == s && pending == p && Attendable(s, o, executing, lastKey, killedFlag, killed)
      requires r == Turn(s, o, executing, lastKey, killedFlag, killed, p)
      requires q == TurnPending(s, o, executing, lastKey, killedFlag, killed, p)
      requires (rescheduleFlag ==> o == Lost) && (o != Success(false) ==> r.execution == [])
      modifies this
      ensures S() == AfterElection(r, order) && pending == q
      ensures order != [] ==> Elects(r.t.ready, order) && r.execution == [] && executing == order[0]
      ensures var s1 := AfterReport(s, o, old(executing), old(lastKey));
              order != [] <==> (old(rescheduleFlag) || (Leaves(o) && s1.t.ready != [])) && r.t.ready != []
      ensures order == [] && o == Success(false) ==> executing == old(executing)
      ensures rescheduleFlag ==> order == [] && r.execution == [] && ready == []
      ensures !killedFlag && killed == (if old(killedFlag) then [] else old(killed)) && unchanged(`lastKey)
      ensures var s1 := AfterReport(s, o, old(executing), old(lastKey));
              var dead := Dead(old(killedFlag), old(killed), o, old(executing));
              finished == old(finished) + TurnCorpses(s, o, old(executing), s1, dead)
    {
      ghost var dead := Dead(killedFlag, killed, o, executing);
      ghost var s1 := AfterReport(s, o, executing, lastKey);
      hide SockAll;
      hide AfterReport;
      hide Closed;
      hide Dead;
      hide Cleared;
      hide TurnCorpses;
      hide AfterElection;
      Attend(o, s, p, s1, dead, SockAll(s1, dead));
      clock := clock + 1;
      order := ElectIfFlagged(r);
    }

    /** A turn after a report of the executing ESI, or after the loss of its connection. */
    method Report(o: Outcome) returns (ghost order: seq<int>)
      requires Inv() && BlocksFair() && Reportable(S(), o, executing, lastKey, killed)
      modifies this
      ensures Inv()
      ensures pending
              == TurnPending(old(S()), o, old(executing), old(lastKey), old(killedFlag), old(killed), old(pending))
      ensures var r := Turn(old(S()), o, old(executing), old(lastKey), old(killedFlag), old(killed), old(pending));
              S() == AfterElection(r, order) && (order != [] ==> Elects(r.t.ready, order))
      ensures var r := Turn(old(S()), o, old(executing), old(lastKey), old(killedFlag), old(killed), old(pending));
              var s1 := AfterReport(old(S()), o, old(executing), old(lastKey));
              order != [] <==> (old(rescheduleFlag) || (Leaves(o) && s1.t.ready != [])) && r.t.ready != []
      ensures rescheduleFlag ==> ready == []
      ensures fifo && order != [] ==>
                var r := Turn(old(S()), o, old(executing), old(lastKey), old(killedFlag), old(killed), old(pending));
                execution == [r.t.ready[0]] && ready == r.t.ready[1..]
      // somebody runs after the others leave, if somebody was ready
      ensures (o == IAmBlocked || o == Success(true)) && old(ready) != [] ==> execution != [] || ready == []
      // in terms of single ESIs and of the notes: who is alive, who is taken in, what is seen to
      ensures forall x :: x in bursts <==>
                          && x in old(bursts) && !(old(killedFlag) && x in old(killed))
                          && !(x == old(executing) && (o.Lost? || o.BrokeTheLaw? || o == Success(true)))
      ensures old(pending.arrivals) && o != Success(true) ==> newQueue == []
      ensures !killedFlag && killed == (if old(killedFlag) then [] else old(killed)) && lastKey == old(lastKey)
      ensures old(killedFlag) ==> forall x :: x in old(killed) ==> x !in newQueue + ready + execution + blocked
      ensures finished == old(finished) + (if o == Lost || o == BrokeTheLaw then [old(executing)] else [])
                          + Dead(old(killedFlag), old(killed), o, old(executing))
                          + if o == Success(true) then [old(executing)] else []
      ensures o == Success(true) || !(old(unlockFlag) || old(pending.arrivals) || old(pending.consoleUnlock)) ==>
                pending == old(pending)
      ensures o != Success(true) && (old(pending.arrivals) || old(pending.consoleUnlock)) ==>
                !pending.arrivals && !pending.consoleBlock && (old(pending.consoleBlock) ==> pending.blocks == [])
                && (old(pending.consoleUnlock) ==> pending.consoleKeys == [])
    {
      hide Turn;
      hide TurnPending;
      hide SchedInv;
      hide AfterElection;
      hide AfterReport;
      hide Reportable;
      hide Attendable;
      ghost var s, e, p := S(), executing, pending;
      ghost var r := Turn(s, o, e, lastKey, killedFlag, killed, p);
      TurnKeeps(s, o, e, lastKey, killedFlag, killed, p);
      ReportAttendable(s, o, e, lastKey, killedFlag, killed);
      ReadyKept(s, o, e, lastKey, killed);
      AllBuried(s, o, e, lastKey, killedFlag, killed, finished);
      order := TakeTurn(o, s, p, r, TurnPending(s, o, e, lastKey, killedFlag, killed, p));
      ElectionKeeps(r, order);
      ReportOutline(s, o, e, old(lastKey), old(killedFlag), old(killed), p, order, S());
    }

    method ElectIfFlagged(ghost r: Sched) returns (ghost order: seq<int>)
      requires S() == r && (rescheduleFlag ==> r.execution == [])
      modifies this`ready, this`execution, this`executing, this`rescheduleFlag
      ensures S() == AfterElection(r, order)
      ensures order != [] ==> r.execution == [] && Elects(r.t.ready, order) && executing == order[0] && !rescheduleFlag
      ensures order != [] <==> old(rescheduleFlag) && r.t.ready != []
      ensures order == [] ==> executing == old(executing) && rescheduleFlag == old(rescheduleFlag)
      ensures rescheduleFlag ==> ready == []
    {
      order := [];
      if rescheduleFlag && ready != [] {
        order := Reschedule();
      }
    }

    /** A turn with nobody in execution: it ends with somebody in execution unless no ESI is ready. */
    method Tick() returns (ghost order: seq<int>)
      requires Inv() && KillsLive() && BlocksFair() && execution == []
      modifies this
      ensures Inv() && (execution == [] ==> ready == [])
      ensures pending == IdlePending(old(S()), old(killedFlag), old(killed), old(pending))
      ensures var r := IdleTurn(old(S()), old(killedFlag), old(killed), old(pending));
              S() == AfterElection(r, order) && if r.t.ready == [] then order == [] else Elects(r.t.ready, order)
      // in terms of single ESIs and of the notes, as for a report
      ensures forall x :: x in bursts <==> x in old(bursts) && !(old(killedFlag) && x in old(killed))
      ensures old(pending.arrivals) ==> newQueue == []
      ensures !killedFlag && killed == (if old(killedFlag) then [] else old(killed)) && lastKey == old(lastKey)
      ensures old(killedFlag) ==> forall x :: x in old(killed) ==> x !in newQueue + ready + execution + blocked
      ensures finished == old(finished) + if old(killedFlag) then old(killed) else []
      ensures !pending.consoleBlock && (old(pending.consoleBlock) ==> pending.blocks == [])
      ensures old(pending.consoleUnlock) ==> pending.consoleKeys == []
      // with nothing but an arrival to see to: the ready ESIs and then the new ones, one of them elected
      ensures old(pending.arrivals && !killedFlag && !unlockFlag && !pending.consoleUnlock && !pending.consoleBlock) ==>
                Chosen(old(ready + newQueue), execution, ready)
    {
      hide IdleTurn;
      hide IdlePending;
      hide SchedInv;
      hide AfterElection;
      hide SockAll;
      hide Housekept;
      ghost var s, p := S(), pending;
      ghost var r := IdleTurn(s, killedFlag, killed, p);
      IdleKeeps(s, killedFlag, killed, p);
      IdleLive(s, killedFlag, killed, p);
      IdleNotes(s, killedFlag, killed, p);
      IdleIs(s, killedFlag, killed, p);
      CorpsesAre(s, if killedFlag then killed else []);
      if p.arrivals {
        IdleTakesIn(s, killedFlag, killed, p);
        ArrivalsOnly(s, killed, p);
      }
      order := TickOver(s, p, SockAll(s, if killedFlag then killed else []), r);
      ElectionKeeps(r, order);
      ElectionMoves(r, order);
      OnlyLiveQueued(S());
      ElectedChosen(r.t.ready, order);
    }

    lemma ElectedChosen(queue: seq<int>, order: seq<int>)
      requires if queue == [] then order == [] else Elects(queue, order)
      ensures if order == [] then Chosen(queue, [], queue) else Chosen(queue, [order[0]], order[1..])
    {
      if order != [] {
        assert order == [order[0]] + order[1..];
      }
    }

    /** One of the queue was put in execution, if there is any: the first one under FIFO, one of
        least rank otherwise; the others are left, under FIFO in their order. */
    ghost predicate Chosen(queue: seq<int>, execution: seq<int>, left: seq<int>)
      reads this`clock
    {
      if queue == [] then execution == [] && left == []
      else
        && |execution| == 1 && multiset(left) + multiset{execution[0]} == multiset(queue)
        && if fifo then execution[0] == queue[0] && left == queue[1..]
           else forall e :: e in queue ==> rank(execution[0], clock) <= rank(e, clock)
    }

    /** The turn itself; the ghosts are the tables now, after the deaths and at the end, and
        what is pending. */
    method TickOver(ghost s: Sched, ghost p: Pending, ghost s2: Sched, ghost r: Sched) returns (ghost order: seq<int>)
      requires S() == s && pending == p && s2 == SockAll(s, if killedFlag then killed else [])
      requires r == Housekept(s2, p) && r.execution == []
      modifies this
      ensures S() == AfterElection(r, order) && (execution == [] ==> ready == [])
      ensures pending == Cleared(p).(arrivals := p.arrivals && s2.newQueue == [])
      ensures if r.t.ready == [] then order == []
              else Elects(r.t.ready, order) && executing == order[0] && !rescheduleFlag
      ensures order == [] ==> rescheduleFlag == old(rescheduleFlag)
      ensures !killedFlag && killed == (if old(killedFlag) then [] else old(killed)) && unchanged(`lastKey, `clock)
      ensures finished == old(finished) + Corpses(s, if old(killedFlag) then old(killed) else [])
    {
      hide *;
      BurnIdle(s, s2);
      Housekeeping(true, s2, p);
      order := ElectIfReady(r);
    }

    method BurnIdle(ghost s: Sched, ghost s2: Sched)
      requires S() == s && s2 == SockAll(s, if killedFlag then killed else [])
      modifies this`newQueue, this`ready, this`execution, this`blocked, this`finished, this`locks,
               this`waiters, this`bursts, this`unlockFlag, this`killed, this`killedFlag
      ensures S() == s2 && !killedFlag && killed == if old(killedFlag) then [] else old(killed)
      ensures finished == old(finished) + Corpses(s, if old(killedFlag) then old(killed) else [])
    {
      if killedFlag {
        Burn(false);
      }
    }

    method ElectIfReady(ghost r: Sched) returns (ghost order: seq<int>)
      requires S() == r && r.execution == []
      modifies this`ready, this`execution, this`executing, this`rescheduleFlag
      ensures S() == AfterElection(r, order) && (execution == [] ==> ready == [])
      ensures if r.t.ready == [] then order == []
              else Elects(r.t.ready, order) && executing == order[0] && !rescheduleFlag
      ensures order == [] ==> rescheduleFlag == old(rescheduleFlag)
    {
      order := [];
      if ready != [] {
        order := Reschedule();
      }
    }

    // ----- the other events -----

    /** A new ESI connects. */
    method Connect(fd: int)
      requires Inv() && fd >= 0 && fd !in bursts
      modifies this`newQueue, this`bursts, this`pending
      ensures Inv() && S() == Arrived(old(S()), fd) && pending == old(pending).(arrivals := true)
      ensures newQueue == old(newQueue) + [fd] && bursts == old(bursts) + [fd]
    {
      ArriveKeeps(S(), fd);
      newQueue, bursts, pending := newQueue + [fd], bursts + [fd], pending.(arrivals := true);
    }

    /** The first arrival: on a planner with empty queues and nothing pending the new ESI runs after
        the next turn. */
    method ConnectFirst(fd: int)
      requires Inv() && fd >= 0 && fd !in bursts && newQueue == [] && ready == [] && execution == []
      requires !killedFlag && killed == [] && !unlockFlag && !pending.consoleUnlock
      requires !pending.consoleBlock && pending.blocks == []
      modifies this
      ensures Inv() && execution == [fd] && ready == [] && newQueue == [] && bursts == old(bursts) + [fd]
    {
      Connect(fd);
      assert ready + newQueue == [fd];
      ghost var _ := Tick();
    }

    /** The Coordinador asks whether a key is locked. */
    method Query(k: Key) returns (isBlocked: bool)
      modifies this`lastKey
      ensures isBlocked == IsLocked(locks, k) && lastKey == k
    {
      lastKey := k;
      isBlocked := IsLocked(locks, k);
    }

    /** The Coordinador asks whether the executing ESI owns the last key asked for. */
    method QueryOwner() returns (owned: bool)
      requires execution != []
      ensures owned == Owns(locks, execution[0], lastKey)
    {
      owned := Owns(locks, execution[0], lastKey);
    }

    /** A granted GET: the executing ESI takes the last key asked for. */
    method BlockLastKey()
      requires Inv() && execution != [] && !IsLocked(locks, lastKey)
      modifies this`locks
      ensures Inv() && S() == Locked(old(S()), Lock(lastKey, executing))
      ensures Owns(locks, executing, lastKey) && locks == old(locks) + [Lock(lastKey, executing)]
    {
      assert Active(S(), executing);
      ActiveElsewhere(S(), executing);
      LockKeeps(S(), Lock(lastKey, executing));
      locks := locks + [Lock(lastKey, execution[0])];
      assert locks[|locks| - 1] == Lock(lastKey, executing);
    }

    /** The conditions that the source puts on an event. */
    predicate Allowed(ev: Event)
      reads this
    {
      match ev
      case Connect(fd) => fd >= 0 && fd !in bursts
      case BlockKey => execution != [] && !IsLocked(locks, lastKey)
      case Report(o) =>
        var s := Sched(newQueue, execution, bursts, Tables(ready, blocked, locks, waiters), unlockFlag);
        BlocksFair() && Reportable(s, o, executing, lastKey, killed)
      case Idle => execution == [] && KillsLive() && BlocksFair()
      case _ => true
    }

    method Step(ev: Event)
      requires Inv() && Allowed(ev)
      modifies this
      ensures Inv()
    {
      hide SchedInv;
      match ev
      case Report(o) => ghost var _ := Report(o);
      case Idle => ghost var _ := Tick();
      case Connect(fd) => Connect(fd);
      case BlockKey => BlockLastKey();
      case _ =>
        FlagApart(S(), unlockFlag || ev.UnlockKey?);
        Note(ev);
    }

    /** The events that leave the queues and locks alone; they only leave notes. */
    method Note(ev: Event)
      requires ev.Query? || ev.UnlockKey? || ev.Kill? || ev.ConsoleBlock? || ev.ConsoleUnblock?
      modifies this`lastKey, this`unlockFlag, this`killedFlag, this`killed, this`pending
      ensures unlockFlag == (old(unlockFlag) || ev.UnlockKey?) && lastKey == if ev.Query? then ev.key else old(lastKey)
      ensures killedFlag == (old(killedFlag) || ev.Kill?)
      ensures killed == if ev.Kill? && ev.esi != NOBODY then old(killed) + [ev.esi] else old(killed)
      ensures pending ==
              match ev
              case UnlockKey(k) => old(pending).(key := k)
              case ConsoleBlock(e, k) =>
                old(pending).(consoleBlock := true, blocks := old(pending.blocks) + [Waiter(e, k)])
              case ConsoleUnblock(k) =>
                old(pending).(consoleUnlock := true, consoleKeys := old(pending.consoleKeys) + [k])
              case _ => old(pending)
    {
      match ev
      case Query(k) => var _ := Query(k);
      case UnlockKey(k) => pending, unlockFlag := pending.(key := k), true;
      case Kill(e) =>
        killedFlag := true;
        if e != NOBODY {
          killed := killed + [e];
        }
      case ConsoleBlock(e, k) => pending := pending.(consoleBlock := true, blocks := pending.blocks + [Waiter(e, k)]);
      case ConsoleUnblock(k) => pending := pending.(consoleUnlock := true, consoleKeys := pending.consoleKeys + [k]);
    }

    /** Any run: the invariant holds for as long as the events are allowed. */
    method Run(events: seq<Event>) returns (n: nat)
      requires Inv()
      modifies this
      ensures Inv() && n <= |events| && (n < |events| ==> !Allowed(events[n]))
    {
      n := 0;
      while n < |events| && Allowed(events[n])
        invariant Inv() && n <= |events|
      {
        Step(events[n]);
        n := n + 1;
      }
    }
  }

  /** What a turn puts on the queue of the finished: an ESI that dies of its report, the killed, and one
      that ends its script. */
  function TurnCorpses(s: Sched, o: Outcome, e: int, s1: Sched, dead: seq<int>): seq<int> {
    (if Dies(o) then Corpse(s, e) else []) + Corpses(s1, dead) + if o == Success(true) then [e] else []
  }

  lemma TurnCorpsesIs(s: Sched, o: Outcome, e: int, s1: Sched, dead: seq<int>, f: seq<int>)
    ensures f + TurnCorpses(s, o, e, s1, dead)
            == ((f + if Dies(o) then Corpse(s, e) else []) + Corpses(s1, dead)) + if o == Success(true) then [e] else []
  {
    hide Corpse;
    hide Corpses;
    Associate(f, if Dies(o) then Corpse(s, e) else [], Corpses(s1, dead), if o == Success(true) then [e] else []);
  }

  lemma Associate(f: seq<int>, a: seq<int>, b: seq<int>, c: seq<int>)
    ensures f + (a + b + c) == f + a + b + c
  {
  }

  /** Who leaves is put on the queue of the finished, once and in order. */
  lemma TurnBuries(s: Sched, o: Outcome, e: int, lastKey: Key, dead: seq<int>)
    requires SchedInv(s) && Reportable(s, o, e, lastKey, dead) && (s.execution == [] || s.execution == [e])
    ensures TurnCorpses(s, o, e, AfterReport(s, o, e, lastKey), dead)
            == (if Dies(o) then [e] else []) + dead + if o == Success(true) then [e] else []
  {
    ReportShrinks(s, o, e, lastKey, dead);
    ReporterLives(s, o, e, lastKey, dead);
    CorpseOnce(s, e);
    CorpsesAre(AfterReport(s, o, e, lastKey), dead);
  }

  lemma AllBuried(s: Sched, o: Outcome, e: int, lastKey: Key, killedFlag: bool, killed: seq<int>, f: seq<int>)
    requires SchedInv(s) && Reportable(s, o, e, lastKey, killed) && (s.execution == [] || s.execution == [e])
    ensures var dead := Dead(killedFlag, killed, o, e);
            f + TurnCorpses(s, o, e, AfterReport(s, o, e, lastKey), dead)
            == f + (if o == Lost || o == BrokeTheLaw then [e] else []) + dead + if o == Success(true) then [e] else []
  {
    hide SchedInv;
    hide Reportable;
    hide AfterReport;
    hide TurnCorpses;
    var dead := Dead(killedFlag, killed, o, e);
    DeadReportable(s, o, e, lastKey, killedFlag, killed);
    TurnBuries(s, o, e, lastKey, dead);
    Associate(f, if Dies(o) then [e] else [], dead, if o == Success(true) then [e] else []);
  }

  /** An election only moves the head of the queue it goes by. */
  lemma ElectionMoves(r: Sched, order: seq<int>)
    ensures var v := AfterElection(r, order);
            && v.newQueue == r.newQueue && v.bursts == r.bursts && (order == [] ==> v == r)
            && (order != [] ==> v.t.ready == order[1..] && v.execution == r.execution + [order[0]])
  {
    if order != [] {
      ElectTakesHead(r, order);
    }
  }

  /** A turn after a report in terms of single ESIs and of the notes. */
  lemma ReportOutline(s: Sched, o: Outcome, e: int, lastKey: Key, killedFlag: bool, killed: seq<int>, p: Pending,
                      order: seq<int>, v: Sched)
    requires SchedInv(s) && Reportable(s, o, e, lastKey, killed) && (s.execution == [] || s.execution == [e])
    requires SchedInv(v) && v == AfterElection(Turn(s, o, e, lastKey, killedFlag, killed, p), order)
    ensures var r := Turn(s, o, e, lastKey, killedFlag, killed, p);
            && (order == [] ==> v == r)
            && (order != [] ==> v.t.ready == order[1..] && v.execution == r.execution + [order[0]])
    ensures forall x :: x in v.bursts <==>
                        && x in s.bursts && !(killedFlag && x in killed)
                        && !(x == e && (o.Lost? || o.BrokeTheLaw? || o == Success(true)))
    ensures p.arrivals && o != Success(true) ==> v.newQueue == []
    ensures killedFlag ==> forall x :: x in killed ==> x !in v.newQueue + v.t.ready + v.execution + v.t.blocked
    ensures var q := TurnPending(s, o, e, lastKey, killedFlag, killed, p);
            && (o == Success(true) || !(s.unlock || p.arrivals || p.consoleUnlock) ==> q == p)
            && (o != Success(true) && (p.arrivals || p.consoleUnlock) ==>
                  && !q.arrivals && !q.consoleBlock && (p.consoleBlock ==> q.blocks == [])
                  && (p.consoleUnlock ==> q.consoleKeys == []))
  {
    hide Turn;
    hide TurnPending;
    hide SchedInv;
    hide Reportable;
    TurnLive(s, o, e, lastKey, killedFlag, killed, p);
    TurnNotes(s, o, e, lastKey, killedFlag, killed, p);
    if p.arrivals && o != Success(true) {
      TurnTakesIn(s, o, e, lastKey, killedFlag, killed, p);
    }
    ElectionMoves(Turn(s, o, e, lastKey, killedFlag, killed, p), order);
    OnlyLiveQueued(v);
  }

  /** The report of an ESI that blocks or ends leaves the ready queue alone. */
  lemma ReadyKept(s: Sched, o: Outcome, e: int, lastKey: Key, killed: seq<int>)
    requires SchedInv(s) && Reportable(s, o, e, lastKey, killed)
    ensures o == IAmBlocked || o == Success(true) ==> AfterReport(s, o, e, lastKey).t.ready == s.t.ready
  {
    if o == IAmBlocked {
      ReporterLives(s, o, e, lastKey, killed);
      TakeOutAbsent(s.t.ready, e);
    }
  }

  lemma OnlyLiveQueued(s: Sched)
    requires SchedInv(s)
    ensures forall x :: x !in s.bursts ==> x !in s.newQueue + s.t.ready + s.execution + s.t.blocked
  {
    forall x | x !in s.bursts
      ensures x !in s.newQueue + s.t.ready + s.execution + s.t.blocked
    {
      InvMeans(s, x);
      assert x in s.newQueue ==> multiset(s.newQueue)[x] > 0;
      assert x in s.t.ready ==> multiset(s.t.ready)[x] > 0;
      assert x in s.execution ==> multiset(s.execution)[x] > 0;
      assert x in s.t.blocked ==> multiset(s.t.blocked)[x] > 0;
    }
  }

  /** What the pieces of a turn ask of the tables: the ESI that reports is in no other queue. */
  ghost predicate Attendable(s: Sched, o: Outcome, e: int, lastKey: Key, killedFlag: bool, killed: seq<int>) {
    var dead := Dead(killedFlag, killed, o, e);
    var s2 := AfterDeaths(s, o, e, lastKey, dead);
    && (o != Lost ==> s.execution == [e] && e !in s.t.ready)
    && (o == Success(true) ==> s2.execution == [e] && e !in s2.t.ready && e !in s2.t.blocked)
  }

  lemma ReportAttendable(s: Sched, o: Outcome, e: int, lastKey: Key, killedFlag: bool, killed: seq<int>)
    requires SchedInv(s) && Reportable(s, o, e, lastKey, killed)
    requires s.execution == [] || s.execution == [e]
    ensures Attendable(s, o, e, lastKey, killedFlag, killed)
  {
    var dead := Dead(killedFlag, killed, o, e);
    DeadReportable(s, o, e, lastKey, killedFlag, killed);
    ReportShrinks(s, o, e, lastKey, dead);
    DeathsKeep(s, o, e, lastKey, dead);
    LiveParts(s);
    LiveParts(AfterDeaths(s, o, e, lastKey, dead));
    if o == Success(true) {
      ActiveElsewhere(AfterDeaths(s, o, e, lastKey, dead), e);
    }
  }

  /** The flag of a pending release is no part of the invariant. */
  lemma FlagApart(s: Sched, flag: bool)
    requires SchedInv(s)
    ensures SchedInv(s.(unlock := flag))
  {
  }

  function RankAt(rank: (int, nat) -> real, clock: nat): int -> real {
    e => rank(e, clock)
  }

  function SystemLock(k: Key): Lock {
    Lock(k, SYSTEM)
  }

  lemma HoldsOwned(locks: seq<Lock>, e: int)
    ensures OwnedKeys(locks, e) != [] <==> Holds(locks, e)
  {
    var mine := Keep(locks, LockOf(e));
    if Holds(locks, e) {
      var j :| 0 <= j < |locks| && locks[j].esi == e;
      assert locks[j] in mine;
    }
    if mine != [] {
      assert mine[0] in mine;
      var j :| 0 <= j < |locks| && locks[j] == mine[0];
    }
  }

  lemma UnlockNext(t: Tables, keys: seq<Key>, i: nat)
    requires i < |keys|
    ensures UnlockAll(t, keys[..i + 1]) == Unlock(UnlockAll(t, keys[..i]), keys[i], true)
  {
    assert keys[..i + 1][..i] == keys[..i];
  }
}
