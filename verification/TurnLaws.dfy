/** What a turn of the Planificador does to single ESIs, locks and requests: who is where
    afterwards, who owns what, and who still waits. */
module TurnLaws {
  import opened Locks
  import opened Lists
  import opened Release
  import opened PlannerTables
  import opened PlannerSteps
  import opened PlannerTurns
  import opened StoreReleases
  import opened QueueOrder

  // ----- where everybody is -----

  /** Where a live ESI is after a turn: blocked if it waits; else where it was in execution, or
      among the new ones if they have not been taken in; and ready otherwise. */
  ghost predicate Placed(s: Sched, r: Sched, x: int, goesOn: bool, takenIn: bool) {
    && (x in r.t.blocked <==> Waits(r.t.waiters, x))
    && (x in r.execution <==> goesOn && x in s.execution && !Waits(r.t.waiters, x))
    && (x in r.newQueue <==> !takenIn && x in s.newQueue)
    && (x in r.t.ready <==> x !in r.t.blocked && x !in r.execution && x !in r.newQueue)
  }

  /** In a sound state a live ESI is in exactly one queue. */
  lemma OneQueue(r: Sched, x: int)
    requires SchedInv(r) && x in r.bursts
    ensures x in r.t.blocked <==> Waits(r.t.waiters, x)
    ensures x in r.t.ready <==> x !in r.t.blocked && x !in r.execution && x !in r.newQueue
    ensures x in r.execution || x in r.newQueue ==> x !in r.t.blocked
  {
    InvMeans(r, x);
    assert x in multiset(r.bursts) && Rest(r)[x] == multiset(r.newQueue)[x] + multiset(r.execution)[x];
    assert x in r.t.ready <==> multiset(r.t.ready)[x] > 0;
    assert x in r.t.blocked <==> multiset(r.t.blocked)[x] > 0;
    assert x in r.execution <==> multiset(r.execution)[x] > 0;
    assert x in r.newQueue <==> multiset(r.newQueue)[x] > 0;
  }

  lemma {:induction false} SockAllQueues(s: Sched, es: seq<int>, x: int)
    requires x !in es
    ensures x in SockAll(s, es).newQueue <==> x in s.newQueue
    ensures x in SockAll(s, es).execution <==> x in s.execution
  {
    if es != [] {
      var front, e := es[..|es| - 1], es[|es| - 1];
      assert es == front + [e];
      SockAllQueues(s, front, x);
      RemoveElements(SockAll(s, front).newQueue, Is(e));
      RemoveElements(SockAll(s, front).execution, Is(e));
    }
  }

  /** Console blocks take an ESI out of execution only to make it wait. */
  lemma {:induction false} BlockAllRuns(s: Sched, ws: seq<Waiter>, x: int)
    requires x in s.execution || Waits(s.t.waiters, x)
    ensures x in BlockAll(s, ws).execution || Waits(BlockAll(s, ws).t.waiters, x)
    ensures x in BlockAll(s, ws).execution ==> x in s.execution
  {
    if ws != [] {
      var front, w := ws[..|ws| - 1], ws[|ws| - 1];
      BlockAllRuns(s, front, x);
      var m := BlockAll(s, front);
      RemoveElements(m.execution, Is(w.esi));
      WaitsAppend(m.t.waiters, w);
    }
  }

  lemma ConsoleBlockedRuns(s: Sched, blocks: seq<Waiter>, x: int)
    requires x in s.execution
    ensures x in ConsoleBlocked(s, blocks).execution || Waits(ConsoleBlocked(s, blocks).t.waiters, x)
  {
    var s1, others := BlockExecuting(s, blocks), OtherBlocks(s, blocks);
    var i := BlockOfExecuting(s, blocks);
    if i >= 0 {
      RemoveElements(s.execution, Is(blocks[i].esi));
      WaitsAppend(s.t.waiters, blocks[i]);
    }
    var ours := Keep(others, OnReady(s1.t.ready));
    BlockAllRuns(s1, ours, x);
    OrphanAllLocksOnly(BlockAll(s1, ours), DropEach(others, ours));
  }

  lemma HousekeptRuns(s: Sched, p: Pending, x: int)
    requires x in s.execution
    ensures x in Housekept(s, p).execution || Waits(Housekept(s, p).t.waiters, x)
  {
    hide WakeAll;
    hide ConsoleBlocked;
    var u := if s.unlock then Woke(s, p.key, true).(unlock := false) else s;
    WakeAllLive(u, p.consoleKeys);
    var r := AfterReleases(s, p);
    ConsoleBlockedRuns(if p.arrivals then Admitted(r) else r, p.blocks, x);
  }

  lemma TurnPlaces(s: Sched, o: Outcome, e: int, lastKey: Key, killedFlag: bool, killed: seq<int>, p: Pending, x: int)
    requires SchedInv(s) && Reportable(s, o, e, lastKey, killed) && (s.execution == [] || s.execution == [e])
    requires Fair(p.blocks, s.bursts, s.t.locks) && x in Turn(s, o, e, lastKey, killedFlag, killed, p).bursts
    ensures Placed(s, Turn(s, o, e, lastKey, killedFlag, killed, p), x, o == Success(false),
                   p.arrivals && o != Success(true))
  {
    hide SockAll;
    hide Housekept;
    hide Released;
    hide SchedInv;
    var dead := Dead(killedFlag, killed, o, e);
    var s1 := AfterReport(s, o, e, lastKey);
    TurnKeeps(s, o, e, lastKey, killedFlag, killed, p);
    OneQueue(Turn(s, o, e, lastKey, killedFlag, killed, p), x);
    TurnLive(s, o, e, lastKey, killedFlag, killed, p);
    TakeOutElements(killed, e);
    RemoveElements(s.newQueue, Is(e));
    SockAllQueues(s1, dead, x);
    var s2 := AfterDeaths(s, o, e, lastKey, dead);
    HousekeptLive(s2, p);
    if o == Success(false) && x in s.execution {
      HousekeptRuns(s2, p, x);
    }
  }

  lemma IdlePlaces(s: Sched, killedFlag: bool, killed: seq<int>, p: Pending, x: int)
    requires SchedInv(s) && Mortal(killed, s.bursts) && Fair(p.blocks, s.bursts, s.t.locks) && s.execution == []
    requires x in IdleTurn(s, killedFlag, killed, p).bursts
    ensures Placed(s, IdleTurn(s, killedFlag, killed, p), x, false, p.arrivals)
  {
    hide SockAll;
    hide Housekept;
    hide SchedInv;
    var dead := if killedFlag then killed else [];
    IdleKeeps(s, killedFlag, killed, p);
    OneQueue(IdleTurn(s, killedFlag, killed, p), x);
    IdleLive(s, killedFlag, killed, p);
    SockAllQueues(s, dead, x);
    HousekeptLive(SockAll(s, dead), p);
  }

  // ----- who owns what, and who waits for what -----

  /** Everything of `a` is in `b` too. */
  ghost predicate Within<T(!new)>(a: seq<T>, b: seq<T>) {
    forall x :: x in a ==> x in b
  }

  lemma UnlockWithin(t: Tables, j: Key, wasStore: bool)
    ensures Within(Unlock(t, j, wasStore).locks, t.locks) && Within(Unlock(t, j, wasStore).waiters, t.waiters)
    ensures forall l :: l in t.locks && l.key != j ==> l in Unlock(t, j, wasStore).locks
    ensures UniqueWaiters(t.waiters) ==>
              forall w :: w in t.waiters && w.key != j ==> w in Unlock(t, j, wasStore).waiters
  {
    RemoveElements(t.locks, LockOn(j));
    var i := FirstIndex(t.waiters, WaiterOn(j));
    if i >= 0 {
      RemoveElements(t.waiters, WaiterOf(t.waiters[i].esi));
      if UniqueWaiters(t.waiters) {
        forall w | w in t.waiters && w.key != j
          ensures w.esi != t.waiters[i].esi
        {
          if w.esi == t.waiters[i].esi {
            OneRequest(t.waiters, w, t.waiters[i]);
          }
        }
      }
    }
  }

  lemma {:induction false} WakeAllWithin(s: Sched, ks: seq<Key>)
    requires SchedInv(s)
    ensures Within(WakeAll(s, ks).t.locks, s.t.locks) && Within(WakeAll(s, ks).t.waiters, s.t.waiters)
    ensures forall l :: l in s.t.locks && l.key !in ks ==> l in WakeAll(s, ks).t.locks
    ensures forall w :: w in s.t.waiters && w.key !in ks ==> w in WakeAll(s, ks).t.waiters
  {
    if ks != [] {
      var front, k := ks[..|ks| - 1], ks[|ks| - 1];
      assert ks == front + [k];
      WakeAllWithin(s, front);
      WakeAllKeeps(s, front);
      UnlockWithin(WakeAll(s, front).t, k, false);
    }
  }

  /** A key that is released in this turn, after a STORE or by console. */
  predicate Freed(s: Sched, p: Pending, k: Key) {
    (s.unlock && k == p.key) || (p.consoleUnlock && k in p.consoleKeys)
  }

  lemma ReleasesWithin(s: Sched, p: Pending)
    requires SchedInv(s)
    ensures var r := AfterReleases(s, p);
            && Within(r.t.locks, s.t.locks) && Within(r.t.waiters, s.t.waiters)
            && (forall l :: l in s.t.locks && !Freed(s, p, l.key) ==> l in r.t.locks)
            && (forall w :: w in s.t.waiters && !Freed(s, p, w.key) ==> w in r.t.waiters)
  {
    hide WakeAll;
    hide SchedInv;
    hide Unlock;
    WaitersOnce(s);
    UnlockWithin(s.t, p.key, true);
    StoreReleaseKeeps(s, p.key);
    var u := if s.unlock then Woke(s, p.key, true).(unlock := false) else s;
    WakeAllWithin(u, p.consoleKeys);
  }

  lemma {:induction false} BlockAllAdds(s: Sched, ws: seq<Waiter>)
    ensures var r := BlockAll(s, ws);
            && Within(s.t.locks, r.t.locks) && Within(s.t.waiters, r.t.waiters)
            && (forall l :: l in r.t.locks ==> l in s.t.locks || Waiter(l.esi, l.key) in ws)
            && (forall w :: w in r.t.waiters ==> w in s.t.waiters || (w in ws && IsLocked(r.t.locks, w.key)))
  {
    if ws != [] {
      var front, w := ws[..|ws| - 1], ws[|ws| - 1];
      assert ws == front + [w];
      BlockAllAdds(s, front);
      LocksStay(BlockAll(s, front).t.locks, BlockAll(s, ws).t.locks);
    }
  }

  lemma LocksStay(locks: seq<Lock>, locks': seq<Lock>)
    requires Within(locks, locks')
    ensures forall k :: IsLocked(locks, k) ==> IsLocked(locks', k)
  {
    forall k | IsLocked(locks, k)
      ensures IsLocked(locks', k)
    {
      var j :| 0 <= j < |locks| && locks[j].key == k;
      assert locks[j] in locks && locks[j] in locks';
    }
  }

  /** A pending block on a key names no live ESI. */
  ghost predicate Orphan(ws: seq<Waiter>, bursts: seq<int>, k: Key) {
    exists w :: w in ws && w.key == k && w.esi !in bursts
  }

  lemma {:induction false} OrphanAllAdds(s: Sched, ws: seq<Waiter>)
    ensures var r := OrphanAll(s, ws);
            && Within(s.t.locks, r.t.locks)
            && (forall l :: l in r.t.locks ==> l in s.t.locks || (l.esi == SYSTEM && Orphan(ws, s.bursts, l.key)))
            && (forall w :: w in ws && w.esi !in s.bursts ==> IsLocked(r.t.locks, w.key))
  {
    if ws != [] {
      var front, w := ws[..|ws| - 1], ws[|ws| - 1];
      assert ws == front + [w];
      OrphanAllAdds(s, front);
      OrphanAllLocksOnly(s, front);
      var m, r := OrphanAll(s, front), OrphanAll(s, ws);
      LocksStay(m.t.locks, r.t.locks);
      assert w.esi !in s.bursts ==> IsLocked(r.t.locks, w.key) by {
        assert !IsLocked(m.t.locks, w.key) && w.esi !in s.bursts ==> r.t.locks[|m.t.locks|] == Lock(w.key, SYSTEM);
      }
    }
  }

  /** A console block asks for the lock: for its ESI, or for the system if that is not alive. */
  ghost predicate AskedFor(blocks: seq<Waiter>, bursts: seq<int>, l: Lock) {
    Waiter(l.esi, l.key) in blocks || (l.esi == SYSTEM && Orphan(blocks, bursts, l.key))
  }

  /** What console blocks add: keys for those they name and keys for the system, and requests for
      locked keys. */
  ghost predicate Asked(s: Sched, r: Sched, ws: seq<Waiter>) {
    && Within(s.t.locks, r.t.locks) && Within(s.t.waiters, r.t.waiters)
    && (forall l :: l in r.t.locks ==> l in s.t.locks || AskedFor(ws, s.bursts, l))
    && (forall w :: w in r.t.waiters ==> w in s.t.waiters || (w in ws && IsLocked(r.t.locks, w.key)))
    && (forall w :: w in ws && w.esi !in s.bursts ==> IsLocked(r.t.locks, w.key))
  }

  lemma {:induction false} DropEachElements(blocks: seq<Waiter>, ws: seq<Waiter>)
    ensures Within(DropEach(blocks, ws), blocks)
    ensures forall b :: b in blocks && (forall w :: w in ws ==> w.esi != b.esi) ==> b in DropEach(blocks, ws)
  {
    if ws != [] {
      var front, w := ws[..|ws| - 1], ws[|ws| - 1];
      assert ws == front + [w];
      DropEachElements(blocks, front);
      RemoveElements(DropEach(blocks, front), WaiterOf(w.esi));
    }
  }

  lemma ExecutingAdds(s: Sched, blocks: seq<Waiter>)
    ensures var r := BlockExecuting(s, blocks);
            && Within(s.t.locks, r.t.locks) && Within(s.t.waiters, r.t.waiters) && r.bursts == s.bursts
            && (forall l :: l in r.t.locks ==> l in s.t.locks || Waiter(l.esi, l.key) in blocks)
            && (forall w :: w in r.t.waiters ==> w in s.t.waiters || (w in blocks && IsLocked(r.t.locks, w.key)))
  {
    var i := BlockOfExecuting(s, blocks);
    if i >= 0 {
      assert blocks[i] in blocks;
    }
  }

  lemma ConsoleBlockedAdds(s: Sched, blocks: seq<Waiter>)
    requires SchedInv(s) && Fair(blocks, s.bursts, s.t.locks)
    ensures Asked(s, ConsoleBlocked(s, blocks), blocks)
  {
    hide SchedInv;
    hide BlockAll;
    hide OrphanAll;
    hide BlockOne;
    hide IsLocked;
    hide BlockExecuting;
    hide OtherBlocks;
    hide BlockOfExecuting;
    var s1, others := BlockExecuting(s, blocks), OtherBlocks(s, blocks);
    LiveParts(s);
    AtMostOneRuns(s);
    OthersFair(s, blocks, s.bursts, s.t.locks);
    BlockExecutingKeeps(s, blocks);
    ExecutingAdds(s, blocks);
    var ours := Keep(others, OnReady(s1.t.ready));
    var orphans := DropEach(others, ours);
    LiveParts(s1);
    BlockAllAdds(s1, ours);
    BlockAllLive(s1, ours);
    DropEachElements(others, ours);
    var s2 := BlockAll(s1, ours);
    OrphanAllAdds(s2, orphans);
    OrphanAllLocksOnly(s2, orphans);
    LocksStay(s1.t.locks, s2.t.locks);
    LocksStay(s2.t.locks, OrphanAll(s2, orphans).t.locks);
    OrphansWithin(orphans, blocks, s.bursts);
  }

  lemma OrphansWithin(ws: seq<Waiter>, blocks: seq<Waiter>, bursts: seq<int>)
    requires Within(ws, blocks)
    ensures forall k :: Orphan(ws, bursts, k) ==> Orphan(blocks, bursts, k)
  {
  }

  lemma AtMostOneRuns(s: Sched)
    requires SchedInv(s)
    ensures |s.execution| <= 1
  {
  }

  lemma {:induction false} UnlockAllWithin(t: Tables, ks: seq<Key>)
    requires UniqueWaiters(t.waiters)
    ensures Within(UnlockAll(t, ks).waiters, t.waiters) && UniqueWaiters(UnlockAll(t, ks).waiters)
    ensures forall w :: w in t.waiters && w.key !in ks ==> w in UnlockAll(t, ks).waiters
  {
    if ks != [] {
      var front, k := ks[..|ks| - 1], ks[|ks| - 1];
      assert ks == front + [k];
      UnlockAllWithin(t, front);
      UnlockWithin(UnlockAll(t, front), k, true);
      UnlockKeepsOnce(UnlockAll(t, front), k, true);
    }
  }

  lemma UnlockKeepsOnce(t: Tables, k: Key, wasStore: bool)
    requires UniqueWaiters(t.waiters)
    ensures UniqueWaiters(Unlock(t, k, wasStore).waiters)
  {
    var e := FirstWaiter(t.waiters, k);
    if e != [] {
      DropWaiterElements(t.waiters, e[0]);
    }
  }

  /** Releasing an ESI takes its own request, and wakes only those who wait for one of its keys. */
  lemma ReleasedWithin(t: Tables, e: int)
    requires UniqueWaiters(t.waiters)
    ensures Within(Released(t, e).waiters, t.waiters)
    ensures forall w :: w in t.waiters && w.esi != e && Lock(w.key, e) !in t.locks ==> w in Released(t, e).waiters
  {
    var ks := OwnedKeys(t.locks, e);
    UnlockAllWithin(t, ks);
    RemoveElements(UnlockAll(t, ks).waiters, WaiterOf(e));
    forall w | w in t.waiters && Lock(w.key, e) !in t.locks
      ensures w.key !in ks
    {
      OwnedIs(t.locks, e, w.key);
    }
  }

  /** The owner of a key was one of the given ESIs. */
  ghost predicate OwnerIn(locks: seq<Lock>, k: Key, es: seq<int>) {
    exists l :: l in locks && l.key == k && l.esi in es
  }

  lemma {:induction false} SockAllWithin(s: Sched, es: seq<int>)
    requires SchedInv(s) && NoRepeats(es) && forall e :: e in es ==> e in s.bursts
    ensures Within(SockAll(s, es).t.waiters, s.t.waiters)
    ensures forall w :: w in s.t.waiters && w.esi !in es && !OwnerIn(s.t.locks, w.key, es) ==>
                        w in SockAll(s, es).t.waiters
  {
    if es != [] {
      var front, e := es[..|es| - 1], es[|es| - 1];
      assert es == front + [e];
      SockAllWithin(s, front);
      SockAllKeeps(s, front);
      var m := SockAll(s, front);
      WaitersOnce(m);
      ReleasedWithin(Buried(m.t, e), e);
      forall w | w in s.t.waiters && w.esi !in es && !OwnerIn(s.t.locks, w.key, es)
        ensures w in SockAll(s, es).t.waiters
      {
        assert Lock(w.key, e) in s.t.locks ==> OwnerIn(s.t.locks, w.key, es);
        assert OwnerIn(s.t.locks, w.key, front) ==> OwnerIn(s.t.locks, w.key, es);
      }
    }
  }

  // ----- the housekeeping -----

  lemma HousekeptBounds(s: Sched, p: Pending)
    requires SchedInv(s) && Fair(p.blocks, s.bursts, s.t.locks)
    ensures var r := Housekept(s, p);
            && (forall l :: l in s.t.locks && !Freed(s, p, l.key) ==> l in r.t.locks)
            && (forall w :: w in s.t.waiters && !Freed(s, p, w.key) ==> w in r.t.waiters)
            && (forall l :: l in r.t.locks ==> l in s.t.locks || (p.consoleBlock && AskedFor(p.blocks, r.bursts, l)))
            && (forall w :: w in r.t.waiters ==>
                  w in s.t.waiters || (p.consoleBlock && w in p.blocks && IsLocked(r.t.locks, w.key)))
            && (p.consoleBlock ==>
                  forall w :: w in p.blocks && w.esi !in r.bursts ==> IsLocked(r.t.locks, w.key))
  {
    hide SchedInv;
    hide WakeAll;
    hide ConsoleBlocked;
    hide AfterReleases;
    hide IsLocked;
    ReleasesWithin(s, p);
    ReleasesKeep(s, p);
    var r := AfterReleases(s, p);
    AdmitKeeps(r);
    var a := if p.arrivals then Admitted(r) else r;
    FairShrinks(p.blocks, s, r);
    ConsoleBlockedAdds(a, p.blocks);
    HousekeptLive(s, p);
  }

  // ----- the turn -----

  lemma DeathsBounds(s: Sched, o: Outcome, e: int, lastKey: Key, dead: seq<int>)
    requires SchedInv(s) && Reportable(s, o, e, lastKey, dead) && (s.execution == [] || s.execution == [e])
    ensures var r := AfterDeaths(s, o, e, lastKey, dead);
            && (forall l :: l in r.t.locks <==> l in s.t.locks && l.esi !in dead && !(l.esi == e && Dies(o)))
            && (forall w :: w in r.t.waiters ==> w in s.t.waiters || (o == IAmBlocked && w == Waiter(e, lastKey)))
            && (r.unlock ==> s.unlock)
  {
    hide SchedInv;
    hide SockAll;
    hide Socked;
    hide Released;
    var s1 := AfterReport(s, o, e, lastKey);
    ReportShrinks(s, o, e, lastKey, dead);
    ReporterLives(s, o, e, lastKey, dead);
    SockAllKeeps(s1, dead);
    SockAllUnlock(s1, dead);
    SockAllWithin(s1, dead);
    SockKeeps(s, e);
    SockWithin(s, e);
  }

  lemma SockWithin(s: Sched, e: int)
    requires SchedInv(s) && e in s.bursts
    ensures Within(Socked(s, e).t.waiters, s.t.waiters) && (Socked(s, e).unlock ==> s.unlock)
    ensures forall w :: w in s.t.waiters && w.esi != e && Lock(w.key, e) !in s.t.locks ==> w in Socked(s, e).t.waiters
  {
    WaitersOnce(s);
    ReleasedWithin(Buried(s.t, e), e);
  }

  /** Who asks for a key that is not of a dying ESI goes on asking. */
  lemma DeathsWait(s: Sched, o: Outcome, e: int, lastKey: Key, dead: seq<int>, w: Waiter)
    requires SchedInv(s) && Reportable(s, o, e, lastKey, dead) && (s.execution == [] || s.execution == [e])
    requires w in s.t.waiters || (o == IAmBlocked && w == Waiter(e, lastKey))
    requires w.esi !in dead && !(w.esi == e && Dies(o))
    requires forall l :: l in s.t.locks && l.key == w.key ==> l.esi !in dead && !(l.esi == e && Dies(o))
    ensures w in AfterDeaths(s, o, e, lastKey, dead).t.waiters
  {
    hide SchedInv;
    hide SockAll;
    hide Socked;
    hide Released;
    var s1 := AfterReport(s, o, e, lastKey);
    ReportShrinks(s, o, e, lastKey, dead);
    ReporterLives(s, o, e, lastKey, dead);
    SockKeeps(s, e);
    SockWithin(s, e);
    assert w in s1.t.waiters;
    assert forall l :: l in s1.t.locks ==> l in s.t.locks;
    SockAllWithin(s1, dead);
  }

  /** Keys after a turn: the ones that were owned by ESIs that are still alive, or by the system,
      except the ones that were released; and of the others only those that console blocks asked for. */
  lemma TurnOwners(s: Sched, o: Outcome, e: int, lastKey: Key, killedFlag: bool, killed: seq<int>, p: Pending)
    requires SchedInv(s) && Reportable(s, o, e, lastKey, killed) && (s.execution == [] || s.execution == [e])
    requires Fair(p.blocks, s.bursts, s.t.locks)
    ensures var r := Turn(s, o, e, lastKey, killedFlag, killed, p);
            && (forall l :: l in r.t.locks ==> l.esi == SYSTEM || l.esi in r.bursts)
            && (forall l :: l in r.t.locks ==> l in s.t.locks || (p.consoleBlock && AskedFor(p.blocks, r.bursts, l)))
            && (forall l :: l in s.t.locks && (l.esi == SYSTEM || l.esi in r.bursts) && !Freed(s, p, l.key) ==>
                  l in r.t.locks)
  {
    hide SockAll;
    hide Housekept;
    hide Ended;
    hide SchedInv;
    hide AfterReport;
    hide Victims;
    var dead := Dead(killedFlag, killed, o, e);
    DeadReportable(s, o, e, lastKey, killedFlag, killed);
    DeadNotSystem(s, o, e, lastKey, dead);
    DeadLive(s, o, e, lastKey, killedFlag, killed, p);
    KillsKeep(s, o, e, lastKey, killedFlag, killed);
    var s2 := AfterDeaths(s, o, e, lastKey, dead);
    FairShrinks(p.blocks, s, s2);
    DeathsBounds(s, o, e, lastKey, dead);
    TurnLive(s, o, e, lastKey, killedFlag, killed, p);
    TurnKeeps(s, o, e, lastKey, killedFlag, killed, p);
    HousekeptBounds(s2, p);
    EndedLocks(s2, e);
    OwnersLive(Turn(s, o, e, lastKey, killedFlag, killed, p));
  }

  lemma OwnersLive(s: Sched)
    requires SchedInv(s)
    ensures forall l :: l in s.t.locks ==> l.esi == SYSTEM || l.esi in s.bursts
  {
  }

  /** The dead of a turn are not alive after it; the one that ends its script is not among them. */
  lemma DeadLive(s: Sched, o: Outcome, e: int, lastKey: Key, killedFlag: bool, killed: seq<int>, p: Pending)
    requires SchedInv(s) && Reportable(s, o, e, lastKey, killed) && (s.execution == [] || s.execution == [e])
    ensures forall x :: x in Turn(s, o, e, lastKey, killedFlag, killed, p).bursts ==>
                        x !in Dead(killedFlag, killed, o, e) && !(x == e && (Dies(o) || o == Success(true)))
  {
    TurnLive(s, o, e, lastKey, killedFlag, killed, p);
    TakeOutElements(killed, e);
  }

  lemma DeadNotSystem(s: Sched, o: Outcome, e: int, lastKey: Key, dead: seq<int>)
    requires SchedInv(s) && Reportable(s, o, e, lastKey, dead)
    ensures SYSTEM !in dead && e != SYSTEM
  {
    ReporterLives(s, o, e, lastKey, dead);
  }

  lemma EndedLocks(s: Sched, e: int)
    requires SchedInv(s)
    ensures s.execution == [e] ==>
              forall l :: l in Ended(s, e).t.locks <==> l in s.t.locks && l.esi != e
  {
    if s.execution == [e] {
      PartsApart(s.t, Rest(s), s.bursts);
      ReleaseExact(s.t, e);
    }
  }

  lemma EndedWaiters(s: Sched, e: int)
    requires SchedInv(s)
    ensures Within(Ended(s, e).t.waiters, s.t.waiters)
    ensures forall w :: w in s.t.waiters && w.esi != e && Lock(w.key, e) !in s.t.locks ==> w in Ended(s, e).t.waiters
  {
    WaitersOnce(s);
    ReleasedWithin(s.t, e);
  }

  /** The owner of a key was alive before the turn and is not after it. */
  ghost predicate OwnerGone(s: Sched, r: Sched, k: Key) {
    exists l :: l in s.t.locks && l.key == k && l.esi in s.bursts && l.esi !in r.bursts
  }

  /** Nobody who waits at the end of a turn has not asked: before it, in it, or by console for a
      locked key. */
  lemma TurnAsked(s: Sched, o: Outcome, e: int, lastKey: Key, killedFlag: bool, killed: seq<int>, p: Pending)
    requires SchedInv(s) && Reportable(s, o, e, lastKey, killed) && (s.execution == [] || s.execution == [e])
    requires Fair(p.blocks, s.bursts, s.t.locks)
    ensures var r := Turn(s, o, e, lastKey, killedFlag, killed, p);
            forall w :: w in r.t.waiters ==>
              || w in s.t.waiters
              || (o == IAmBlocked && w == Waiter(e, lastKey))
              || (p.consoleBlock && w in p.blocks && IsLocked(r.t.locks, w.key))
  {
    hide SockAll;
    hide Housekept;
    hide Ended;
    hide SchedInv;
    hide AfterReport;
    hide Victims;
    hide IsLocked;
    var dead := Dead(killedFlag, killed, o, e);
    DeadReportable(s, o, e, lastKey, killedFlag, killed);
    KillsKeep(s, o, e, lastKey, killedFlag, killed);
    var s2 := AfterDeaths(s, o, e, lastKey, dead);
    FairShrinks(p.blocks, s, s2);
    DeathsBounds(s, o, e, lastKey, dead);
    HousekeptBounds(s2, p);
    EndedWaiters(s2, e);
  }

  /** Nobody stops waiting for a key unless the key is released or its owner is gone. */
  lemma TurnWaits(s: Sched, o: Outcome, e: int, lastKey: Key, killedFlag: bool, killed: seq<int>, p: Pending, w: Waiter)
    requires SchedInv(s) && Reportable(s, o, e, lastKey, killed) && (s.execution == [] || s.execution == [e])
    requires Fair(p.blocks, s.bursts, s.t.locks)
    requires w in s.t.waiters || (o == IAmBlocked && w == Waiter(e, lastKey))
    ensures var r := Turn(s, o, e, lastKey, killedFlag, killed, p);
            w.esi in r.bursts && !Freed(s, p, w.key) && !OwnerGone(s, r, w.key) ==> w in r.t.waiters
  {
    hide SockAll;
    hide Housekept;
    hide Ended;
    hide SchedInv;
    hide AfterReport;
    hide Victims;
    var dead, r := Dead(killedFlag, killed, o, e), Turn(s, o, e, lastKey, killedFlag, killed, p);
    DeadReportable(s, o, e, lastKey, killedFlag, killed);
    DeadNotSystem(s, o, e, lastKey, dead);
    DeadLive(s, o, e, lastKey, killedFlag, killed, p);
    KillsKeep(s, o, e, lastKey, killedFlag, killed);
    OwnersLive(s);
    var s2 := AfterDeaths(s, o, e, lastKey, dead);
    FairShrinks(p.blocks, s, s2);
    DeathsBounds(s, o, e, lastKey, dead);
    HousekeptBounds(s2, p);
    EndedWaiters(s2, e);
    if w.esi in r.bursts && !Freed(s, p, w.key) && !OwnerGone(s, r, w.key) {
      DeathsWait(s, o, e, lastKey, dead, w);
    }
  }

  // ----- the idle turn -----

  /** The same for a turn with nobody in execution. */
  lemma IdleOwners(s: Sched, killedFlag: bool, killed: seq<int>, p: Pending)
    requires SchedInv(s) && Mortal(killed, s.bursts) && Fair(p.blocks, s.bursts, s.t.locks) && s.execution == []
    ensures var r := IdleTurn(s, killedFlag, killed, p);
            && (forall l :: l in r.t.locks ==> l.esi == SYSTEM || l.esi in r.bursts)
            && (forall l :: l in r.t.locks ==> l in s.t.locks || (p.consoleBlock && AskedFor(p.blocks, r.bursts, l)))
            && (forall l :: l in s.t.locks && (l.esi == SYSTEM || l.esi in r.bursts) && !Freed(s, p, l.key) ==>
                  l in r.t.locks)
  {
    hide SockAll;
    hide Housekept;
    hide SchedInv;
    var dead := if killedFlag then killed else [];
    var s2 := SockAll(s, dead);
    IdleFacts(s, killedFlag, killed, p);
    HousekeptBounds(s2, p);
    OwnersLive(IdleTurn(s, killedFlag, killed, p));
  }

  lemma IdleFacts(s: Sched, killedFlag: bool, killed: seq<int>, p: Pending)
    requires SchedInv(s) && Mortal(killed, s.bursts) && Fair(p.blocks, s.bursts, s.t.locks) && s.execution == []
    ensures var dead, r := if killedFlag then killed else [], IdleTurn(s, killedFlag, killed, p);
            var s2 := SockAll(s, dead);
            && SchedInv(r) && SchedInv(s2) && Fair(p.blocks, s2.bursts, s2.t.locks) && SYSTEM !in dead
            && (forall l :: l in s2.t.locks <==> l in s.t.locks && l.esi !in dead)
            && (forall x :: x in r.bursts <==> x in s.bursts && x !in dead)
            && (s2.unlock ==> s.unlock)
  {
    hide Housekept;
    var dead := if killedFlag then killed else [];
    IdleKeeps(s, killedFlag, killed, p);
    SockAllShrinks(s, dead);
    FairShrinks(p.blocks, s, SockAll(s, dead));
    SockAllKeeps(s, dead);
    SockAllUnlock(s, dead);
    IdleLive(s, killedFlag, killed, p);
  }

  lemma IdleAsked(s: Sched, killedFlag: bool, killed: seq<int>, p: Pending)
    requires SchedInv(s) && Mortal(killed, s.bursts) && Fair(p.blocks, s.bursts, s.t.locks) && s.execution == []
    ensures var r := IdleTurn(s, killedFlag, killed, p);
            && (forall w :: w in r.t.waiters ==>
                  w in s.t.waiters || (p.consoleBlock && w in p.blocks && IsLocked(r.t.locks, w.key)))
            && (p.consoleBlock ==> forall w :: w in p.blocks && w.esi !in r.bursts ==> IsLocked(r.t.locks, w.key))
  {
    hide SockAll;
    hide Housekept;
    hide SchedInv;
    hide IsLocked;
    var dead := if killedFlag then killed else [];
    var s2 := SockAll(s, dead);
    IdleFacts(s, killedFlag, killed, p);
    SockAllWithin(s, dead);
    HousekeptBounds(s2, p);
  }

  lemma IdleWaits(s: Sched, killedFlag: bool, killed: seq<int>, p: Pending, w: Waiter)
    requires SchedInv(s) && Mortal(killed, s.bursts) && Fair(p.blocks, s.bursts, s.t.locks) && s.execution == []
    requires w in s.t.waiters
    ensures var r := IdleTurn(s, killedFlag, killed, p);
            w.esi in r.bursts && !Freed(s, p, w.key) && !OwnerGone(s, r, w.key) ==> w in r.t.waiters
  {
    hide SockAll;
    hide Housekept;
    hide SchedInv;
    var dead, r := if killedFlag then killed else [], IdleTurn(s, killedFlag, killed, p);
    var s2 := SockAll(s, dead);
    IdleFacts(s, killedFlag, killed, p);
    OwnersLive(s);
    SockAllWithin(s, dead);
    HousekeptBounds(s2, p);
    if OwnerIn(s.t.locks, w.key, dead) {
      var l :| l in s.t.locks && l.key == w.key && l.esi in dead;
      assert l.esi in s.bursts && l.esi !in r.bursts;
    }
  }

  // ----- the console blocks of a turn -----

  /** What became of a pending console block: an ESI that is not alive left the key locked; a live
      one owns the key or waits for it, unless it waits for something else already or is new. */
  ghost predicate Heard(r: Sched, w: Waiter) {
    if w.esi !in r.bursts then IsLocked(r.t.locks, w.key)
    else Settled(r, w) || w.esi in r.newQueue || exists v :: v in r.t.waiters && v.esi == w.esi && v != w
  }

  lemma HousekeptBlocks(s: Sched, p: Pending, w: Waiter)
    requires SchedInv(s) && Fair(p.blocks, s.bursts, s.t.locks) && p.consoleBlock && w in p.blocks
    ensures Heard(Housekept(s, p), w)
  {
    hide SchedInv;
    hide ConsoleBlocked;
    hide AfterReleases;
    hide Settled;
    hide IsLocked;
    ReleasesKeep(s, p);
    HousekeepingKeeps(s, p);
    HousekeptBounds(s, p);
    var r := AfterReleases(s, p);
    FairShrinks(p.blocks, s, r);
    AdmitKeeps(r);
    var a := if p.arrivals then Admitted(r) else r;
    ConsoleBlockedKeeps(a, p.blocks);
    ConsoleBlockedAdds(a, p.blocks);
    ConsoleBlockedLive(a, p.blocks);
    if w.esi in a.bursts {
      OneQueue(a, w.esi);
      if !Active(a, w.esi) && w.esi !in a.newQueue {
        WaitsIn(a.t.waiters);
        var v :| v in a.t.waiters && v.esi == w.esi;
        if v == w {
          WaitingSettles(Housekept(s, p), w);
        }
      }
    }
  }

  lemma WaitingSettles(r: Sched, w: Waiter)
    requires SchedInv(r) && w in r.t.waiters
    ensures Settled(r, w)
  {
    WaitsIn(r.t.waiters);
    assert Waits(r.t.waiters, w.esi);
  }

  /** A turn that goes on hears the pending console blocks if an arrival or a release is pending too. */
  lemma TurnHears(s: Sched, o: Outcome, e: int, lastKey: Key, killedFlag: bool, killed: seq<int>, p: Pending, w: Waiter)
    requires SchedInv(s) && Reportable(s, o, e, lastKey, killed) && (s.execution == [] || s.execution == [e])
    requires Fair(p.blocks, s.bursts, s.t.locks) && o != Success(true) && p.consoleBlock && w in p.blocks
    requires p.arrivals || p.consoleUnlock || (s.unlock && !killedFlag && !Dies(o))
    ensures Heard(Turn(s, o, e, lastKey, killedFlag, killed, p), w)
  {
    hide SchedInv;
    hide SockAll;
    hide Housekept;
    hide AfterReport;
    hide Heard;
    hide Dead;
    var dead := Dead(killedFlag, killed, o, e);
    KillsKeep(s, o, e, lastKey, killedFlag, killed);
    var s2 := AfterDeaths(s, o, e, lastKey, dead);
    NoDeaths(s, o, e, lastKey, killedFlag, killed);
    FairShrinks(p.blocks, s, s2);
    HousekeptBlocks(s2, p, w);
  }

  lemma NoDeaths(s: Sched, o: Outcome, e: int, lastKey: Key, killedFlag: bool, killed: seq<int>)
    ensures !killedFlag && !Dies(o) ==> AfterDeaths(s, o, e, lastKey, Dead(killedFlag, killed, o, e)).unlock == s.unlock
  {
  }

  lemma IdleHears(s: Sched, killedFlag: bool, killed: seq<int>, p: Pending, w: Waiter)
    requires SchedInv(s) && Mortal(killed, s.bursts) && Fair(p.blocks, s.bursts, s.t.locks) && s.execution == []
    requires p.consoleBlock && w in p.blocks
    ensures Heard(IdleTurn(s, killedFlag, killed, p), w)
  {
    hide SchedInv;
    hide SockAll;
    hide Housekept;
    IdleFacts(s, killedFlag, killed, p);
    HousekeptBlocks(SockAll(s, if killedFlag then killed else []), p, w);
  }

  /** Of several blocks on a free key the first one gets it. */
  lemma {:induction false} FirstGetsKey(s: Sched, ws: seq<Waiter>, i: nat)
    requires i < |ws| && !IsLocked(s.t.locks, ws[i].key)
    requires forall j :: 0 <= j < i ==> ws[j].key != ws[i].key
    ensures Lock(ws[i].key, ws[i].esi) in BlockAll(s, ws).t.locks
  {
    var front := ws[..|ws| - 1];
    if i == |front| {
      StillFree(s, front, ws[i].key);
    } else {
      FirstGetsKey(s, front, i);
    }
  }

  lemma {:induction false} StillFree(s: Sched, ws: seq<Waiter>, k: Key)
    requires !IsLocked(s.t.locks, k) && forall w :: w in ws ==> w.key != k
    ensures !IsLocked(BlockAll(s, ws).t.locks, k)
  {
    if ws != [] {
      StillFree(s, ws[..|ws| - 1], k);
      assert ws[|ws| - 1] in ws;
    }
  }
}
