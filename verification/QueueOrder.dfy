/** Order in the lists of the Planificador through a whole turn: who asked for a key first keeps
    standing first, and the ready queue is the old one, then the woken, then the new ESIs. */
module QueueOrder {
  import opened Locks
  import opened Lists
  import opened Release
  import opened PlannerTables
  import opened PlannerSteps
  import opened PlannerTurns

  // ----- the waiter list -----

  /** For as long as v waits, a later request w for the same key stays behind it, and stays in
      the list unless its ESI is gone. */
  ghost predicate InLine(ws: seq<Waiter>, ws': seq<Waiter>, v: Waiter, w: Waiter, gone: bool) {
    v in ws' ==>
      && v in ws
      && (Behind(ws, w, v) ==> Behind(ws', w, v) && (w in ws ==> w in ws' || gone))
  }

  lemma UnlockLine(t: Tables, j: Key, wasStore: bool, v: Waiter, w: Waiter)
    requires UniqueWaiters(t.waiters) && v.key == w.key && v != w
    ensures UniqueWaiters(Unlock(t, j, wasStore).waiters)
    ensures InLine(t.waiters, Unlock(t, j, wasStore).waiters, v, w, false)
  {
    var i := FirstIndex(t.waiters, WaiterOn(j));
    if i >= 0 {
      var f := t.waiters[i];
      DropWaiterElements(t.waiters, f.esi);
      if Behind(t.waiters, w, v) && v in t.waiters {
        RemoveBehind(t.waiters, WaiterOf(f.esi), w, v);
        if w in t.waiters && w.esi == f.esi {
          OneRequest(t.waiters, w, f);
          assert false;
        }
      }
    }
  }

  lemma {:induction false} UnlockAllLine(t: Tables, ks: seq<Key>, v: Waiter, w: Waiter)
    requires UniqueWaiters(t.waiters) && v.key == w.key && v != w
    ensures UniqueWaiters(UnlockAll(t, ks).waiters)
    ensures InLine(t.waiters, UnlockAll(t, ks).waiters, v, w, false)
  {
    if ks != [] {
      UnlockAllLine(t, ks[..|ks| - 1], v, w);
      UnlockLine(UnlockAll(t, ks[..|ks| - 1]), ks[|ks| - 1], true, v, w);
    }
  }

  lemma ReleasedLine(t: Tables, e: int, v: Waiter, w: Waiter)
    requires UniqueWaiters(t.waiters) && v.key == w.key && v != w
    ensures InLine(t.waiters, Released(t, e).waiters, v, w, w.esi == e)
  {
    var u := UnlockAll(t, OwnedKeys(t.locks, e));
    UnlockAllLine(t, OwnedKeys(t.locks, e), v, w);
    DropWaiterElements(u.waiters, e);
    if Behind(u.waiters, w, v) {
      RemoveBehind(u.waiters, WaiterOf(e), w, v);
    }
  }

  lemma {:induction false} SockAllLine(s: Sched, es: seq<int>, v: Waiter, w: Waiter)
    requires SchedInv(s) && NoRepeats(es) && (forall e :: e in es ==> e in s.bursts) && v.key == w.key && v != w
    ensures InLine(s.t.waiters, SockAll(s, es).t.waiters, v, w, w.esi in es)
  {
    if es != [] {
      var front, e := es[..|es| - 1], es[|es| - 1];
      assert es == front + [e];
      SockAllLine(s, front, v, w);
      SockAllKeeps(s, front);
      ReleasedLine(Buried(SockAll(s, front).t, e), e, v, w);
    }
  }

  lemma {:induction false} WakeAllLine(s: Sched, ks: seq<Key>, v: Waiter, w: Waiter)
    requires UniqueWaiters(s.t.waiters) && v.key == w.key && v != w
    ensures UniqueWaiters(WakeAll(s, ks).t.waiters)
    ensures InLine(s.t.waiters, WakeAll(s, ks).t.waiters, v, w, false)
  {
    if ks != [] {
      WakeAllLine(s, ks[..|ks| - 1], v, w);
      UnlockLine(WakeAll(s, ks[..|ks| - 1]).t, ks[|ks| - 1], false, v, w);
    }
  }

  lemma {:induction false} BlockAllLine(s: Sched, ws: seq<Waiter>, v: Waiter, w: Waiter)
    requires v != w && v !in ws
    ensures InLine(s.t.waiters, BlockAll(s, ws).t.waiters, v, w, false)
  {
    if ws != [] {
      var b := BlockAll(s, ws[..|ws| - 1]).t.waiters;
      BlockAllLine(s, ws[..|ws| - 1], v, w);
      if Behind(b, w, v) {
        AppendBehind(b, ws[|ws| - 1], w, v);
      }
    }
  }

  lemma ConsoleBlockedLine(s: Sched, blocks: seq<Waiter>, v: Waiter, w: Waiter)
    requires v != w && v !in blocks
    ensures InLine(s.t.waiters, ConsoleBlocked(s, blocks).t.waiters, v, w, false)
  {
    var s1, others := BlockExecuting(s, blocks), OtherBlocks(s, blocks);
    var i := BlockOfExecuting(s, blocks);
    if i >= 0 {
      assert blocks[i] in blocks;
      assert BlockAll(s, [blocks[i]]) == BlockOne(s, blocks[i]) by {
        assert [blocks[i]][..0] == [];
      }
      BlockAllLine(s, [blocks[i]], v, w);
    }
    var ours := Keep(others, OnReady(s1.t.ready));
    BlockAllLine(s1, ours, v, w);
    OrphanAllLocksOnly(BlockAll(s1, ours), DropEach(others, ours));
  }

  /** What is asked for ESIs that do not exist touches nothing but the locks. */
  lemma {:induction false} OrphanAllLocksOnly(s: Sched, ws: seq<Waiter>)
    ensures OrphanAll(s, ws) == s.(t := s.t.(locks := OrphanAll(s, ws).t.locks))
  {
    if ws != [] {
      OrphanAllLocksOnly(s, ws[..|ws| - 1]);
    }
  }

  lemma HousekeptLine(s: Sched, p: Pending, v: Waiter, w: Waiter)
    requires UniqueWaiters(s.t.waiters) && v.key == w.key && v != w && v !in p.blocks
    ensures InLine(s.t.waiters, Housekept(s, p).t.waiters, v, w, false)
  {
    var u := if s.unlock then Woke(s, p.key, true).(unlock := false) else s;
    UnlockLine(s.t, p.key, true, v, w);
    WakeAllLine(u, p.consoleKeys, v, w);
    var r := AfterReleases(s, p);
    ConsoleBlockedLine(if p.arrivals then Admitted(r) else r, p.blocks, v, w);
  }

  // ----- who is alive after a turn -----

  lemma {:induction false} WakeAllLive(s: Sched, ks: seq<Key>)
    ensures WakeAll(s, ks) == s.(t := WakeAll(s, ks).t)
  {
    if ks != [] {
      WakeAllLive(s, ks[..|ks| - 1]);
    }
  }

  lemma {:induction false} BlockAllLive(s: Sched, ws: seq<Waiter>)
    ensures BlockAll(s, ws).bursts == s.bursts && BlockAll(s, ws).newQueue == s.newQueue
    ensures BlockAll(s, ws).unlock == s.unlock
  {
    if ws != [] {
      BlockAllLive(s, ws[..|ws| - 1]);
    }
  }

  lemma ConsoleBlockedLive(s: Sched, blocks: seq<Waiter>)
    ensures ConsoleBlocked(s, blocks).bursts == s.bursts && ConsoleBlocked(s, blocks).newQueue == s.newQueue
    ensures ConsoleBlocked(s, blocks).unlock == s.unlock
  {
    var s1, others := BlockExecuting(s, blocks), OtherBlocks(s, blocks);
    var ours := Keep(others, OnReady(s1.t.ready));
    BlockAllLive(s1, ours);
    OrphanAllLocksOnly(BlockAll(s1, ours), DropEach(others, ours));
  }

  lemma HousekeptLive(s: Sched, p: Pending)
    ensures Housekept(s, p).bursts == s.bursts && !Housekept(s, p).unlock
    ensures Housekept(s, p).newQueue == if p.arrivals then [] else s.newQueue
  {
    hide WakeAll;
    hide ConsoleBlocked;
    var u := if s.unlock then Woke(s, p.key, true).(unlock := false) else s;
    WakeAllLive(u, p.consoleKeys);
    var r := AfterReleases(s, p);
    ConsoleBlockedLive(if p.arrivals then Admitted(r) else r, p.blocks);
  }

  /** The live ESIs after a report and the deaths of the turn. */
  lemma DeathsLive(s: Sched, o: Outcome, e: int, lastKey: Key, dead: seq<int>)
    requires SchedInv(s) && Reportable(s, o, e, lastKey, dead) && (s.execution == [] || s.execution == [e])
    ensures forall x :: x in AfterDeaths(s, o, e, lastKey, dead).bursts <==>
                        x in s.bursts && x !in dead && !(x == e && Dies(o))
    ensures SchedInv(AfterDeaths(s, o, e, lastKey, dead))
  {
    hide SockAll;
    hide Socked;
    hide SchedInv;
    var s1 := AfterReport(s, o, e, lastKey);
    ReportShrinks(s, o, e, lastKey, dead);
    assert SchedInv(s1);
    SockAllKeeps(s1, dead);
    ReporterLives(s, o, e, lastKey, dead);
    SockKeeps(s, e);
  }

  lemma ReporterLives(s: Sched, o: Outcome, e: int, lastKey: Key, dead: seq<int>)
    requires SchedInv(s) && Reportable(s, o, e, lastKey, dead)
    ensures e in s.bursts
    ensures o != Lost ==> !Waits(s.t.waiters, e) && e !in s.t.ready && e !in s.newQueue && e !in s.t.blocked
  {
    LiveParts(s);
    if o != Lost {
      assert Active(s, e);
      ActiveElsewhere(s, e);
      PartsApart(s.t, Rest(s), s.bursts);
      assert e in multiset(s.execution);
      assert e in s.newQueue ==> e in multiset(s.newQueue);
      assert Rest(s)[e] == multiset(s.newQueue)[e] + multiset(s.execution)[e];
    }
  }

  /** After a turn those are alive who were, did not die in it, and did not end their script. */
  lemma TurnLive(s: Sched, o: Outcome, e: int, lastKey: Key, killedFlag: bool, killed: seq<int>, p: Pending)
    requires SchedInv(s) && Reportable(s, o, e, lastKey, killed) && (s.execution == [] || s.execution == [e])
    ensures var r := Turn(s, o, e, lastKey, killedFlag, killed, p);
            forall x :: x in r.bursts <==>
                        && x in s.bursts
                        && !(killedFlag && x in killed)
                        && !(x == e && (o.Lost? || o.BrokeTheLaw? || o == Success(true)))
  {
    hide Housekept;
    hide SchedInv;
    hide SockAll;
    var dead := Dead(killedFlag, killed, o, e);
    DeadReportable(s, o, e, lastKey, killedFlag, killed);
    TakeOutElements(killed, e);
    DeathsLive(s, o, e, lastKey, dead);
    var s2 := AfterDeaths(s, o, e, lastKey, dead);
    HousekeptLive(s2, p);
    LiveOnce(s2);
    TakeOutElements(s2.bursts, e);
  }

  lemma LiveOnce(s: Sched)
    requires SchedInv(s)
    ensures NoRepeats(s.bursts)
  {
  }

  lemma IdleLive(s: Sched, killedFlag: bool, killed: seq<int>, p: Pending)
    requires SchedInv(s) && Mortal(killed, s.bursts)
    ensures forall x :: x in IdleTurn(s, killedFlag, killed, p).bursts <==>
                        x in s.bursts && !(killedFlag && x in killed)
  {
    hide Housekept;
    var dead := if killedFlag then killed else [];
    SockAllKeeps(s, dead);
    HousekeptLive(SockAll(s, dead), p);
  }

  // ----- a whole turn -----

  /** A turn keeps who asked for a key first in front, whatever it releases, as long as that ESI waits. */
  lemma TurnLine(s: Sched, o: Outcome, e: int, lastKey: Key, killedFlag: bool, killed: seq<int>, p: Pending,
                 v: Waiter, w: Waiter)
    requires SchedInv(s) && Reportable(s, o, e, lastKey, killed) && (s.execution == [] || s.execution == [e])
    requires v in s.t.waiters && v !in p.blocks && v.key == w.key && v != w
    ensures var r := Turn(s, o, e, lastKey, killedFlag, killed, p);
            InLine(s.t.waiters, r.t.waiters, v, w, w.esi !in r.bursts)
  {
    hide SockAll;
    hide Housekept;
    hide SchedInv;
    hide Released;
    var dead := Dead(killedFlag, killed, o, e);
    DeadReportable(s, o, e, lastKey, killedFlag, killed);
    DeathsLine(s, o, e, lastKey, dead, v, w);
    DeathsLive(s, o, e, lastKey, dead);
    TurnLive(s, o, e, lastKey, killedFlag, killed, p);
    TakeOutElements(killed, e);
    var s2 := AfterDeaths(s, o, e, lastKey, dead);
    WaitersOnce(s2);
    HousekeptLine(s2, p, v, w);
    ReleasedLine(s2.t, e, v, w);
  }

  lemma WaitersOnce(s: Sched)
    requires SchedInv(s)
    ensures UniqueWaiters(s.t.waiters)
  {
  }

  lemma DeathsLine(s: Sched, o: Outcome, e: int, lastKey: Key, dead: seq<int>, v: Waiter, w: Waiter)
    requires SchedInv(s) && Reportable(s, o, e, lastKey, dead) && (s.execution == [] || s.execution == [e])
    requires v in s.t.waiters && v.key == w.key && v != w
    ensures InLine(s.t.waiters, AfterDeaths(s, o, e, lastKey, dead).t.waiters, v, w,
                   w.esi in dead || (w.esi == e && Dies(o)))
  {
    hide SockAll;
    var s1 := AfterReport(s, o, e, lastKey);
    ReportShrinks(s, o, e, lastKey, dead);
    ReporterLives(s, o, e, lastKey, dead);
    WaitsIn(s.t.waiters);
    if o == IAmBlocked {
      assert v.esi != e;
      if Behind(s.t.waiters, w, v) {
        AppendBehind(s.t.waiters, Waiter(e, lastKey), w, v);
      }
    } else if Dies(o) {
      ReleasedLine(Buried(s.t, e), e, v, w);
    }
    SockAllLine(s1, dead, v, w);
  }

  lemma IdleLine(s: Sched, killedFlag: bool, killed: seq<int>, p: Pending, v: Waiter, w: Waiter)
    requires SchedInv(s) && Mortal(killed, s.bursts)
    requires v in s.t.waiters && v !in p.blocks && v.key == w.key && v != w
    ensures var r := IdleTurn(s, killedFlag, killed, p);
            InLine(s.t.waiters, r.t.waiters, v, w, w.esi !in r.bursts)
  {
    hide Housekept;
    var dead := if killedFlag then killed else [];
    SockAllLine(s, dead, v, w);
    SockAllKeeps(s, dead);
    IdleLive(s, killedFlag, killed, p);
    HousekeptLine(SockAll(s, dead), p, v, w);
  }

  // ----- the ready queue -----

  /** y stands before x neither in the ready queue nor in the new one, nor will it when the new
      ESIs get ready or somebody is woken. */
  ghost predicate InOrder(s: Sched, x: int, y: int) {
    && Behind(s.t.ready, y, x) && Behind(s.newQueue, y, x)
    && ((x !in s.newQueue && !Waits(s.t.waiters, x)) || (y !in s.t.ready && !Waits(s.t.waiters, y)))
  }

  lemma UnlockInOrder(s: Sched, j: Key, wasStore: bool, x: int, y: int)
    requires InOrder(s, x, y) && UniqueWaiters(s.t.waiters)
    ensures InOrder(Woke(s, j, wasStore), x, y) && UniqueWaiters(Unlock(s.t, j, wasStore).waiters)
    ensures forall z :: Waits(Unlock(s.t, j, wasStore).waiters, z) ==> Waits(s.t.waiters, z)
  {
    var i := FirstIndex(s.t.waiters, WaiterOn(j));
    if i >= 0 {
      var f := s.t.waiters[i].esi;
      assert Waits(s.t.waiters, f);
      DropWaiterElements(s.t.waiters, f);
      AppendBehind(s.t.ready, f, y, x);
    }
  }

  lemma {:induction false} UnlockAllInOrder(s: Sched, ks: seq<Key>, x: int, y: int)
    requires InOrder(s, x, y) && UniqueWaiters(s.t.waiters)
    ensures InOrder(s.(t := UnlockAll(s.t, ks)), x, y) && UniqueWaiters(UnlockAll(s.t, ks).waiters)
  {
    if ks != [] {
      UnlockAllInOrder(s, ks[..|ks| - 1], x, y);
      UnlockInOrder(s.(t := UnlockAll(s.t, ks[..|ks| - 1])), ks[|ks| - 1], true, x, y);
    }
  }

  lemma ReleasedInOrder(s: Sched, e: int, x: int, y: int)
    requires InOrder(s, x, y) && UniqueWaiters(s.t.waiters)
    ensures InOrder(s.(t := Released(s.t, e)), x, y)
  {
    var u := UnlockAll(s.t, OwnedKeys(s.t.locks, e));
    UnlockAllInOrder(s, OwnedKeys(s.t.locks, e), x, y);
    DropWaiterElements(u.waiters, e);
  }

  lemma SockInOrder(s: Sched, e: int, x: int, y: int)
    requires InOrder(s, x, y) && UniqueWaiters(s.t.waiters)
    ensures InOrder(Socked(s, e), x, y)
  {
    hide Released;
    var b := s.(t := Buried(s.t, e), newQueue := TakeOut(s.newQueue, e));
    RemoveBehind(s.t.ready, Is(e), y, x);
    RemoveBehind(s.newQueue, Is(e), y, x);
    assert InOrder(b, x, y);
    ReleasedInOrder(b, e, x, y);
  }

  lemma {:induction false} SockAllInOrder(s: Sched, es: seq<int>, x: int, y: int)
    requires SchedInv(s) && NoRepeats(es) && (forall e :: e in es ==> e in s.bursts) && InOrder(s, x, y)
    ensures InOrder(SockAll(s, es), x, y)
  {
    if es != [] {
      var front, e := es[..|es| - 1], es[|es| - 1];
      assert es == front + [e];
      SockAllInOrder(s, front, x, y);
      SockAllKeeps(s, front);
      SockInOrder(SockAll(s, front), e, x, y);
    }
  }

  lemma {:induction false} WakeAllInOrder(s: Sched, ks: seq<Key>, x: int, y: int)
    requires InOrder(s, x, y) && UniqueWaiters(s.t.waiters)
    ensures InOrder(WakeAll(s, ks), x, y) && UniqueWaiters(WakeAll(s, ks).t.waiters)
  {
    if ks != [] {
      WakeAllInOrder(s, ks[..|ks| - 1], x, y);
      UnlockInOrder(WakeAll(s, ks[..|ks| - 1]), ks[|ks| - 1], false, x, y);
    }
  }

  lemma {:induction false} BlockAllInOrder(s: Sched, ws: seq<Waiter>, x: int, y: int)
    requires Behind(s.t.ready, y, x)
    ensures Behind(BlockAll(s, ws).t.ready, y, x)
  {
    if ws != [] {
      BlockAllInOrder(s, ws[..|ws| - 1], x, y);
      RemoveBehind(BlockAll(s, ws[..|ws| - 1]).t.ready, Is(ws[|ws| - 1].esi), y, x);
    }
  }

  lemma ConsoleBlockedInOrder(s: Sched, blocks: seq<Waiter>, x: int, y: int)
    requires Behind(s.t.ready, y, x)
    ensures Behind(ConsoleBlocked(s, blocks).t.ready, y, x)
  {
    var s1, others := BlockExecuting(s, blocks), OtherBlocks(s, blocks);
    var i := BlockOfExecuting(s, blocks);
    if i >= 0 {
      RemoveBehind(s.t.ready, Is(blocks[i].esi), y, x);
    }
    var ours := Keep(others, OnReady(s1.t.ready));
    BlockAllInOrder(s1, ours, x, y);
    OrphanAllLocksOnly(BlockAll(s1, ours), DropEach(others, ours));
  }

  lemma HousekeptInOrder(s: Sched, p: Pending, x: int, y: int)
    requires InOrder(s, x, y) && UniqueWaiters(s.t.waiters)
    ensures Behind(Housekept(s, p).t.ready, y, x)
  {
    hide WakeAll;
    hide ConsoleBlocked;
    hide Unlock;
    var u := if s.unlock then Woke(s, p.key, true).(unlock := false) else s;
    UnlockInOrder(s, p.key, true, x, y);
    WakeAllInOrder(u, p.consoleKeys, x, y);
    var r := AfterReleases(s, p);
    ConcatBehind(r.t.ready, r.newQueue, y, x);
    ConsoleBlockedInOrder(if p.arrivals then Admitted(r) else r, p.blocks, x, y);
  }

  /** x stood in the ready queue, and y not before it; or y is new, and x does not stand behind
      it among the new ones. */
  ghost predicate Earlier(s: Sched, x: int, y: int) {
    (x in s.t.ready && Behind(s.t.ready, y, x)) || (y in s.newQueue && Behind(s.newQueue, y, x))
  }

  lemma EarlierInOrder(s: Sched, x: int, y: int)
    requires SchedInv(s) && Earlier(s, x, y)
    ensures InOrder(s, x, y)
  {
    QueuesApart(s, x);
    QueuesApart(s, y);
  }

  lemma QueuesApart(s: Sched, e: int)
    requires SchedInv(s)
    ensures e in s.t.ready ==> e !in s.newQueue && !Waits(s.t.waiters, e) && e !in s.execution
    ensures e in s.newQueue ==> !Waits(s.t.waiters, e) && e !in s.t.ready && e !in s.execution
  {
    PartsApart(s.t, Rest(s), s.bursts);
    assert Rest(s)[e] == multiset(s.newQueue)[e] + multiset(s.execution)[e];
    assert e in s.t.ready ==> e in multiset(s.t.ready);
    assert e in s.newQueue ==> e in multiset(s.newQueue);
    assert e in s.t.blocked ==> e in multiset(s.t.blocked);
    assert e in s.execution ==> e in multiset(s.execution);
  }

  lemma ReportInOrder(s: Sched, o: Outcome, e: int, lastKey: Key, dead: seq<int>, x: int, y: int)
    requires SchedInv(s) && Reportable(s, o, e, lastKey, dead) && (s.execution == [] || s.execution == [e])
    requires Earlier(s, x, y)
    ensures InOrder(AfterReport(s, o, e, lastKey), x, y)
  {
    hide Socked;
    EarlierInOrder(s, x, y);
    WaitersOnce(s);
    QueuesApart(s, x);
    QueuesApart(s, y);
    ReporterLives(s, o, e, lastKey, dead);
    if o == IAmBlocked {
      TakeOutAbsent(s.t.ready, e);
      WaitsAppend(s.t.waiters, Waiter(e, lastKey));
    } else if Dies(o) {
      SockInOrder(s, e, x, y);
    }
  }

  /** The ready queue after a turn, before an election: the ones that were ready come first, in
      the order they had; then the ones that were woken; then the new ones, in theirs. */
  lemma TurnInOrder(s: Sched, o: Outcome, e: int, lastKey: Key, killedFlag: bool, killed: seq<int>, p: Pending,
                    x: int, y: int)
    requires SchedInv(s) && Reportable(s, o, e, lastKey, killed) && (s.execution == [] || s.execution == [e])
    requires Earlier(s, x, y)
    ensures Behind(Turn(s, o, e, lastKey, killedFlag, killed, p).t.ready, y, x)
  {
    hide SockAll;
    hide Housekept;
    hide Released;
    hide SchedInv;
    hide InOrder;
    var dead := Dead(killedFlag, killed, o, e);
    DeadReportable(s, o, e, lastKey, killedFlag, killed);
    ReportInOrder(s, o, e, lastKey, dead, x, y);
    ReportShrinks(s, o, e, lastKey, dead);
    SockAllInOrder(AfterReport(s, o, e, lastKey), dead, x, y);
    var s2 := AfterDeaths(s, o, e, lastKey, dead);
    DeathsLive(s, o, e, lastKey, dead);
    WaitersOnce(s2);
    OrderIs(s2, x, y);
    HousekeptInOrder(s2, p, x, y);
    ReleasedInOrder(s2, e, x, y);
    OrderIs(s2.(t := Released(s2.t, e)), x, y);
  }

  lemma OrderIs(s: Sched, x: int, y: int)
    requires InOrder(s, x, y)
    ensures Behind(s.t.ready, y, x)
  {
  }

  lemma IdleInOrder(s: Sched, killedFlag: bool, killed: seq<int>, p: Pending, x: int, y: int)
    requires SchedInv(s) && Mortal(killed, s.bursts) && Earlier(s, x, y)
    ensures Behind(IdleTurn(s, killedFlag, killed, p).t.ready, y, x)
  {
    hide Housekept;
    hide SockAll;
    var dead := if killedFlag then killed else [];
    EarlierInOrder(s, x, y);
    SockAllInOrder(s, dead, x, y);
    SockAllKeeps(s, dead);
    HousekeptInOrder(SockAll(s, dead), p, x, y);
  }

  // ----- what a turn leaves in the new queue, and pending -----

  /** A turn that goes on takes the new ESIs in when an arrival is pending. */
  lemma TurnTakesIn(s: Sched, o: Outcome, e: int, lastKey: Key, killedFlag: bool, killed: seq<int>, p: Pending)
    requires p.arrivals && o != Success(true)
    ensures Turn(s, o, e, lastKey, killedFlag, killed, p).newQueue == []
  {
    hide SockAll;
    hide Housekept;
    hide AfterReport;
    HousekeptLive(AfterDeaths(s, o, e, lastKey, Dead(killedFlag, killed, o, e)), p);
  }

  lemma IdleTakesIn(s: Sched, killedFlag: bool, killed: seq<int>, p: Pending)
    requires p.arrivals
    ensures IdleTurn(s, killedFlag, killed, p).newQueue == []
  {
    hide SockAll;
    hide Housekept;
    HousekeptLive(SockAll(s, if killedFlag then killed else []), p);
  }

  /** Which notes a turn after a report clears: none at the end of a script, and none when there is
      neither an arrival nor a release; else all of them. */
  lemma TurnNotes(s: Sched, o: Outcome, e: int, lastKey: Key, killedFlag: bool, killed: seq<int>, p: Pending)
    requires SchedInv(s) && Reportable(s, o, e, lastKey, killed) && (s.execution == [] || s.execution == [e])
    ensures var q := TurnPending(s, o, e, lastKey, killedFlag, killed, p);
            && q.key == p.key
            && (o == Success(true) || !(s.unlock || p.arrivals || p.consoleUnlock) ==> q == p)
            && (o != Success(true) && (p.arrivals || p.consoleUnlock || (s.unlock && !killedFlag && !Dies(o))) ==>
                  && !q.arrivals && !q.consoleBlock && q.consoleUnlock == (p.consoleUnlock && p.consoleKeys == [])
                  && q.blocks == (if p.consoleBlock then [] else p.blocks)
                  && q.consoleKeys == (if p.consoleUnlock then [] else p.consoleKeys))
  {
    hide SockAll;
    hide SchedInv;
    hide AfterReport;
    hide Dead;
    hide Reportable;
    var dead := Dead(killedFlag, killed, o, e);
    DeadReportable(s, o, e, lastKey, killedFlag, killed);
    PendingAfterDeaths(s, o, e, lastKey, dead);
    NobodyDead(killedFlag, killed, o, e);
  }

  lemma NobodyDead(killedFlag: bool, killed: seq<int>, o: Outcome, e: int)
    ensures !killedFlag ==> Dead(killedFlag, killed, o, e) == []
  {
  }

  /** A pending release can get lost by deaths, and is there afterwards only if it was before. */
  lemma PendingAfterDeaths(s: Sched, o: Outcome, e: int, lastKey: Key, dead: seq<int>)
    requires SchedInv(s) && Reportable(s, o, e, lastKey, dead) && (s.execution == [] || s.execution == [e])
    ensures AfterDeaths(s, o, e, lastKey, dead).unlock ==> s.unlock
    ensures dead == [] && !Dies(o) ==> AfterDeaths(s, o, e, lastKey, dead).unlock == s.unlock
  {
    hide SchedInv;
    hide Reportable;
    hide Released;
    var s1 := AfterReport(s, o, e, lastKey);
    ReportShrinks(s, o, e, lastKey, dead);
    SockAllUnlock(s1, dead);
  }

  lemma IdleIs(s: Sched, killedFlag: bool, killed: seq<int>, p: Pending)
    ensures var s2 := SockAll(s, if killedFlag then killed else []);
            && IdleTurn(s, killedFlag, killed, p) == Housekept(s2, p)
            && IdlePending(s, killedFlag, killed, p) == Cleared(p).(arrivals := p.arrivals && s2.newQueue == [])
  {
    hide SockAll;
    hide Housekept;
  }

  lemma IdleNotes(s: Sched, killedFlag: bool, killed: seq<int>, p: Pending)
    ensures var q := IdlePending(s, killedFlag, killed, p);
            && q.key == p.key && !q.consoleBlock && q.blocks == (if p.consoleBlock then [] else p.blocks)
            && q.consoleUnlock == (p.consoleUnlock && p.consoleKeys == [])
            && q.consoleKeys == (if p.consoleUnlock then [] else p.consoleKeys)
            && (q.arrivals ==> p.arrivals)
  {
  }

  /** With nothing but an arrival pending an idle turn moves the new queue behind the ready one. */
  lemma ArrivalsOnly(s: Sched, killed: seq<int>, p: Pending)
    requires p.arrivals
    ensures !s.unlock && !p.consoleUnlock && !p.consoleBlock ==>
              IdleTurn(s, false, killed, p) == s.(newQueue := [], t := s.t.(ready := s.t.ready + s.newQueue))
  {
  }
}
