/** When the Planificador forgets a STORE: the release of the stored key shares its flag with the
    releases of the dead, which clear it. */
module StoreReleases {
  import opened Locks
  import opened Lists
  import opened Release
  import opened PlannerTables
  import opened PlannerSteps
  import opened PlannerTurns

  /** Waits for a key, and is none of the given ESIs. */
  function WaiterLeft(k: Key, gone: seq<int>): Waiter -> bool {
    (w: Waiter) => w.key == k && w.esi !in gone
  }

  /** How many ESIs wait for a key. */
  function Waiting(waiters: seq<Waiter>, k: Key): nat {
    |Keep(waiters, WaiterOn(k))|
  }

  // ----- releases by console -----

  lemma RemovedOne(s: seq<Waiter>, q: Waiter -> bool, p: Waiter -> bool)
    requires FirstIndex(s, q) >= 0
    ensures |Keep(s, p)| == |Keep(RemoveFirst(s, q), p)| + if p(s[FirstIndex(s, q)]) then 1 else 0
  {
    var i := FirstIndex(s, q);
    var a, w, b := s[..i], s[i], s[i + 1..];
    hide FirstIndex;
    hide RemoveFirst;
    hide Keep;
    SplitAt(s, q);
    KeepAround(a, w, b, p);
    KeepConcat(a, b, p);
  }

  lemma SplitAt(s: seq<Waiter>, q: Waiter -> bool)
    requires FirstIndex(s, q) >= 0
    ensures var i := FirstIndex(s, q);
            s == s[..i] + [s[i]] + s[i + 1..] && RemoveFirst(s, q) == s[..i] + s[i + 1..]
  {
  }

  lemma KeepAround(a: seq<Waiter>, w: Waiter, b: seq<Waiter>, p: Waiter -> bool)
    ensures |Keep(a + [w] + b, p)| == |Keep(a, p)| + |Keep(b, p)| + if p(w) then 1 else 0
  {
    KeepConcat(a + [w], b, p);
    KeepConcat(a, [w], p);
    KeepSingle(w, p);
  }

  lemma KeepSingle(w: Waiter, p: Waiter -> bool)
    ensures Keep([w], p) == if p(w) then [w] else []
  {
    assert [w][..0] == [];
  }

  lemma NoneWaits(waiters: seq<Waiter>, k: Key)
    ensures Waiting(waiters, k) == 0 <==> FirstWaiter(waiters, k) == []
  {
    FirstWaiterIn(waiters, k);
    if FirstWaiter(waiters, k) == [] {
      assert forall i :: 0 <= i < |waiters| ==> waiters[i] in waiters;
      KeepNone(waiters, WaiterOn(k));
    } else {
      assert Waiter(FirstWaiter(waiters, k)[0], k) in Keep(waiters, WaiterOn(k));
    }
  }

  /** A release takes one waiter from its own key, if it has one, and none from any other. */
  lemma UnlockTakesOne(t: Tables, j: Key, k: Key)
    requires UniqueWaiters(t.waiters)
    ensures Waiting(Unlock(t, j, false).waiters, k)
            == Waiting(t.waiters, k) - if j == k && Waiting(t.waiters, k) > 0 then 1 else 0
  {
    FirstWaiterIn(t.waiters, j);
    NoneWaits(t.waiters, j);
    var e := FirstWaiter(t.waiters, j);
    if e != [] {
      var m :| 0 <= m < |t.waiters| && t.waiters[m] == Waiter(e[0], j);
      assert WaiterOf(e[0])(t.waiters[m]);
      var i := FirstIndex(t.waiters, WaiterOf(e[0]));
      assert t.waiters[i] in t.waiters;
      OneRequest(t.waiters, t.waiters[i], Waiter(e[0], j));
      RemovedOne(t.waiters, WaiterOf(e[0]), WaiterOn(k));
      assert WaiterOn(k)(t.waiters[i]) <==> j == k;
      assert Unlock(t, j, false).waiters == RemoveFirst(t.waiters, WaiterOf(e[0]));
      assert Waiting(Unlock(t, j, false).waiters, k) == Waiting(t.waiters, k) - if j == k then 1 else 0;
    }
  }

  /** A console release drops the lock of its key exactly when nobody waits for it. */
  lemma UnlockDrops(t: Tables, j: Key, l: Lock)
    requires UniqueLocks(t.locks)
    ensures l in Unlock(t, j, false).locks <==> l in t.locks && !(l.key == j && Waiting(t.waiters, j) == 0)
  {
    NoneWaits(t.waiters, j);
    DropLockElements(t.locks, j);
  }

  /** Console releases drop a lock exactly when they name its key more often than it has waiters. */
  lemma {:induction false} WakeAllDrops(s: Sched, ks: seq<Key>, l: Lock)
    requires SchedInv(s) && l in s.t.locks
    ensures l in WakeAll(s, ks).t.locks <==> multiset(ks)[l.key] <= Waiting(s.t.waiters, l.key)
    ensures l in WakeAll(s, ks).t.locks ==>
              Waiting(WakeAll(s, ks).t.waiters, l.key) == Waiting(s.t.waiters, l.key) - multiset(ks)[l.key]
  {
    if ks != [] {
      var front, j := ks[..|ks| - 1], ks[|ks| - 1];
      assert ks == front + [j];
      WakeAllDrops(s, front, l);
      WakeAllKeeps(s, front);
      UnlockDrops(WakeAll(s, front).t, j, l);
      UnlockTakesOne(WakeAll(s, front).t, j, l.key);
    }
  }

  // ----- deaths -----

  lemma KeepBoth(ws: seq<Waiter>, p: Waiter -> bool, q: Waiter -> bool, r: Waiter -> bool)
    requires forall w :: w in ws ==> r(w) == (p(w) && q(w))
    ensures Keep(Keep(ws, p), q) == Keep(ws, r)
  {
    KeepTwice(ws, p, q);
    KeepAgree(ws, x => p(x) && q(x), r);
  }

  /** Nobody who waits for a key of somebody else is woken by the release of this ESI. */
  lemma NotWoken(t: Tables, d: int, w: Waiter)
    requires UniqueWaiters(t.waiters) && w in t.waiters && Lock(w.key, d) !in t.locks
    ensures w.esi !in Woken(t.waiters, OwnedKeys(t.locks, d))
  {
    var ks := OwnedKeys(t.locks, d);
    if w.esi in Woken(t.waiters, ks) {
      WokenWait(t.waiters, ks, w.esi);
      var k :| k in ks && Waiter(w.esi, k) in t.waiters;
      OneRequest(t.waiters, w, Waiter(w.esi, k));
      OwnedIs(t.locks, d, k);
    }
  }

  lemma SockLeaves(s: Sched, d: int, k: Key)
    requires SchedInv(s) && d in s.bursts && Lock(k, d) !in s.t.locks
    ensures Keep(Socked(s, d).t.waiters, WaiterOn(k)) == Keep(Keep(s.t.waiters, WaiterOn(k)), WaiterNotIn([d]))
  {
    var t := Buried(s.t, d);
    BuryLeaves(s, d);
    ReleaseExact(t, d);
    var gone := Woken(t.waiters, OwnedKeys(t.locks, d)) + [d];
    forall w | w in t.waiters && w.key == k
      ensures w.esi in gone <==> w.esi == d
    {
      NotWoken(t, d, w);
    }
    KeepBoth(t.waiters, WaiterNotIn(gone), WaiterOn(k), WaiterLeft(k, [d]));
    KeepBoth(t.waiters, WaiterOn(k), WaiterNotIn([d]), WaiterLeft(k, [d]));
  }

  /** After the deaths of others than its owner, who still waits for a key are those who did and
      have not died, in the same order. */
  lemma {:induction false} SockAllLeaves(s: Sched, es: seq<int>, k: Key)
    requires SchedInv(s) && NoRepeats(es) && (forall e :: e in es ==> e in s.bursts)
    requires forall l :: l in s.t.locks && l.key == k ==> l.esi !in es
    ensures Keep(SockAll(s, es).t.waiters, WaiterOn(k)) == Keep(s.t.waiters, WaiterLeft(k, es))
  {
    if es == [] {
      KeepAgree(s.t.waiters, WaiterOn(k), WaiterLeft(k, es));
    } else {
      var front, d := es[..|es| - 1], es[|es| - 1];
      assert es == front + [d];
      SockAllLeaves(s, front, k);
      SockAllKeeps(s, front);
      SockLeaves(SockAll(s, front), d, k);
      KeepBoth(s.t.waiters, WaiterLeft(k, front), WaiterNotIn([d]), WaiterLeft(k, es));
    }
  }

  // ----- console blocks -----

  lemma {:induction false} BlockAllLocks(s: Sched, ws: seq<Waiter>, l: Lock)
    requires forall w :: w in ws ==> l != Lock(w.key, w.esi)
    ensures l in BlockAll(s, ws).t.locks <==> l in s.t.locks
  {
    if ws != [] {
      assert ws[|ws| - 1] in ws;
      BlockAllLocks(s, ws[..|ws| - 1], l);
    }
  }

  lemma {:induction false} OrphanAllLocks(s: Sched, ws: seq<Waiter>, l: Lock)
    requires l.esi != SYSTEM
    ensures l in OrphanAll(s, ws).t.locks <==> l in s.t.locks
  {
    if ws != [] {
      OrphanAllLocks(s, ws[..|ws| - 1], l);
    }
  }

  /** Console blocks touch no lock but the ones they ask for. */
  lemma BlocksLeave(s: Sched, blocks: seq<Waiter>, l: Lock)
    requires l.esi != SYSTEM && forall w :: w in blocks ==> l != Lock(w.key, w.esi)
    ensures l in ConsoleBlocked(s, blocks).t.locks <==> l in s.t.locks
  {
    var s1, others := BlockExecuting(s, blocks), OtherBlocks(s, blocks);
    var i := BlockOfExecuting(s, blocks);
    assert i >= 0 ==> blocks[i] in blocks;
    forall w | w in others
      ensures w in blocks
    {
    }
    var ours := Keep(others, OnReady(s1.t.ready));
    BlockAllLocks(s1, ours, l);
    OrphanAllLocks(BlockAll(s1, ours), DropEach(others, ours), l);
  }

  // ----- the turn -----

  /** Enough console releases of a key to use up all who wait for it and do not die. */
  predicate FreedByConsole(s: Sched, dead: seq<int>, p: Pending) {
    p.consoleUnlock && multiset(p.consoleKeys)[p.key] > |Keep(s.t.waiters, WaiterLeft(p.key, dead))|
  }

  /** What the releases of a turn do to the lock of the stored key. */
  lemma ReleasesDrop(s: Sched, p: Pending, l: Lock)
    requires SchedInv(s) && l in s.t.locks && l.key == p.key
    ensures l !in AfterReleases(s, p).t.locks <==>
            s.unlock || (p.consoleUnlock && multiset(p.consoleKeys)[p.key] > Waiting(s.t.waiters, p.key))
  {
    if s.unlock {
      ReleasedAtOnce(s, p, l);
    } else if p.consoleUnlock {
      WakeAllDrops(s, p.consoleKeys, l);
    }
  }

  lemma ReleasedAtOnce(s: Sched, p: Pending, l: Lock)
    requires SchedInv(s) && s.unlock && l.key == p.key
    ensures l !in AfterReleases(s, p).t.locks
  {
    var u := Woke(s, p.key, true).(unlock := false);
    StoreReleaseKeeps(s, p.key);
    DropLockElements(s.t.locks, p.key);
    assert l !in u.t.locks;
    if p.consoleUnlock {
      WakeAllKeeps(u, p.consoleKeys);
    }
  }

  lemma HousekeptDrops(s: Sched, p: Pending, l: Lock)
    requires SchedInv(s) && l in s.t.locks && l.key == p.key && l.esi != SYSTEM
    requires forall w :: w in p.blocks ==> l != Lock(w.key, w.esi)
    ensures l !in Housekept(s, p).t.locks <==>
            s.unlock || (p.consoleUnlock && multiset(p.consoleKeys)[p.key] > Waiting(s.t.waiters, p.key))
  {
    ReleasesDrop(s, p, l);
    var r := AfterReleases(s, p);
    BlocksLeave(if p.arrivals then Admitted(r) else r, p.blocks, l);
  }

  lemma HousekeptAdds(s: Sched, p: Pending, l: Lock)
    requires SchedInv(s) && l !in s.t.locks && l.esi != SYSTEM
    requires forall w :: w in p.blocks ==> l != Lock(w.key, w.esi)
    ensures l !in Housekept(s, p).t.locks
  {
    ReleasesKeep(s, p);
    var r := AfterReleases(s, p);
    BlocksLeave(if p.arrivals then Admitted(r) else r, p.blocks, l);
  }

  lemma SuccessTurn(s: Sched, e: int, lastKey: Key, killedFlag: bool, killed: seq<int>, p: Pending)
    ensures Turn(s, Success(false), e, lastKey, killedFlag, killed, p)
         == Closed(SockAll(s, if killedFlag then killed else []), Success(false), e, p)
  {
    hide SockAll;
    hide Closed;
  }

  lemma LocksOnce(s: Sched)
    requires SchedInv(s)
    ensures UniqueLocks(s.t.locks)
  {
  }

  lemma RunsAlive(s: Sched, e: int)
    requires SchedInv(s) && s.execution == [e]
    ensures e in s.bursts && e != SYSTEM
  {
    LiveParts(s);
    assert Active(s, e);
  }

  /** The ESI that stored the key does not have it any more at the end of the turn exactly when
      no ESI killed in that turn held a key, or it was killed itself, or console releases free
      the key anyway. */
  lemma StoreReleasedIff(s: Sched, e: int, lastKey: Key, killedFlag: bool, killed: seq<int>, p: Pending)
    requires SchedInv(s) && s.execution == [e] && Mortal(killed, s.bursts)
    requires s.unlock && Lock(p.key, e) in s.t.locks && Fair(p.blocks, s.bursts, s.t.locks)
    ensures var dead := if killedFlag then killed else [];
            Lock(p.key, e) !in Turn(s, Success(false), e, lastKey, killedFlag, killed, p).t.locks
            <==> NoneHolds(s.t.locks, dead) || e in dead || FreedByConsole(s, dead, p)
  {
    hide SockAll;
    hide Housekept;
    hide Turn;
    hide SchedInv;
    hide NoneHolds;
    hide Keep;
    var dead, l := if killedFlag then killed else [], Lock(p.key, e);
    var s2 := SockAll(s, dead);
    SuccessTurn(s, e, lastKey, killedFlag, killed, p);
    RunsAlive(s, e);
    SockAllUnlock(s, dead);
    SockAllKeeps(s, dead);
    if e in dead {
      HousekeptAdds(s2, p, l);
    } else {
      forall m | m in s.t.locks && m.key == p.key
        ensures m.esi !in dead
      {
        LocksOnce(s);
        OneOwner(s.t.locks, m, l);
      }
      SockAllLeaves(s, dead, p.key);
      HousekeptDrops(s2, p, l);
    }
  }

  /** ESI 1 has just stored its key "a"; ESI 2 has the key "b". */
  const JUST_STORED := Sched([], [1], [1, 2], Tables([2], [], [Lock("a", 1), Lock("b", 2)], []), true)

  /** When ESI 2 is killed in that turn, "a" stays locked. */
  lemma KillForgetsStore(p: Pending)
    requires p.key == "a" && !p.consoleUnlock && p.blocks == []
    ensures SchedInv(JUST_STORED)
    ensures Lock("a", 1) in Turn(JUST_STORED, Success(false), 1, "a", true, [2], p).t.locks
    ensures Lock("a", 1) !in Turn(JUST_STORED, Success(false), 1, "a", false, [], p).t.locks
  {
    hide Turn;
    hide SchedInv;
    JustStored();
    StoreReleasedIff(JUST_STORED, 1, "a", true, [2], p);
    StoreReleasedIff(JUST_STORED, 1, "a", false, [], p);
  }

  lemma JustStored()
    ensures SchedInv(JUST_STORED) && !NoneHolds(JUST_STORED.t.locks, [2])
  {
    assert [1, 2] == [1] + [2];
    assert JUST_STORED.t.locks[1].esi == 2;
  }
}
