/** Who is woken: of those who wait for a key the first ones, in order, as many as the key is
    released times. */
module Wakings {
  import opened Locks
  import opened Lists
  import opened Release
  import opened PlannerTables
  import opened PlannerSteps
  import opened PlannerTurns
  import opened StoreReleases
  import opened QueueOrder
  import opened TurnLaws

  /** The requests for a key, first come first. */
  function Line(waiters: seq<Waiter>, k: Key): seq<Waiter> {
    Keep(waiters, WaiterOn(k))
  }

  /** A list without its first n elements. */
  function Skip<T>(q: seq<T>, n: nat): seq<T> {
    if n <= |q| then q[n..] else []
  }

  lemma LineAround(a: seq<Waiter>, w: Waiter, b: seq<Waiter>, k: Key)
    ensures Line(a + [w] + b, k) == Line(a, k) + (if w.key == k then [w] else []) + Line(b, k)
    ensures Line(a + b, k) == Line(a, k) + Line(b, k)
  {
    hide Keep;
    KeepConcat(a + [w], b, WaiterOn(k));
    KeepConcat(a, [w], WaiterOn(k));
    KeepConcat(a, b, WaiterOn(k));
    KeepSingle(w, WaiterOn(k));
  }

  lemma EmptyLine(waiters: seq<Waiter>, k: Key)
    requires forall i :: 0 <= i < |waiters| ==> waiters[i].key != k
    ensures Line(waiters, k) == []
  {
    KeepNone(waiters, WaiterOn(k));
  }

  /** The list around its first request for a key. */
  lemma SplitFirst(waiters: seq<Waiter>, k: Key)
    ensures var i := FirstIndex(waiters, WaiterOn(k));
            if i < 0 then Line(waiters, k) == []
            else
              && waiters == waiters[..i] + [waiters[i]] + waiters[i + 1..] && waiters[i].key == k
              && Line(waiters[..i], k) == []
              && Line(waiters, k) == [waiters[i]] + Line(waiters[i + 1..], k)
  {
    hide Line;
    hide FirstIndex;
    var i := FirstIndex(waiters, WaiterOn(k));
    assert forall j :: 0 <= j < (if i < 0 then |waiters| else i) ==> !WaiterOn(k)(waiters[j]);
    if i < 0 {
      EmptyLine(waiters, k);
    } else {
      EmptyLine(waiters[..i], k);
      LineAround(waiters[..i], waiters[i], waiters[i + 1..], k);
      assert waiters == waiters[..i] + [waiters[i]] + waiters[i + 1..];
    }
  }

  /** The first request in list order: the one that no other on the key stands before. */
  lemma FirstInLine(waiters: seq<Waiter>, k: Key)
    ensures FirstWaiter(waiters, k) == if Line(waiters, k) == [] then [] else [Line(waiters, k)[0].esi]
  {
    hide Line;
    SplitFirst(waiters, k);
  }

  /** Releasing a key takes the first request for it, and no request for another. */
  lemma UnlockTakes(t: Tables, j: Key, wasStore: bool, k: Key)
    requires UniqueWaiters(t.waiters)
    ensures Line(Unlock(t, j, wasStore).waiters, k) == Skip(Line(t.waiters, k), if j == k then 1 else 0)
  {
    hide Line;
    SplitFirst(t.waiters, j);
    var i := FirstIndex(t.waiters, WaiterOn(j));
    if i >= 0 {
      var a, w, b := t.waiters[..i], t.waiters[i], t.waiters[i + 1..];
      DropAt(t.waiters, i);
      LineAround(a, w, b, k);
    }
  }

  /** Dropping the waiter of an entry drops that entry. */
  lemma DropAt(waiters: seq<Waiter>, i: nat)
    requires UniqueWaiters(waiters) && i < |waiters|
    ensures DropWaiter(waiters, waiters[i].esi) == waiters[..i] + waiters[i + 1..]
  {
    var m := FirstIndex(waiters, WaiterOf(waiters[i].esi));
    assert WaiterOf(waiters[i].esi)(waiters[i]);
  }

  lemma {:induction false} WakeAllTakes(s: Sched, ks: seq<Key>, k: Key)
    requires SchedInv(s)
    ensures Line(WakeAll(s, ks).t.waiters, k) == Skip(Line(s.t.waiters, k), multiset(ks)[k])
  {
    if ks != [] {
      hide Line;
      hide Unlock;
      hide SchedInv;
      hide Skip;
      var front, j := ks[..|ks| - 1], ks[|ks| - 1];
      CountAppend(ks, k);
      WakeAllTakes(s, front, k);
      WakeAllKeeps(s, front);
      WaitersOnce(WakeAll(s, front));
      UnlockTakes(WakeAll(s, front).t, j, false, k);
      SkipMore(Line(s.t.waiters, k), multiset(front)[k], if j == k then 1 else 0);
    }
  }

  lemma CountAppend(ks: seq<Key>, k: Key)
    requires ks != []
    ensures multiset(ks)[k] == multiset(ks[..|ks| - 1])[k] + if ks[|ks| - 1] == k then 1 else 0
  {
    assert ks == ks[..|ks| - 1] + [ks[|ks| - 1]];
  }

  lemma SkipMore<T>(q: seq<T>, n: nat, m: nat)
    ensures Skip(Skip(q, n), m) == Skip(q, n + m)
  {
  }

  /** How many times a turn releases a key. */
  function Releases(s: Sched, p: Pending, k: Key): nat {
    (if s.unlock && p.key == k then 1 else 0) + if p.consoleUnlock then multiset(p.consoleKeys)[k] else 0
  }

  lemma ReleasesTake(s: Sched, p: Pending, k: Key)
    requires SchedInv(s)
    ensures Line(AfterReleases(s, p).t.waiters, k) == Skip(Line(s.t.waiters, k), Releases(s, p, k))
  {
    hide Line;
    hide WakeAll;
    hide SchedInv;
    hide Unlock;
    WaitersOnce(s);
    UnlockTakes(s.t, p.key, true, k);
    StoreReleaseKeeps(s, p.key);
    var u := if s.unlock then Woke(s, p.key, true).(unlock := false) else s;
    WakeAllTakes(u, p.consoleKeys, k);
    SkipMore(Line(s.t.waiters, k), if s.unlock && p.key == k then 1 else 0,
             if p.consoleUnlock then multiset(p.consoleKeys)[k] else 0);
  }

  // ----- console blocks stand behind -----

  lemma {:induction false} BlockAllAppends(s: Sched, ws: seq<Waiter>, k: Key)
    ensures Line(s.t.waiters, k) <= Line(BlockAll(s, ws).t.waiters, k)
  {
    if ws != [] {
      var front, w := ws[..|ws| - 1], ws[|ws| - 1];
      BlockAllAppends(s, front, k);
      KeepConcat(BlockAll(s, front).t.waiters, [w], WaiterOn(k));
    }
  }

  lemma ConsoleBlockedAppends(s: Sched, blocks: seq<Waiter>, k: Key)
    ensures Line(s.t.waiters, k) <= Line(ConsoleBlocked(s, blocks).t.waiters, k)
  {
    var s1, others := BlockExecuting(s, blocks), OtherBlocks(s, blocks);
    var i := BlockOfExecuting(s, blocks);
    if i >= 0 {
      KeepConcat(s.t.waiters, [blocks[i]], WaiterOn(k));
    }
    var ours := Keep(others, OnReady(s1.t.ready));
    BlockAllAppends(s1, ours, k);
    OrphanAllLocksOnly(BlockAll(s1, ours), DropEach(others, ours));
  }

  /** What the housekeeping of a turn does to those who wait for a key: the first ones are woken,
      as many as it is released times, and the others stay in front of whom console blocks add. */
  lemma HousekeptTakes(s: Sched, p: Pending, k: Key)
    requires SchedInv(s) && Fair(p.blocks, s.bursts, s.t.locks)
    ensures Served(Skip(Line(s.t.waiters, k), Releases(s, p, k)), Line(Housekept(s, p).t.waiters, k), p)
  {
    hide Keep;
    hide AfterReleases;
    hide ConsoleBlocked;
    hide SchedInv;
    ReleasesTake(s, p, k);
    ReleasesKeep(s, p);
    var r := AfterReleases(s, p);
    FairShrinks(p.blocks, s, r);
    AdmitKeeps(r);
    var a := if p.arrivals then Admitted(r) else r;
    ConsoleBlockedAppends(a, p.blocks, k);
    ConsoleBlockedAdds(a, p.blocks);
  }

  /** Those who still wait, and behind them those whom pending console blocks name. */
  ghost predicate Served(left: seq<Waiter>, line: seq<Waiter>, p: Pending) {
    && left <= line
    && (forall w :: w in line ==> w in left || (p.consoleBlock && w in p.blocks))
    && (!p.consoleBlock ==> line == left)
  }

  // ----- deaths -----

  lemma {:induction false} WokenFirst(waiters: seq<Waiter>, ks: seq<Key>, e: int)
    ensures e in Woken(waiters, ks) <==> exists k :: k in ks && FirstWaiter(waiters, k) == [e]
  {
    if ks != [] {
      var front, j := ks[..|ks| - 1], ks[|ks| - 1];
      WokenFirst(waiters, front, e);
      assert forall k :: k in ks <==> k in front || k == j by {
        assert ks == front + [j];
      }
      assert e in FirstWaiter(waiters, j) <==> FirstWaiter(waiters, j) == [e];
    }
  }

  /** Of those who wait for a key of this ESI its release wakes the first one only. */
  lemma WokenOnKey(t: Tables, e: int, w: Waiter)
    requires UniqueWaiters(t.waiters) && w in t.waiters && Lock(w.key, e) in t.locks
    ensures w.esi in Woken(t.waiters, OwnedKeys(t.locks, e)) <==> FirstWaiter(t.waiters, w.key) == [w.esi]
  {
    var ks := OwnedKeys(t.locks, e);
    WokenFirst(t.waiters, ks, w.esi);
    OwnedIs(t.locks, e, w.key);
    forall k | FirstWaiter(t.waiters, k) == [w.esi]
      ensures k == w.key
    {
      FirstWaiterIn(t.waiters, k);
      OneRequest(t.waiters, w, Waiter(w.esi, k));
    }
  }

  lemma LineOnce(waiters: seq<Waiter>, k: Key)
    requires UniqueWaiters(waiters)
    ensures UniqueWaiters(Line(waiters, k))
  {
    var line := Line(waiters, k);
    forall i, j | 0 <= i < j < |line|
      ensures line[i].esi != line[j].esi
    {
      KeepAtMostOne(waiters, WaiterOn(k), WaiterOf(line[i].esi));
    }
  }

  /** The release of its owner takes the first request for a key. */
  lemma ReleasedTakes(t: Tables, e: int, k: Key)
    requires Unique(t) && Lock(k, e) in t.locks
    requires forall l, w :: l in t.locks && w in t.waiters && l.esi == e && w.esi == e ==> l.key != w.key
    ensures Line(Released(t, e).waiters, k) == Skip(Line(t.waiters, k), 1)
  {
    hide Keep;
    var gone := Woken(t.waiters, OwnedKeys(t.locks, e)) + [e];
    ReleaseExact(t, e);
    KeepBoth(t.waiters, WaiterNotIn(gone), WaiterOn(k), WaiterLeft(k, gone));
    KeepBoth(t.waiters, WaiterOn(k), WaiterNotIn(gone), WaiterLeft(k, gone));
    FirstGoes(t, e, k, gone);
  }

  lemma FirstGoes(t: Tables, e: int, k: Key, gone: seq<int>)
    requires Unique(t) && Lock(k, e) in t.locks && gone == Woken(t.waiters, OwnedKeys(t.locks, e)) + [e]
    requires forall l, w :: l in t.locks && w in t.waiters && l.esi == e && w.esi == e ==> l.key != w.key
    ensures Keep(Line(t.waiters, k), WaiterNotIn(gone)) == Skip(Line(t.waiters, k), 1)
  {
    var line := Line(t.waiters, k);
    FirstInLine(t.waiters, k);
    LineOnce(t.waiters, k);
    forall i | 0 <= i < |line|
      ensures line[i].esi in gone <==> i == 0
    {
      assert line[i] in line;
      WokenOnKey(t, e, line[i]);
    }
    if line != [] {
      KeepTail(line, WaiterNotIn(gone));
    }
  }

  lemma KeepTail(line: seq<Waiter>, p: Waiter -> bool)
    requires line != [] && forall i :: 0 <= i < |line| ==> p(line[i]) == (i != 0)
    ensures Keep(line, p) == line[1..]
  {
    hide Keep;
    assert line == [line[0]] + line[1..];
    KeepConcat([line[0]], line[1..], p);
    KeepSingle(line[0], p);
    KeepAll(line[1..], p);
  }

  lemma SockTakes(s: Sched, d: int, k: Key)
    requires SchedInv(s) && d in s.bursts && Lock(k, d) in s.t.locks
    ensures Line(Socked(s, d).t.waiters, k) == Skip(Line(s.t.waiters, k), 1)
  {
    BuryLeaves(s, d);
    ReleasedTakes(Buried(s.t, d), d, k);
  }

  /** Several deaths, the i-th of which is that of the owner: of those who wait for the key and
      have not died before it, the first one is woken; the others wait on, unless they die. */
  lemma DeathTakes(s: Sched, es: seq<int>, i: nat, k: Key)
    requires SchedInv(s) && NoRepeats(es) && forall e :: e in es ==> e in s.bursts
    requires i < |es| && Lock(k, es[i]) in s.t.locks
    ensures Line(SockAll(s, es).t.waiters, k)
            == Keep(Skip(Keep(s.t.waiters, WaiterLeft(k, es[..i])), 1), WaiterNotIn(es[i + 1..]))
  {
    hide *;
    var front, d, back := es[..i], es[i], es[i + 1..];
    PartsOnce(es, i);
    AllOf(es, s.bursts, front, d, back);
    SockAllTwice(s, front, [d] + back);
    var m := SockAll(s, front);
    SockAllKeeps(s, front);
    OwnerElsewhere(s, front, d, k);
    SockAllLeaves(s, front, k);
    SockTakes(m, d, k);
    SockAllTwice(m, [d], back);
    LockGone(m, d, k);
    FreeOf(Socked(m, d), back, k);
    LeaveLine(Socked(m, d), back, k);
    LineIs(m.t.waiters, k);
  }

  lemma LineIs(waiters: seq<Waiter>, k: Key)
    ensures Line(waiters, k) == Keep(waiters, WaiterOn(k))
  {
  }

  lemma PartsOnce(es: seq<int>, i: nat)
    requires NoRepeats(es) && i < |es|
    ensures NoRepeats(es[..i]) && NoRepeats(es[i + 1..]) && es[i] !in es[..i] && es[i] !in es[i + 1..]
    ensures forall x :: x in es[i + 1..] ==> x !in es[..i]
    ensures es == es[..i] + ([es[i]] + es[i + 1..])
  {
  }

  lemma AllOf(es: seq<int>, bursts: seq<int>, front: seq<int>, d: int, back: seq<int>)
    requires es == front + ([d] + back) && forall e :: e in es ==> e in bursts
    ensures d in bursts && (forall e :: e in front ==> e in bursts) && (forall e :: e in back ==> e in bursts)
  {
    assert d in es;
    assert forall e :: e in front ==> e in es;
    assert forall e :: e in back ==> e in es;
  }

  lemma OwnerElsewhere(s: Sched, es: seq<int>, d: int, k: Key)
    requires SchedInv(s) && Lock(k, d) in s.t.locks && d !in es
    ensures forall l :: l in s.t.locks && l.key == k ==> l.esi !in es
  {
    forall l | l in s.t.locks && l.key == k
      ensures l.esi !in es
    {
      OneOwner(s.t.locks, l, Lock(k, d));
    }
  }

  lemma FreeOf(s: Sched, es: seq<int>, k: Key)
    requires forall l :: l in s.t.locks ==> l.key != k
    ensures forall l :: l in s.t.locks && l.key == k ==> l.esi !in es
  {
  }

  lemma LockGone(s: Sched, d: int, k: Key)
    requires SchedInv(s) && d in s.bursts && Lock(k, d) in s.t.locks
    ensures SockAll(s, [d]) == Socked(s, d) && SchedInv(Socked(s, d))
    ensures forall l :: l in Socked(s, d).t.locks ==> l.key != k
    ensures forall x :: x in s.bursts && x != d ==> x in Socked(s, d).bursts
  {
    assert [d][..0] == [] && SockAll(s, []) == s;
    SockKeeps(s, d);
    forall l | l in s.t.locks && l.key == k
      ensures l.esi == d
    {
      OneOwner(s.t.locks, l, Lock(k, d));
    }
  }

  lemma LeaveLine(s: Sched, es: seq<int>, k: Key)
    requires SchedInv(s) && NoRepeats(es) && (forall e :: e in es ==> e in s.bursts)
    requires forall l :: l in s.t.locks && l.key == k ==> l.esi !in es
    ensures Line(SockAll(s, es).t.waiters, k) == Keep(Line(s.t.waiters, k), WaiterNotIn(es))
  {
    SockAllLeaves(s, es, k);
    KeepBoth(s.t.waiters, WaiterOn(k), WaiterNotIn(es), WaiterLeft(k, es));
  }

  lemma {:induction false} SockAllTwice(s: Sched, es: seq<int>, ds: seq<int>)
    ensures SockAll(s, es + ds) == SockAll(SockAll(s, es), ds)
  {
    if ds == [] {
      assert es + ds == es;
    } else {
      assert (es + ds)[..|es + ds| - 1] == es + ds[..|ds| - 1];
      SockAllTwice(s, es, ds[..|ds| - 1]);
    }
  }

  // ----- the turn -----

  /** What the report adds to the requests. */
  function Request(o: Outcome, e: int, lastKey: Key): seq<Waiter> {
    if o == IAmBlocked then [Waiter(e, lastKey)] else []
  }

  lemma ReportLine(s: Sched, o: Outcome, e: int, lastKey: Key, dead: seq<int>, k: Key)
    requires SchedInv(s) && Reportable(s, o, e, lastKey, dead) && (s.execution == [] || s.execution == [e])
    requires !Dies(o) && forall l :: l in s.t.locks && l.key == k ==> l.esi !in dead
    ensures var s2 := AfterDeaths(s, o, e, lastKey, dead);
            && Line(s2.t.waiters, k) == Keep(s.t.waiters + Request(o, e, lastKey), WaiterLeft(k, dead))
            && s2.unlock == (s.unlock && NoneHolds(s.t.locks, dead))
  {
    hide SockAll;
    hide Keep;
    hide SchedInv;
    hide Line;
    var s1 := AfterReport(s, o, e, lastKey);
    ReportShrinks(s, o, e, lastKey, dead);
    SockAllLeaves(s1, dead, k);
    SockAllUnlock(s1, dead);
    LineIs(SockAll(s1, dead).t.waiters, k);
    assert s.t.waiters + [] == s.t.waiters;
  }

  /** A turn that goes on: of those who wait for a key and have not died - the one that reports
      to be blocked last - the first ones are woken, as many as the key is released times: once
      for a STORE that no death made forgotten, once for each console release. */
  lemma TurnTakes(s: Sched, o: Outcome, e: int, lastKey: Key, killedFlag: bool, killed: seq<int>, p: Pending, k: Key)
    requires SchedInv(s) && Reportable(s, o, e, lastKey, killed) && (s.execution == [] || s.execution == [e])
    requires Fair(p.blocks, s.bursts, s.t.locks) && (o == Success(false) || o == IAmBlocked)
    requires killedFlag ==> forall l :: l in s.t.locks && l.key == k ==> l.esi !in killed
    ensures var dead := if killedFlag then killed else [];
            var line := Keep(s.t.waiters + Request(o, e, lastKey), WaiterLeft(k, dead));
            var times := (if s.unlock && NoneHolds(s.t.locks, dead) && p.key == k then 1 else 0)
                         + if p.consoleUnlock then multiset(p.consoleKeys)[k] else 0;
            Served(Skip(line, times), Line(Turn(s, o, e, lastKey, killedFlag, killed, p).t.waiters, k), p)
  {
    hide SchedInv;
    hide SockAll;
    hide Housekept;
    hide AfterReport;
    hide Keep;
    hide Line;
    hide NoneHolds;
    var dead := if killedFlag then killed else [];
    ReportLine(s, o, e, lastKey, dead, k);
    KillsKeep(s, o, e, lastKey, killedFlag, killed);
    var s2 := AfterDeaths(s, o, e, lastKey, dead);
    FairShrinks(p.blocks, s, s2);
    HousekeptTakes(s2, p, k);
  }

  /** An idle turn serves those who wait for a key in the same way. */
  lemma IdleTakes(s: Sched, killedFlag: bool, killed: seq<int>, p: Pending, k: Key)
    requires SchedInv(s) && Mortal(killed, s.bursts) && Fair(p.blocks, s.bursts, s.t.locks) && s.execution == []
    requires killedFlag ==> forall l :: l in s.t.locks && l.key == k ==> l.esi !in killed
    ensures var dead := if killedFlag then killed else [];
            var line := Keep(s.t.waiters, WaiterLeft(k, dead));
            var times := (if s.unlock && NoneHolds(s.t.locks, dead) && p.key == k then 1 else 0)
                         + if p.consoleUnlock then multiset(p.consoleKeys)[k] else 0;
            Served(Skip(line, times), Line(IdleTurn(s, killedFlag, killed, p).t.waiters, k), p)
  {
    hide SchedInv;
    hide SockAll;
    hide Housekept;
    hide Keep;
    hide Line;
    hide NoneHolds;
    var dead := if killedFlag then killed else [];
    IdleFacts(s, killedFlag, killed, p);
    SockAllLeaves(s, dead, k);
    SockAllUnlock(s, dead);
    var s2 := SockAll(s, dead);
    LineIs(s2.t.waiters, k);
    HousekeptTakes(s2, p, k);
  }

  /** The end of a script releases its keys: the first request for each is taken, and no request
      of others for another key. */
  lemma EndTakes(s: Sched, e: int, lastKey: Key, p: Pending, k: Key)
    requires SchedInv(s) && s.execution == [e]
    ensures var r := Turn(s, Success(true), e, lastKey, false, [], p);
            Line(r.t.waiters, k) == Skip(Line(s.t.waiters, k), if Lock(k, e) in s.t.locks then 1 else 0)
  {
    hide Released;
    hide Line;
    assert SockAll(s, []) == s;
    PartsApart(s.t, Rest(s), s.bursts);
    LiveParts(s);
    assert Active(s, e);
    ActiveElsewhere(s, e);
    if Lock(k, e) in s.t.locks {
      ReleasedTakes(s.t, e, k);
    } else {
      ReleasedLeaves(s.t, e, k);
    }
  }

  /** The release of an ESI that waits for nothing takes no request for the keys of others. */
  lemma ReleasedLeaves(t: Tables, e: int, k: Key)
    requires Unique(t) && Lock(k, e) !in t.locks && !Waits(t.waiters, e)
    ensures Line(Released(t, e).waiters, k) == Line(t.waiters, k)
  {
    hide Keep;
    var gone := Woken(t.waiters, OwnedKeys(t.locks, e)) + [e];
    WaitsIn(t.waiters);
    ReleaseExact(t, e);
    forall w | w in t.waiters && w.key == k
      ensures w.esi !in gone
    {
      NotWoken(t, e, w);
    }
    KeepBoth(t.waiters, WaiterNotIn(gone), WaiterOn(k), WaiterOn(k));
  }

  // ----- the first one -----

  /** A list whose first request is taken does not hold it any more. */
  lemma FirstTaken(waiters: seq<Waiter>, line': seq<Waiter>, v: Waiter, times: nat, p: Pending)
    requires UniqueWaiters(waiters) && FirstWaiter(waiters, v.key) == [v.esi] && times > 0 && v !in p.blocks
    requires Served(Skip(Keep(waiters, WaiterLeft(v.key, [])), times), line', p)
    ensures v !in line'
  {
    KeepAgree(waiters, WaiterLeft(v.key, []), WaiterOn(v.key));
    FirstInLine(waiters, v.key);
    LineOnce(waiters, v.key);
    var line := Line(waiters, v.key);
    assert line[0] in line;
    assert line[0] == v;
  }

  /** Nobody but v itself asks for v's ESI. */
  lemma NotAsking(waiters: seq<Waiter>, waiters': seq<Waiter>, v: Waiter)
    requires UniqueWaiters(waiters) && v in waiters && v !in Line(waiters', v.key)
    requires forall w :: w in waiters' && w.esi == v.esi ==> w in waiters
    ensures !Waits(waiters', v.esi)
  {
    WaitsIn(waiters');
    if Waits(waiters', v.esi) {
      var w :| w in waiters' && w.esi == v.esi;
      OneRequest(waiters, w, v);
    }
  }

  lemma WaiterPlace(s: Sched, v: Waiter)
    requires SchedInv(s) && v in s.t.waiters
    ensures v.esi in s.bursts && v.esi !in s.execution && v.esi !in s.newQueue && UniqueWaiters(s.t.waiters)
  {
    WaitsIn(s.t.waiters);
    PartsApart(s.t, Rest(s), s.bursts);
    OneQueue(s, v.esi);
  }

  /** A turn that releases a key makes the first one who waits for it ready. */
  lemma TurnServes(s: Sched, e: int, lastKey: Key, p: Pending, v: Waiter)
    requires SchedInv(s) && s.execution == [e] && Fair(p.blocks, s.bursts, s.t.locks)
    requires v in s.t.waiters && FirstWaiter(s.t.waiters, v.key) == [v.esi] && Freed(s, p, v.key)
    requires forall b :: b in p.blocks ==> b.esi != v.esi
    ensures var r := Turn(s, Success(false), e, lastKey, false, [], p);
            !Waits(r.t.waiters, v.esi) && v.esi in r.t.ready
  {
    hide Turn;
    hide SchedInv;
    hide Keep;
    var r := Turn(s, Success(false), e, lastKey, false, [], p);
    WaiterPlace(s, v);
    TurnTakes(s, Success(false), e, lastKey, false, [], p, v.key);
    assert s.t.waiters + [] == s.t.waiters;
    var times := (if s.unlock && p.key == v.key then 1 else 0)
                 + if p.consoleUnlock then multiset(p.consoleKeys)[v.key] else 0;
    FirstTaken(s.t.waiters, Line(r.t.waiters, v.key), v, times, p);
    TurnAsked(s, Success(false), e, lastKey, false, [], p);
    NotAsking(s.t.waiters, r.t.waiters, v);
    TurnLive(s, Success(false), e, lastKey, false, [], p);
    TurnPlaces(s, Success(false), e, lastKey, false, [], p, v.esi);
  }

  lemma IdleServes(s: Sched, p: Pending, v: Waiter)
    requires SchedInv(s) && s.execution == [] && Fair(p.blocks, s.bursts, s.t.locks)
    requires v in s.t.waiters && FirstWaiter(s.t.waiters, v.key) == [v.esi] && Freed(s, p, v.key)
    requires forall b :: b in p.blocks ==> b.esi != v.esi
    ensures var r := IdleTurn(s, false, [], p);
            !Waits(r.t.waiters, v.esi) && v.esi in r.t.ready
  {
    hide IdleTurn;
    hide SchedInv;
    hide Keep;
    var r := IdleTurn(s, false, [], p);
    WaiterPlace(s, v);
    IdleTakes(s, false, [], p, v.key);
    var times := (if s.unlock && p.key == v.key then 1 else 0)
                 + if p.consoleUnlock then multiset(p.consoleKeys)[v.key] else 0;
    FirstTaken(s.t.waiters, Line(r.t.waiters, v.key), v, times, p);
    IdleAsked(s, false, [], p);
    NotAsking(s.t.waiters, r.t.waiters, v);
    IdleLive(s, false, [], p);
    IdlePlaces(s, false, [], p, v.esi);
  }

  // ----- the owner goes -----

  /** The request is the first one for its key. */
  ghost predicate Heads(waiters: seq<Waiter>, v: Waiter) {
    Line(waiters, v.key) != [] && Line(waiters, v.key)[0] == v
  }

  lemma FirstHeads(waiters: seq<Waiter>, v: Waiter)
    requires v in waiters
    ensures FirstWaiter(waiters, v.key) == [v.esi] <==> Heads(waiters, v)
  {
    FirstInLine(waiters, v.key);
    var line := Line(waiters, v.key);
    assert line != [] ==> line[0] in line;
  }

  /** It stays the first one when others are left out, and is gone when the first one is taken. */
  lemma HeadTaken(waiters: seq<Waiter>, v: Waiter, es: seq<int>)
    requires UniqueWaiters(waiters) && Heads(waiters, v) && v.esi !in es
    ensures var line := Keep(waiters, WaiterLeft(v.key, es)); line != [] && line[0] == v && v !in Skip(line, 1)
  {
    var k, all := v.key, Line(waiters, v.key);
    LineOnce(waiters, k);
    hide Keep;
    hide UniqueWaiters;
    assert forall i :: 0 < i < |all| ==> all[i] != v by {
      OnlyFirst(all);
    }
    KeepBoth(waiters, WaiterOn(k), WaiterNotIn(es), WaiterLeft(k, es));
    assert all == [v] + all[1..];
    KeepConcat([v], all[1..], WaiterNotIn(es));
    KeepSingle(v, WaiterNotIn(es));
    forall w | w in Keep(all[1..], WaiterNotIn(es))
      ensures w != v
    {
      assert w in all[1..];
    }
  }

  lemma OnlyFirst(line: seq<Waiter>)
    requires UniqueWaiters(line)
    ensures forall i :: 0 < i < |line| ==> line[i] != line[0]
  {
  }

  lemma HeadsLeft(waiters: seq<Waiter>, waiters': seq<Waiter>, v: Waiter, es: seq<int>)
    requires UniqueWaiters(waiters) && Heads(waiters, v) && v.esi !in es
    requires Line(waiters', v.key) == Keep(waiters, WaiterLeft(v.key, es))
    ensures Heads(waiters', v)
  {
    HeadTaken(waiters, v, es);
  }

  /** Several deaths among which is that of the owner: the first request is taken. */
  lemma OwnerDies(s: Sched, es: seq<int>, v: Waiter, d: int)
    requires SchedInv(s) && NoRepeats(es) && (forall e :: e in es ==> e in s.bursts)
    requires Heads(s.t.waiters, v) && v.esi !in es && d in es && Lock(v.key, d) in s.t.locks
    ensures v !in SockAll(s, es).t.waiters
  {
    hide SockAll;
    hide Keep;
    var i :| 0 <= i < |es| && es[i] == d;
    WaitersOnce(s);
    DeathTakes(s, es, i, v.key);
    assert v.esi !in es[..i];
    HeadTaken(s.t.waiters, v, es[..i]);
    assert v !in Line(SockAll(s, es).t.waiters, v.key);
  }

  lemma ReportHeads(s: Sched, o: Outcome, e: int, lastKey: Key, dead: seq<int>, v: Waiter)
    requires SchedInv(s) && Reportable(s, o, e, lastKey, dead) && Heads(s.t.waiters, v) && !(v.esi == e && Dies(o))
    ensures var s1 := AfterReport(s, o, e, lastKey);
            if Dies(o) && Lock(v.key, e) in s.t.locks then v !in s1.t.waiters else Heads(s1.t.waiters, v)
  {
    hide Socked;
    hide Keep;
    var s1 := AfterReport(s, o, e, lastKey);
    WaitersOnce(s);
    if o == IAmBlocked {
      KeepConcat(s.t.waiters, [Waiter(e, lastKey)], WaiterOn(v.key));
    } else if Dies(o) {
      ReporterLives(s, o, e, lastKey, dead);
      if Lock(v.key, e) in s.t.locks {
        SockTakes(s, e, v.key);
        HeadNotSkipped(s.t.waiters, v);
        assert v !in Line(s1.t.waiters, v.key);
      } else {
        SockLeaves(s, e, v.key);
        KeepBoth(s.t.waiters, WaiterOn(v.key), WaiterNotIn([e]), WaiterLeft(v.key, [e]));
        HeadsLeft(s.t.waiters, s1.t.waiters, v, [e]);
      }
    }
  }

  lemma HeadNotSkipped(waiters: seq<Waiter>, v: Waiter)
    requires UniqueWaiters(waiters) && Heads(waiters, v)
    ensures v !in Skip(Line(waiters, v.key), 1)
  {
    HeadTaken(waiters, v, []);
    KeepAgree(waiters, WaiterLeft(v.key, []), WaiterOn(v.key));
  }

  /** The owner of a key dies by its own report, or is killed: the first request is taken. */
  lemma DeathsServe(s: Sched, o: Outcome, e: int, lastKey: Key, dead: seq<int>, v: Waiter, d: int)
    requires SchedInv(s) && Reportable(s, o, e, lastKey, dead) && (s.execution == [] || s.execution == [e])
    requires Heads(s.t.waiters, v) && v.esi !in dead && !(v.esi == e && Dies(o))
    requires Lock(v.key, d) in s.t.locks && (d in dead || (d == e && Dies(o)))
    ensures v !in AfterDeaths(s, o, e, lastKey, dead).t.waiters
  {
    hide SockAll;
    hide Keep;
    hide Line;
    hide AfterReport;
    hide SchedInv;
    hide Reportable;
    var s1 := AfterReport(s, o, e, lastKey);
    ReportShrinks(s, o, e, lastKey, dead);
    ReportHeads(s, o, e, lastKey, dead, v);
    SockAllWithin(s1, dead);
    if !(Dies(o) && Lock(v.key, e) in s.t.locks) {
      LockLasts(s, o, e, lastKey, dead, Lock(v.key, d));
      OwnerDies(s1, dead, v, d);
    }
  }

  lemma LockLasts(s: Sched, o: Outcome, e: int, lastKey: Key, dead: seq<int>, l: Lock)
    requires SchedInv(s) && Reportable(s, o, e, lastKey, dead) && l in s.t.locks && !(l.esi == e && Dies(o))
    ensures l in AfterReport(s, o, e, lastKey).t.locks
  {
    ReporterLives(s, o, e, lastKey, dead);
    SockKeeps(s, e);
  }

  /** The end of the owner's script takes the first request too. */
  lemma EndServes(s: Sched, e: int, lastKey: Key, dead: seq<int>, v: Waiter)
    requires SchedInv(s) && Reportable(s, Success(true), e, lastKey, dead) && e !in dead
    requires Heads(s.t.waiters, v) && v.esi !in dead && Lock(v.key, e) in s.t.locks
    ensures v !in Ended(SockAll(s, dead), e).t.waiters
  {
    hide SockAll;
    hide Keep;
    hide Line;
    var s2 := SockAll(s, dead);
    OwnerElsewhere(s, dead, e, v.key);
    ReportLine(s, Success(true), e, lastKey, dead, v.key);
    assert s.t.waiters + [] == s.t.waiters;
    WaitersOnce(s);
    HeadsLeft(s.t.waiters, s2.t.waiters, v, dead);
    SockAllKeeps(s, dead);
    PartsApart(s2.t, Rest(s2), s2.bursts);
    ReleasedTakes(s2.t, e, v.key);
    HeadNotSkipped(s2.t.waiters, v);
    LineIs(Released(s2.t, e).waiters, v.key);
  }

  lemma GoneHow(s: Sched, o: Outcome, e: int, lastKey: Key, killedFlag: bool, killed: seq<int>, p: Pending, k: Key)
    returns (d: int)
    requires SchedInv(s) && Reportable(s, o, e, lastKey, killed) && (s.execution == [] || s.execution == [e])
    requires OwnerGone(s, Turn(s, o, e, lastKey, killedFlag, killed, p), k)
    ensures Lock(k, d) in s.t.locks
    ensures d in Dead(killedFlag, killed, o, e) || (d == e && (Dies(o) || o == Success(true)))
  {
    hide Turn;
    TurnLive(s, o, e, lastKey, killedFlag, killed, p);
    TakeOutElements(killed, e);
    var r := Turn(s, o, e, lastKey, killedFlag, killed, p);
    var l :| l in s.t.locks && l.key == k && l.esi in s.bursts && l.esi !in r.bursts;
    d := l.esi;
  }

  lemma OwnerTakes(s: Sched, o: Outcome, e: int, lastKey: Key, killedFlag: bool, killed: seq<int>, p: Pending,
                   v: Waiter)
    requires SchedInv(s) && Reportable(s, o, e, lastKey, killed) && (s.execution == [] || s.execution == [e])
    requires Fair(p.blocks, s.bursts, s.t.locks) && Heads(s.t.waiters, v) && v !in p.blocks
    requires var r := Turn(s, o, e, lastKey, killedFlag, killed, p); v.esi in r.bursts && OwnerGone(s, r, v.key)
    ensures v !in Turn(s, o, e, lastKey, killedFlag, killed, p).t.waiters
  {
    hide SockAll;
    hide Housekept;
    hide Ended;
    hide SchedInv;
    hide AfterReport;
    hide Victims;
    hide Heads;
    hide OwnerGone;
    var dead := Dead(killedFlag, killed, o, e);
    var s2 := AfterDeaths(s, o, e, lastKey, dead);
    DeadReportable(s, o, e, lastKey, killedFlag, killed);
    DeadLive(s, o, e, lastKey, killedFlag, killed, p);
    KillsKeep(s, o, e, lastKey, killedFlag, killed);
    FairShrinks(p.blocks, s, s2);
    HousekeptBounds(s2, p);
    EndedWaiters(s2, e);
    var d := GoneHow(s, o, e, lastKey, killedFlag, killed, p, v.key);
    if d in dead || Dies(o) {
      DeathsServe(s, o, e, lastKey, dead, v, d);
    } else {
      ReportNothing(s, o, e, lastKey);
      EndServes(s, e, lastKey, dead, v);
    }
  }

  lemma ReportNothing(s: Sched, o: Outcome, e: int, lastKey: Key)
    ensures o.Success? ==> AfterReport(s, o, e, lastKey) == s
  {
  }

  /** When the owner of a key ends its script, dies or is killed, the turn makes the first one who
      waits for the key ready, if it has not died itself. */
  lemma OwnerServes(s: Sched, o: Outcome, e: int, lastKey: Key, killedFlag: bool, killed: seq<int>, p: Pending,
                    v: Waiter)
    requires SchedInv(s) && Reportable(s, o, e, lastKey, killed) && (s.execution == [] || s.execution == [e])
    requires Fair(p.blocks, s.bursts, s.t.locks) && v in s.t.waiters && FirstWaiter(s.t.waiters, v.key) == [v.esi]
    requires forall b :: b in p.blocks ==> b.esi != v.esi
    requires var r := Turn(s, o, e, lastKey, killedFlag, killed, p); v.esi in r.bursts && OwnerGone(s, r, v.key)
    ensures var r := Turn(s, o, e, lastKey, killedFlag, killed, p); !Waits(r.t.waiters, v.esi) && v.esi in r.t.ready
  {
    hide Turn;
    hide SchedInv;
    hide Heads;
    hide OwnerGone;
    hide Reportable;
    var r := Turn(s, o, e, lastKey, killedFlag, killed, p);
    WaiterPlace(s, v);
    FirstHeads(s.t.waiters, v);
    OwnerTakes(s, o, e, lastKey, killedFlag, killed, p, v);
    TurnAsked(s, o, e, lastKey, killedFlag, killed, p);
    BlockedRuns(s, o, e, lastKey, killed);
    NotAskingAny(s.t.waiters, r.t.waiters, v);
    TurnPlaces(s, o, e, lastKey, killedFlag, killed, p, v.esi);
  }

  lemma BlockedRuns(s: Sched, o: Outcome, e: int, lastKey: Key, killed: seq<int>)
    requires Reportable(s, o, e, lastKey, killed)
    ensures o == IAmBlocked ==> e in s.execution
  {
  }

  lemma NotAskingAny(waiters: seq<Waiter>, waiters': seq<Waiter>, v: Waiter)
    requires UniqueWaiters(waiters) && v in waiters && v !in waiters'
    requires forall w :: w in waiters' && w.esi == v.esi ==> w in waiters
    ensures !Waits(waiters', v.esi)
  {
    hide Line;
    LineIs(waiters', v.key);
    NotAsking(waiters, waiters', v);
  }

  /** The same for a turn with nobody in execution. */
  lemma IdleOwnerServes(s: Sched, killedFlag: bool, killed: seq<int>, p: Pending, v: Waiter)
    requires SchedInv(s) && Mortal(killed, s.bursts) && Fair(p.blocks, s.bursts, s.t.locks) && s.execution == []
    requires v in s.t.waiters && FirstWaiter(s.t.waiters, v.key) == [v.esi]
    requires forall b :: b in p.blocks ==> b.esi != v.esi
    requires var r := IdleTurn(s, killedFlag, killed, p); v.esi in r.bursts && OwnerGone(s, r, v.key)
    ensures var r := IdleTurn(s, killedFlag, killed, p); !Waits(r.t.waiters, v.esi) && v.esi in r.t.ready
  {
    hide SockAll;
    hide Housekept;
    hide SchedInv;
    hide Heads;
    hide IsLocked;
    var dead, r := if killedFlag then killed else [], IdleTurn(s, killedFlag, killed, p);
    WaiterPlace(s, v);
    FirstHeads(s.t.waiters, v);
    IdleFacts(s, killedFlag, killed, p);
    var l :| l in s.t.locks && l.key == v.key && l.esi in s.bursts && l.esi !in r.bursts;
    OwnerDies(s, dead, v, l.esi);
    HousekeptBounds(SockAll(s, dead), p);
    IdleAsked(s, killedFlag, killed, p);
    NotAskingAny(s.t.waiters, r.t.waiters, v);
    IdlePlaces(s, killedFlag, killed, p, v.esi);
  }
}
