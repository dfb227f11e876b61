/** A whole turn of the Planificador's main loop on values, up to the election. */
module PlannerTurns {
  import opened Locks
  import opened Lists
  import opened Release
  import opened PlannerTables
  import opened PlannerSteps

  /** What the executing ESI reports, or the loss of its connection. */
  datatype Outcome = Success(last: bool) | IAmBlocked | BrokeTheLaw | Lost

  /** The ESI is lost, or broke the law. */
  predicate Dies(o: Outcome) {
    o == BrokeTheLaw || o == Lost
  }

  /** The reports after which somebody else is to be elected. */
  predicate Leaves(o: Outcome) {
    o == Success(true) || o == IAmBlocked || o == BrokeTheLaw
  }

  /** What is pending: the key of the last STORE, console releases, arrivals, console blocks. */
  datatype Pending = Pending(
    key: Key, consoleUnlock: bool, consoleKeys: seq<Key>,
    arrivals: bool, consoleBlock: bool, blocks: seq<Waiter>)

  /** Each live ESI is asked to block at most once, and on a key it does not own. */
  predicate Fair(ws: seq<Waiter>, bursts: seq<int>, locks: seq<Lock>) {
    && (forall i, j :: 0 <= i < j < |ws| && ws[i].esi == ws[j].esi ==> ws[i].esi !in bursts)
    && (forall w :: w in ws && w.esi in bursts ==> Lock(w.key, w.esi) !in locks)
  }

  /** Kills name live ESIs, each once. */
  predicate Mortal(es: seq<int>, bursts: seq<int>) {
    NoRepeats(es) && forall e :: e in es ==> e in bursts
  }

  /** An ESI that just ended its script is not killed. */
  function Victims(killed: seq<int>, ended: bool, executing: int): seq<int> {
    if ended then TakeOut(killed, executing) else killed
  }

  // ----- the console blocks -----

  function OnReady(ready: seq<int>): Waiter -> bool {
    (w: Waiter) => w.esi in ready
  }

  /** The pending blocks without the first one of each given ESI. */
  function DropEach(blocks: seq<Waiter>, ws: seq<Waiter>): seq<Waiter> {
    if ws == [] then blocks else DropWaiter(DropEach(blocks, ws[..|ws| - 1]), ws[|ws| - 1].esi)
  }

  /** The first pending block of the executing ESI, -1 for none. */
  function BlockOfExecuting(s: Sched, blocks: seq<Waiter>): (i: int)
    ensures i >= 0 ==> i < |blocks| && blocks[i].esi in s.execution
  {
    if s.execution == [] then -1 else FirstIndex(blocks, WaiterOf(s.execution[0]))
  }

  function BlockExecuting(s: Sched, blocks: seq<Waiter>): Sched {
    var i := BlockOfExecuting(s, blocks);
    if i >= 0 then BlockOne(s, blocks[i]) else s
  }

  function OtherBlocks(s: Sched, blocks: seq<Waiter>): seq<Waiter> {
    if BlockOfExecuting(s, blocks) >= 0 then DropWaiter(blocks, s.execution[0]) else blocks
  }

  /** `block_by_console_procedure`: the executing ESI, then the ready ones, then the blocks
      that name no live ESI. */
  function ConsoleBlocked(s: Sched, blocks: seq<Waiter>): Sched {
    var s1, others := BlockExecuting(s, blocks), OtherBlocks(s, blocks);
    var ours := Keep(others, OnReady(s1.t.ready));
    OrphanAll(BlockAll(s1, ours), DropEach(others, ours))
  }

  lemma OthersFair(s: Sched, blocks: seq<Waiter>, bursts: seq<int>, locks: seq<Lock>)
    requires Fair(blocks, bursts, locks) && (forall e :: e in s.execution ==> e in bursts)
    ensures Fair(OtherBlocks(s, blocks), bursts, locks)
    ensures forall w :: w in OtherBlocks(s, blocks) ==> w in blocks
    ensures |s.execution| <= 1 ==>
              forall w :: w in OtherBlocks(s, blocks) <==> w in blocks && w.esi !in s.execution
  {
    if s.execution != [] {
      var e := s.execution[0];
      assert e in s.execution;
      DropFair(blocks, e, bursts, locks);
    }
  }

  lemma DropFair(blocks: seq<Waiter>, e: int, bursts: seq<int>, locks: seq<Lock>)
    requires Fair(blocks, bursts, locks) && e in bursts
    ensures Fair(DropWaiter(blocks, e), bursts, locks)
    ensures forall w :: w in DropWaiter(blocks, e) <==> w in blocks && w.esi != e
  {
    var r := DropWaiter(blocks, e);
    RemoveIsKeep(blocks, WaiterOf(e));
    assert forall i :: 0 <= i < |r| ==> r[i] in r;
  }

  lemma ReadyBlocksOnce(blocks: seq<Waiter>, ready: seq<int>, bursts: seq<int>, locks: seq<Lock>)
    requires Fair(blocks, bursts, locks) && forall e :: e in ready ==> e in bursts
    ensures OnePerEsi(Keep(blocks, OnReady(ready)))
  {
    var r := Keep(blocks, OnReady(ready));
    forall i, j | 0 <= i < j < |r|
      ensures r[i].esi != r[j].esi
    {
      assert r[i] in r;
      KeepAtMostOne(blocks, OnReady(ready), WaiterOf(r[i].esi));
    }
  }

  lemma BlockExecutingKeeps(s: Sched, blocks: seq<Waiter>)
    requires SchedInv(s) && Fair(blocks, s.bursts, s.t.locks)
    ensures var s1, others := BlockExecuting(s, blocks), OtherBlocks(s, blocks);
            && SchedInv(s1) && s1.bursts == s.bursts && Fair(others, s1.bursts, s1.t.locks)
            && (forall w :: w in blocks && w.esi in s.execution ==> Settled(s1, w))
            && (forall w :: w in blocks && w.esi in s.t.ready ==> w in others && w.esi in s1.t.ready)
  {
    var i := BlockOfExecuting(s, blocks);
    LiveParts(s);
    OthersFair(s, blocks, s.bursts, s.t.locks);
    if i >= 0 {
      assert blocks[i] in blocks;
      BlockOneKeeps(s, blocks[i]);
      TakeOutAbsent(s.t.ready, blocks[i].esi);
    }
    forall w | w in blocks && w.esi in s.execution
      ensures Settled(BlockExecuting(s, blocks), w)
    {
      FirstOfExecuting(s, blocks, w);
    }
  }

  lemma BlockReadyKeeps(s: Sched, blocks: seq<Waiter>)
    requires SchedInv(s) && Fair(blocks, s.bursts, s.t.locks)
    ensures var ours := Keep(blocks, OnReady(s.t.ready));
            && SchedInv(BlockAll(s, ours)) && BlockAll(s, ours).bursts == s.bursts
            && (forall w :: w in ours ==> Settled(BlockAll(s, ours), w))
  {
    LiveParts(s);
    ReadyBlocksOnce(blocks, s.t.ready, s.bursts, s.t.locks);
    BlockAllKeeps(s, Keep(blocks, OnReady(s.t.ready)));
  }

  /** Afterwards every block that named an executing or ready ESI came true. */
  lemma ConsoleBlockedKeeps(s: Sched, blocks: seq<Waiter>)
    requires SchedInv(s) && Fair(blocks, s.bursts, s.t.locks)
    ensures SchedInv(ConsoleBlocked(s, blocks)) && ConsoleBlocked(s, blocks).bursts == s.bursts
    ensures forall w :: w in blocks && Active(s, w.esi) ==> Settled(ConsoleBlocked(s, blocks), w)
  {
    var s1, others := BlockExecuting(s, blocks), OtherBlocks(s, blocks);
    BlockExecutingKeeps(s, blocks);
    BlockReadyKeeps(s1, others);
    var ours := Keep(others, OnReady(s1.t.ready));
    var s2, orphans := BlockAll(s1, ours), DropEach(others, ours);
    OrphanAllKeeps(s2, orphans);
    forall w | w in blocks && Active(s, w.esi)
      ensures Settled(ConsoleBlocked(s, blocks), w)
    {
      if w.esi in s.execution {
        SettledByAll(s1, ours, w);
      }
      SettledByOrphans(s2, orphans, w);
    }
  }

  lemma LiveParts(s: Sched)
    requires SchedInv(s)
    ensures forall e :: Active(s, e) ==> e in s.bursts
    ensures forall e :: e in s.execution ==> e !in s.t.ready
  {
    PartsApart(s.t, Rest(s), s.bursts);
    forall e | Active(s, e)
      ensures e in s.bursts
    {
      ActiveElsewhere(s, e);
    }
    forall e | e in s.execution
      ensures e !in s.t.ready
    {
      assert e in multiset(s.execution);
      assert e in s.t.ready ==> e in multiset(s.t.ready);
    }
  }

  lemma FirstOfExecuting(s: Sched, blocks: seq<Waiter>, w: Waiter)
    requires SchedInv(s) && Fair(blocks, s.bursts, s.t.locks) && w in blocks && w.esi in s.execution
    ensures BlockOfExecuting(s, blocks) >= 0 && blocks[BlockOfExecuting(s, blocks)] == w
  {
    LiveParts(s);
    assert Active(s, w.esi);
    var i := BlockOfExecuting(s, blocks);
    var j :| 0 <= j < |blocks| && blocks[j] == w;
    assert WaiterOf(s.execution[0])(blocks[j]);
  }

  lemma {:induction false} SettledByAll(s: Sched, ws: seq<Waiter>, v: Waiter)
    requires Settled(s, v)
    ensures Settled(BlockAll(s, ws), v)
  {
    if ws != [] {
      SettledByAll(s, ws[..|ws| - 1], v);
      BlockOneSettled(BlockAll(s, ws[..|ws| - 1]), ws[|ws| - 1], v);
    }
  }

  lemma {:induction false} SettledByOrphans(s: Sched, ws: seq<Waiter>, v: Waiter)
    requires Settled(s, v)
    ensures Settled(OrphanAll(s, ws), v)
  {
    if ws != [] {
      SettledByOrphans(s, ws[..|ws| - 1], v);
    }
  }

  // ----- the housekeeping of a turn -----

  function AfterReleases(s: Sched, p: Pending): Sched {
    var u := if s.unlock then Woke(s, p.key, true).(unlock := false) else s;
    if p.consoleUnlock then WakeAll(u, p.consoleKeys) else u
  }

  function Housekept(s: Sched, p: Pending): Sched {
    var r := AfterReleases(s, p);
    var a := if p.arrivals then Admitted(r) else r;
    if p.consoleBlock then ConsoleBlocked(a, p.blocks) else a
  }

  /** What the housekeeping leaves pending. */
  function Cleared(p: Pending): Pending {
    p.(consoleUnlock := p.consoleUnlock && p.consoleKeys == [],
       consoleKeys := if p.consoleUnlock then [] else p.consoleKeys,
       arrivals := false,
       consoleBlock := false,
       blocks := if p.consoleBlock then [] else p.blocks)
  }

  /** A step that takes nothing into execution, frees no ESI and locks nothing. */
  ghost predicate Shrinks(s: Sched, s': Sched) {
    && SchedInv(s')
    && (forall e :: e in s'.execution ==> e in s.execution)
    && (forall e :: e in s'.bursts ==> e in s.bursts)
    && (forall l :: l in s'.t.locks ==> l in s.t.locks)
  }

  lemma FairShrinks(ws: seq<Waiter>, s: Sched, s': Sched)
    requires Fair(ws, s.bursts, s.t.locks) && Shrinks(s, s')
    ensures Fair(ws, s'.bursts, s'.t.locks)
  {
  }

  lemma ReleasesKeep(s: Sched, p: Pending)
    requires SchedInv(s)
    ensures Shrinks(s, AfterReleases(s, p)) && AfterReleases(s, p).bursts == s.bursts
  {
    var u := if s.unlock then Woke(s, p.key, true).(unlock := false) else s;
    StoreReleaseKeeps(s, p.key);
    if p.consoleUnlock {
      WakeAllKeeps(u, p.consoleKeys);
    }
  }

  lemma StoreReleaseKeeps(s: Sched, k: Key)
    requires SchedInv(s)
    ensures SchedInv(Woke(s, k, true).(unlock := false))
    ensures forall l :: l in Woke(s, k, true).t.locks ==> l in s.t.locks
  {
    WakeKeeps(s, k, true);
  }

  lemma HousekeepingKeeps(s: Sched, p: Pending)
    requires SchedInv(s) && Fair(p.blocks, s.bursts, s.t.locks)
    ensures SchedInv(Housekept(s, p))
    ensures forall e :: e in Housekept(s, p).execution ==> e in s.execution
  {
    var r := AfterReleases(s, p);
    ReleasesKeep(s, p);
    AdmitKeeps(r);
    var a := if p.arrivals then Admitted(r) else r;
    FairShrinks(p.blocks, s, r);
    if p.consoleBlock {
      ConsoleBlockedKeeps(a, p.blocks);
      ExecutionShrinks(a, p.blocks);
    }
  }

  lemma ExecutionShrinks(s: Sched, blocks: seq<Waiter>)
    ensures forall e :: e in ConsoleBlocked(s, blocks).execution ==> e in s.execution
  {
    var s1, others := BlockExecuting(s, blocks), OtherBlocks(s, blocks);
    var ours := Keep(others, OnReady(s1.t.ready));
    BlockAllExecution(s1, ours);
    OrphanAllExecution(BlockAll(s1, ours), DropEach(others, ours));
  }

  lemma {:induction false} BlockAllExecution(s: Sched, ws: seq<Waiter>)
    ensures forall e :: e in BlockAll(s, ws).execution ==> e in s.execution
  {
    if ws != [] {
      BlockAllExecution(s, ws[..|ws| - 1]);
    }
  }

  lemma {:induction false} OrphanAllExecution(s: Sched, ws: seq<Waiter>)
    ensures OrphanAll(s, ws).execution == s.execution
  {
    if ws != [] {
      OrphanAllExecution(s, ws[..|ws| - 1]);
    }
  }

  // ----- the turn after a report -----

  function AfterReport(s: Sched, o: Outcome, e: int, lastKey: Key): Sched {
    match o
    case Success(_) => s
    case IAmBlocked => Parked(s, Waiter(e, lastKey))
    case BrokeTheLaw => Socked(s, e)
    case Lost => Socked(s, e)
  }

  function Dead(killedFlag: bool, killed: seq<int>, o: Outcome, e: int): seq<int> {
    if killedFlag then Victims(killed, o == Success(true), e) else []
  }

  /** The queues and tables after the turn that a report starts, before the election. */
  function Turn(s: Sched, o: Outcome, e: int, lastKey: Key, killedFlag: bool, killed: seq<int>, p: Pending): Sched {
    Closed(AfterDeaths(s, o, e, lastKey, Dead(killedFlag, killed, o, e)), o, e, p)
  }

  /** The rest of a turn: the end of a script, or the housekeeping if there is any to do. */
  function Closed(s2: Sched, o: Outcome, e: int, p: Pending): Sched {
    if o == Success(true) then Ended(s2, e)
    else if s2.unlock || p.arrivals || p.consoleUnlock then Housekept(s2, p)
    else s2
  }

  /** What the turn leaves pending; only a turn with a release or an arrival takes care of the
      console blocks. */
  function TurnPending(s: Sched, o: Outcome, e: int, lastKey: Key, killedFlag: bool, killed: seq<int>,
                       p: Pending): Pending {
    var s2 := AfterDeaths(s, o, e, lastKey, Dead(killedFlag, killed, o, e));
    if o != Success(true) && (s2.unlock || p.arrivals || p.consoleUnlock) then Cleared(p) else p
  }

  /** What the source asks of a report: only the executing ESI reports an execution; it is
      blocked by a key it does not own; kills name live ESIs, but not one that just died. */
  predicate Reportable(s: Sched, o: Outcome, e: int, lastKey: Key, killed: seq<int>) {
    && Mortal(killed, s.bursts)
    && (o == Lost ==> e in s.bursts)
    && (o != Lost ==> s.execution == [e])
    && (o == IAmBlocked ==> Lock(lastKey, e) !in s.t.locks)
    && (Dies(o) ==> e !in killed)
  }

  lemma ReportShrinks(s: Sched, o: Outcome, e: int, lastKey: Key, killed: seq<int>)
    requires SchedInv(s) && Reportable(s, o, e, lastKey, killed)
    requires s.execution == [] || s.execution == [e]
    ensures Shrinks(s, AfterReport(s, o, e, lastKey)) && Mortal(killed, AfterReport(s, o, e, lastKey).bursts)
    ensures o.Success? || AfterReport(s, o, e, lastKey).execution == []
  {
    if o == IAmBlocked {
      assert Active(s, e);
      ParkKeeps(s, Waiter(e, lastKey));
      TakeOutOnly(s.execution, e);
    } else if !o.Success? {
      if o == BrokeTheLaw {
        LiveParts(s);
        assert Active(s, e);
      }
      SockShrinks(s, e);
      TakeOutOnly(s.execution, e);
    }
  }

  lemma SockShrinks(s: Sched, e: int)
    requires SchedInv(s) && e in s.bursts
    ensures Shrinks(s, Socked(s, e))
    ensures forall x :: x in s.bursts && x != e ==> x in Socked(s, e).bursts
  {
    SockKeeps(s, e);
    RemoveIsKeep(s.execution, Is(e));
  }

  lemma TakeOutOnly(q: seq<int>, e: int)
    requires q == [] || q == [e]
    ensures TakeOut(q, e) == []
  {
    if q == [e] {
      assert Is(e)(q[0]);
    }
  }

  lemma {:induction false} SockAllShrinks(s: Sched, es: seq<int>)
    requires SchedInv(s) && Mortal(es, s.bursts)
    ensures Shrinks(s, SockAll(s, es))
    ensures forall e :: e in s.execution && e !in es ==> e in SockAll(s, es).execution
  {
    SockAllKeeps(s, es);
    SockAllExecution(s, es);
  }

  lemma {:induction false} SockAllExecution(s: Sched, es: seq<int>)
    requires |s.execution| <= 1
    ensures |SockAll(s, es).execution| <= 1
    ensures forall e :: e in SockAll(s, es).execution ==> e in s.execution
    ensures forall e :: e in s.execution && e !in es ==> e in SockAll(s, es).execution
  {
    if es != [] {
      var front, e := es[..|es| - 1], es[|es| - 1];
      assert es == front + [e];
      SockAllExecution(s, front);
      RemoveIsKeep(SockAll(s, front).execution, Is(e));
    }
  }

  lemma VictimsMortal(killed: seq<int>, ended: bool, executing: int, bursts: seq<int>)
    requires Mortal(killed, bursts)
    ensures Mortal(Victims(killed, ended, executing), bursts)
    ensures ended ==> executing !in Victims(killed, ended, executing)
  {
    TakeOutElements(killed, executing);
  }

  /** After the report and the kills. */
  function AfterDeaths(s: Sched, o: Outcome, e: int, lastKey: Key, dead: seq<int>): Sched {
    SockAll(AfterReport(s, o, e, lastKey), dead)
  }

  lemma DeathsKeep(s: Sched, o: Outcome, e: int, lastKey: Key, dead: seq<int>)
    requires SchedInv(s) && Reportable(s, o, e, lastKey, dead) && (o == Success(true) ==> e !in dead)
    requires s.execution == [] || s.execution == [e]
    ensures Shrinks(s, AfterDeaths(s, o, e, lastKey, dead))
    ensures o == Success(true) ==> AfterDeaths(s, o, e, lastKey, dead).execution == [e]
    ensures !o.Success? ==> AfterDeaths(s, o, e, lastKey, dead).execution == []
  {
    var s1 := AfterReport(s, o, e, lastKey);
    ReportShrinks(s, o, e, lastKey, dead);
    SockAllShrinks(s1, dead);
    EmptyOrOne(SockAll(s1, dead).execution, s1.execution, e);
  }

  lemma EndTurn(s: Sched, e: int)
    requires SchedInv(s) && s.execution == [e]
    ensures SchedInv(Ended(s, e)) && Ended(s, e).execution == []
  {
    EndKeeps(s, e);
    TakeOutOnly(s.execution, e);
  }

  lemma GoOn(s0: Sched, s: Sched, p: Pending, e: int)
    requires Shrinks(s0, s) && Fair(p.blocks, s0.bursts, s0.t.locks)
    requires s.execution == [] || s.execution == [e]
    ensures var r := if s.unlock || p.arrivals || p.consoleUnlock then Housekept(s, p) else s;
            SchedInv(r) && (r.execution == [] || r.execution == [e]) && (s.execution == [] ==> r.execution == [])
  {
    FairShrinks(p.blocks, s0, s);
    HousekeepingKeeps(s, p);
    EmptyOrOne(Housekept(s, p).execution, s.execution, e);
  }

  lemma DeadReportable(s: Sched, o: Outcome, e: int, lastKey: Key, killedFlag: bool, killed: seq<int>)
    requires Reportable(s, o, e, lastKey, killed)
    ensures Reportable(s, o, e, lastKey, Dead(killedFlag, killed, o, e))
    ensures o == Success(true) ==> e !in Dead(killedFlag, killed, o, e)
  {
    VictimsMortal(killed, o == Success(true), e, s.bursts);
  }

  lemma KillsKeep(s: Sched, o: Outcome, e: int, lastKey: Key, killedFlag: bool, killed: seq<int>)
    requires SchedInv(s) && Reportable(s, o, e, lastKey, killed)
    requires s.execution == [] || s.execution == [e]
    ensures var s2 := AfterDeaths(s, o, e, lastKey, Dead(killedFlag, killed, o, e));
            && Shrinks(s, s2)
            && (s2.execution == [] || s2.execution == [e])
            && (o == Success(true) ==> s2.execution == [e])
            && (!o.Success? ==> s2.execution == [])
  {
    var dead := Dead(killedFlag, killed, o, e);
    DeadReportable(s, o, e, lastKey, killedFlag, killed);
    DeathsKeep(s, o, e, lastKey, dead);
    EmptyOrOne(AfterDeaths(s, o, e, lastKey, dead).execution, s.execution, e);
  }

  /** A turn keeps the invariant, puts nobody in execution, and leaves execution empty unless
      the ESI goes on. */
  lemma TurnKeeps(s: Sched, o: Outcome, e: int, lastKey: Key, killedFlag: bool, killed: seq<int>, p: Pending)
    requires SchedInv(s) && Reportable(s, o, e, lastKey, killed) && Fair(p.blocks, s.bursts, s.t.locks)
    requires s.execution == [] || s.execution == [e]
    ensures var r := Turn(s, o, e, lastKey, killedFlag, killed, p);
            SchedInv(r) && (r.execution == [] || (r.execution == [e] && o == Success(false)))
  {
    KillsKeep(s, o, e, lastKey, killedFlag, killed);
    CloseTurn(s, AfterDeaths(s, o, e, lastKey, Dead(killedFlag, killed, o, e)), o, e, p);
  }

  /** The end of a script, or the housekeeping of one that goes on. */
  lemma CloseTurn(s: Sched, s2: Sched, o: Outcome, e: int, p: Pending)
    requires Shrinks(s, s2) && Fair(p.blocks, s.bursts, s.t.locks)
    requires s2.execution == [] || s2.execution == [e]
    requires (o == Success(true) ==> s2.execution == [e]) && (!o.Success? ==> s2.execution == [])
    ensures var r := Closed(s2, o, e, p);
            SchedInv(r) && (r.execution == [] || (r.execution == [e] && o == Success(false)))
  {
    if o == Success(true) {
      EndTurn(s2, e);
    } else {
      GoOn(s, s2, p, e);
    }
  }

  lemma EmptyOrOne(q: seq<int>, was: seq<int>, e: int)
    requires |q| <= 1 && (was == [] || was == [e]) && forall x :: x in q ==> x in was
    ensures q == [] || q == [e]
    ensures was == [] ==> q == []
  {
    if q != [] {
      var x := q[0];
      assert x in q && x in was;
    }
  }

  // ----- an idle turn -----

  /** The queues and tables of a turn with nobody in execution, before the election. */
  function IdleTurn(s: Sched, killedFlag: bool, killed: seq<int>, p: Pending): Sched {
    var dead := if killedFlag then killed else [];
    Housekept(SockAll(s, dead), p)
  }

  /** What an idle turn leaves pending; an arrival is only taken note of if somebody is new. */
  function IdlePending(s: Sched, killedFlag: bool, killed: seq<int>, p: Pending): Pending {
    var dead := if killedFlag then killed else [];
    Cleared(p).(arrivals := p.arrivals && SockAll(s, dead).newQueue == [])
  }

  lemma IdleKeeps(s: Sched, killedFlag: bool, killed: seq<int>, p: Pending)
    requires SchedInv(s) && s.execution == []
    requires Mortal(killed, s.bursts) && Fair(p.blocks, s.bursts, s.t.locks)
    ensures SchedInv(IdleTurn(s, killedFlag, killed, p)) && IdleTurn(s, killedFlag, killed, p).execution == []
  {
    var dead := if killedFlag then killed else [];
    SockAllShrinks(s, dead);
    FairShrinks(p.blocks, s, SockAll(s, dead));
    HousekeepingKeeps(SockAll(s, dead), p);
    EmptyOrOne(IdleTurn(s, killedFlag, killed, p).execution, [], 0);
  }

  // ----- the election -----

  /** The outcome of a turn: as it was left, or with the first ESI of some order elected. */
  function AfterElection(s: Sched, order: seq<int>): Sched {
    if order == [] then s else Elected(s, order)
  }

  lemma ElectionKeeps(s: Sched, order: seq<int>)
    requires SchedInv(s) && (order == [] || (s.execution == [] && multiset(order) == multiset(s.t.ready)))
    ensures SchedInv(AfterElection(s, order))
    ensures order != [] ==> AfterElection(s, order).execution == [order[0]]
  {
    if order != [] {
      ElectKeeps(s, order);
    }
  }
}
