/** What lasts over the runs of the three processes: an ESI keeps a key until it STOREs it, the
    operator releases it or the ESI is gone; and who asked for a key first is served first. */
module GateRuns {
  import opened Locks
  import opened Lists
  import opened Release
  import opened PlannerTables
  import opened PlannerSteps
  import opened PlannerTurns
  import opened StoreReleases
  import opened QueueOrder
  import opened TurnLaws
  import opened Wakings
  import opened Gate

  // ----- the pending release -----

  /** A release is pending only between the answer to a STORE and the turn of its report, and it
      is that of the stored key, which its ESI still has. */
  ghost predicate StoreDue(w: World) {
    w.s.unlock ==>
      w.stage.Replied? && w.stage.reply == EverythingOk && Lock(w.p.key, w.stage.esi) in w.s.t.locks
  }

  /** A turn leaves no release pending. */
  lemma TurnSettles(s: Sched, o: Outcome, e: int, lastKey: Key, killedFlag: bool, killed: seq<int>, p: Pending)
    requires SchedInv(s) && Reportable(s, o, e, lastKey, killed) && s.execution == [e]
    requires s.unlock ==> o.Success? && Lock(p.key, e) in s.t.locks
    ensures !Turn(s, o, e, lastKey, killedFlag, killed, p).unlock
  {
    hide SchedInv;
    hide SockAll;
    hide Housekept;
    hide AfterReport;
    hide Victims;
    hide Released;
    var dead := Dead(killedFlag, killed, o, e);
    DeadReportable(s, o, e, lastKey, killedFlag, killed);
    DeathsBounds(s, o, e, lastKey, dead);
    var s2 := AfterDeaths(s, o, e, lastKey, dead);
    HousekeptLive(s2, p);
    HoldsIn(s2.t.locks, e);
  }

  lemma IdleSettles(s: Sched, killedFlag: bool, killed: seq<int>, p: Pending)
    ensures !IdleTurn(s, killedFlag, killed, p).unlock
  {
    hide Housekept;
    HousekeptLive(SockAll(s, if killedFlag then killed else []), p);
  }

  predicate IsTurn(ev: Event) {
    ev.TurnOfReport? || ev.TurnOfLoss? || ev.TurnOfIdle?
  }

  lemma DueKept(w: World, ev: Event)
    requires GateInv(w) && StoreDue(w) && Enabled(w, ev)
    ensures StoreDue(AfterEvent(w, ev))
    ensures IsTurn(ev) ==> !AfterEvent(w, ev).s.unlock
  {
    hide Turn;
    hide IdleTurn;
    hide SchedInv;
    DemandsMet(w);
    match ev
    case TurnOfReport(last, order) =>
      TurnSettles(w.s, OutcomeOf(w.stage.reply, last), w.stage.esi, w.lastKey, w.killedFlag, w.killed, w.p);
    case TurnOfLoss(order) =>
      TurnSettles(w.s, Lost, w.stage.esi, w.lastKey, w.killedFlag, w.killed, w.p);
    case TurnOfIdle(order) => IdleSettles(w.s, w.killedFlag, w.killed, w.p);
    case _ =>
  }

  // ----- what the answer of an instance leaves behind -----

  /** The reply to the ESI says whether the instance did it; no lock changes yet. */
  lemma InstanceReplies(w: World, ok: bool)
    requires GateInv(w) && w.stage.AtInstance?
    ensures var v := AfterEvent(w, InstanceAnswers(ok));
            && v.stage == Replied(w.stage.esi, if ok then EverythingOk else IllegalOperation)
            && v.s.t == w.s.t && v.s.execution == w.s.execution
  {
  }

  /** A turn, or any other event, on the level of single locks: a lock of a live ESI, or of the
      system, stays unless its key is released. */
  lemma EventOwners(w: World, ev: Event)
    requires GateInv(w) && Enabled(w, ev)
    ensures var v := AfterEvent(w, ev);
            forall l :: l in w.s.t.locks && (l.esi == SYSTEM || l.esi in v.s.bursts)
                        && !(IsTurn(ev) && Freed(w.s, w.p, l.key)) ==>
              l in v.s.t.locks
  {
    hide Turn;
    hide IdleTurn;
    hide SchedInv;
    hide Freed;
    DemandsMet(w);
    match ev
    case TurnOfReport(last, order) =>
      TurnOwners(w.s, OutcomeOf(w.stage.reply, last), w.stage.esi, w.lastKey, w.killedFlag, w.killed, w.p);
    case TurnOfLoss(order) =>
      TurnOwners(w.s, Lost, w.stage.esi, w.lastKey, w.killedFlag, w.killed, w.p);
    case TurnOfIdle(order) => IdleOwners(w.s, w.killedFlag, w.killed, w.p);
    case _ =>
  }

  /** An ESI that reports a success that was not its last operation lives on, unless it is killed. */
  lemma SuccessLive(w: World, order: seq<int>)
    requires GateInv(w) && Enabled(w, TurnOfReport(false, order))
    requires w.stage.reply == EverythingOk && !(w.killedFlag && w.stage.esi in w.killed)
    ensures w.stage.esi in AfterEvent(w, TurnOfReport(false, order)).s.bursts
  {
    hide Turn;
    hide SchedInv;
    DemandsMet(w);
    ReporterLives(w.s, Success(false), w.stage.esi, w.lastKey, w.killed);
    TurnLive(w.s, Success(false), w.stage.esi, w.lastKey, w.killedFlag, w.killed, w.p);
  }

  lemma AnswerKeeps(w: World, ok: bool)
    requires GateInv(w) && StoreDue(w) && w.stage.AtInstance?
    ensures var v := AfterEvent(w, InstanceAnswers(ok));
            && GateInv(v) && !w.s.unlock && v.s.unlock == (ok && w.stage.op.Store?)
            && v.s.t == w.s.t && v.s.execution == [w.stage.esi] && v.s.bursts == w.s.bursts
            && v.stage.Replied? && v.stage.esi == w.stage.esi && v.killed == w.killed && v.killedFlag == w.killedFlag
            && (ok ==> v.stage.reply == EverythingOk)
            && v.p == if ok && w.stage.op.Store? then w.p.(key := w.stage.op.key) else w.p
  {
    GateKept(w, InstanceAnswers(ok));
  }

  /** After a successful SET and the turn of its report its ESI still owns the key, unless it was
      killed or the operator released the key. */
  lemma SetKeepsKey(w: World, order: seq<int>)
    requires GateInv(w) && StoreDue(w) && w.stage.AtInstance? && w.stage.op.Set?
    requires Enabled(AfterEvent(w, InstanceAnswers(true)), TurnOfReport(false, order))
    ensures var v := AfterEvent(AfterEvent(w, InstanceAnswers(true)), TurnOfReport(false, order));
            || Lock(w.stage.op.key, w.stage.esi) in v.s.t.locks
            || (w.killedFlag && w.stage.esi in w.killed)
            || (w.p.consoleUnlock && w.stage.op.key in w.p.consoleKeys)
  {
    var v := AfterEvent(w, InstanceAnswers(true));
    var k, e := w.stage.op.key, w.stage.esi;
    AnswerKeeps(w, true);
    assert Lock(k, e) in v.s.t.locks;
    if !(w.killedFlag && e in w.killed) && !(w.p.consoleUnlock && k in w.p.consoleKeys) {
      assert !Freed(v.s, v.p, k);
      hide *;
      EventOwners(v, TurnOfReport(false, order));
      SuccessLive(v, order);
    }
  }

  /** After a successful STORE and the turn of its report its ESI has not the key any more, exactly
      when no ESI killed in that turn held a key, or it was killed itself, or the operator released
      the key often enough; so always when there were no kills. */
  lemma StoreFreesKey(w: World, order: seq<int>)
    requires GateInv(w) && StoreDue(w) && w.stage.AtInstance? && w.stage.op.Store?
    requires Enabled(AfterEvent(w, InstanceAnswers(true)), TurnOfReport(false, order))
    ensures var v := AfterEvent(AfterEvent(w, InstanceAnswers(true)), TurnOfReport(false, order));
            var k, e, dead := w.stage.op.key, w.stage.esi, if w.killedFlag then w.killed else [];
            Lock(k, e) !in v.s.t.locks <==>
            NoneHolds(w.s.t.locks, dead) || e in dead || FreedByConsole(w.s, dead, w.p.(key := k))
  {
    hide Turn;
    hide SchedInv;
    var v := AfterEvent(w, InstanceAnswers(true));
    AnswerKeeps(w, true);
    assert Lock(w.stage.op.key, w.stage.esi) in v.s.t.locks;
    StoreReleasedIff(v.s, w.stage.esi, v.lastKey, v.killedFlag, v.killed, v.p);
  }

  /** What a reply comes to with the turn of its report: an ESI that is told to be blocked waits for
      the key it asked for, unless the key becomes free in the same turn; one that is told that its
      operation is illegal, or has done its last one, is gone; one that goes on is alive. */
  lemma ReportMeans(w: World, last: bool, order: seq<int>)
    requires GateInv(w) && Enabled(w, TurnOfReport(last, order))
    ensures var v, e := AfterEvent(w, TurnOfReport(last, order)).s, w.stage.esi;
            && (w.stage.reply == YouAreBlocked && e in v.bursts
                && !Freed(w.s, w.p, w.lastKey) && !OwnerGone(w.s, v, w.lastKey) ==>
                  Waiter(e, w.lastKey) in v.t.waiters)
            && (w.stage.reply == IllegalOperation || (w.stage.reply == EverythingOk && last) ==> e !in v.bursts)
            && (w.stage.reply == YouAreBlocked || (w.stage.reply == EverythingOk && !last) ==>
                  (e in v.bursts <==> !(w.killedFlag && e in w.killed)))
  {
    hide Turn;
    hide SchedInv;
    hide Reportable;
    DemandsMet(w);
    var o, e := OutcomeOf(w.stage.reply, last), w.stage.esi;
    var r := TurnOf(w, o);
    assert Reportable(w.s, o, e, w.lastKey, w.killed);
    ReporterLives(w.s, o, e, w.lastKey, w.killed);
    TurnLive(w.s, o, e, w.lastKey, w.killedFlag, w.killed, w.p);
    SameOwners(w.s, r, AfterElection(r, order), w.lastKey);
    if o == IAmBlocked {
      TurnWaits(w.s, o, e, w.lastKey, w.killedFlag, w.killed, w.p, Waiter(e, w.lastKey));
    }
  }

  // ----- over runs -----

  /** Why a lock may go: its ESI has STOREd its key, the operator releases the key, or the ESI is gone. */
  ghost predicate Excuse(w: World, ev: Event, l: Lock)
    requires Enabled(w, ev)
  {
    || (ev == InstanceAnswers(true) && w.stage == AtInstance(l.esi, Store(l.key)))
    || (IsTurn(ev) && w.p.consoleUnlock && l.key in w.p.consoleKeys)
    || (l.esi != SYSTEM && l.esi !in AfterEvent(w, ev).s.bursts)
  }

  ghost predicate Excused(w: World, run: seq<Event>, l: Lock)
    requires Feasible(w, run)
    decreases |run|
  {
    run != [] && (Excuse(w, run[0], l) || Excused(AfterEvent(w, run[0]), run[1..], l))
  }

  lemma LockStays(w: World, ev: Event, l: Lock)
    requires GateInv(w) && StoreDue(w) && Enabled(w, ev) && l in w.s.t.locks && !Excuse(w, ev, l)
    requires w.s.unlock ==> w.p.key != l.key
    ensures var v := AfterEvent(w, ev); l in v.s.t.locks && (v.s.unlock ==> v.p.key != l.key)
  {
    var v := AfterEvent(w, ev);
    DueKept(w, ev);
    assert !Freed(w.s, w.p, l.key) || !IsTurn(ev);
    if ev.InstanceAnswers? {
      AnswerKeeps(w, ev.ok);
      LocksOnce(w.s);
      OneOwner(w.s.t.locks, l, Lock(l.key, w.stage.esi));
      assert w.stage.op.Store? ==> w.stage.op == Store(w.stage.op.key);
    }
    hide *;
    EventOwners(w, ev);
  }

  /** Over any run an ESI keeps a key, and the system keeps what it locked, until one of these
      reasons comes up; a SET, in particular, is none. */
  lemma {:induction false} LocksLast(w: World, run: seq<Event>, l: Lock)
    requires GateInv(w) && StoreDue(w) && Feasible(w, run) && l in w.s.t.locks
    requires w.s.unlock ==> w.p.key != l.key
    ensures l in AfterRun(w, run).s.t.locks || Excused(w, run, l)
    decreases |run|
  {
    if run != [] && !Excuse(w, run[0], l) {
      hide GateInv;
      hide StoreDue;
      hide Excuse;
      hide AfterEvent;
      GateKept(w, run[0]);
      DueKept(w, run[0]);
      LockStays(w, run[0], l);
      LocksLast(AfterEvent(w, run[0]), run[1..], l);
    }
  }

  // ----- first come, first served -----

  /** One event: as long as v waits, a later request w for its key stays behind it, and waits on
      unless its ESI is gone. */
  lemma EventLine(w: World, ev: Event, v: Waiter, later: Waiter)
    requires GateInv(w) && Enabled(w, ev)
    requires v in w.s.t.waiters && v !in w.p.blocks && v.key == later.key && v != later
    ensures var u := AfterEvent(w, ev);
            InLine(w.s.t.waiters, u.s.t.waiters, v, later, later.esi !in u.s.bursts)
  {
    hide Turn;
    hide IdleTurn;
    hide SchedInv;
    DemandsMet(w);
    match ev
    case TurnOfReport(last, order) =>
      TurnLine(w.s, OutcomeOf(w.stage.reply, last), w.stage.esi, w.lastKey, w.killedFlag, w.killed, w.p, v, later);
    case TurnOfLoss(order) =>
      TurnLine(w.s, Lost, w.stage.esi, w.lastKey, w.killedFlag, w.killed, w.p, v, later);
    case TurnOfIdle(order) => IdleLine(w.s, w.killedFlag, w.killed, w.p, v, later);
    case _ =>
  }

  /** The request is in the waiter list all along a run, and never asked for again by console. */
  ghost predicate WaitsOn(w: World, run: seq<Event>, v: Waiter)
    requires Feasible(w, run)
    decreases |run|
  {
    && v in w.s.t.waiters && v !in w.p.blocks
    && (run == [] || WaitsOn(AfterEvent(w, run[0]), run[1..], v))
  }

  lemma {:induction false} StaysBehind(w: World, run: seq<Event>, v: Waiter, later: Waiter)
    requires GateInv(w) && Feasible(w, run) && WaitsOn(w, run, v) && v.key == later.key && v != later
    requires Behind(w.s.t.waiters, later, v)
    ensures Behind(AfterRun(w, run).s.t.waiters, later, v) && v in AfterRun(w, run).s.t.waiters
    ensures GateInv(AfterRun(w, run)) && v !in AfterRun(w, run).p.blocks
    decreases |run|
  {
    if run != [] {
      hide GateInv;
      hide AfterEvent;
      GateKept(w, run[0]);
      EventLine(w, run[0], v, later);
      StaysBehind(AfterEvent(w, run[0]), run[1..], v, later);
    }
  }

  /** A request that was there first is served first: while v waits, an ESI that asks for the same
      key later - by a GET or by console - is never the one that a release wakes, and never stops
      waiting unless it dies. */
  lemma OldestWakes(w: World, run: seq<Event>, ev: Event, v: Waiter, later: Waiter)
    requires GateInv(w) && Feasible(w, run) && WaitsOn(w, run, v) && v.key == later.key && v != later
    requires v in w.s.t.waiters && later !in w.s.t.waiters
    requires Enabled(AfterRun(w, run), ev) && v in AfterEvent(AfterRun(w, run), ev).s.t.waiters
    ensures var u, u' := AfterRun(w, run).s, AfterEvent(AfterRun(w, run), ev).s;
            && FirstWaiter(u.t.waiters, v.key) != [later.esi]
            && (later in u.t.waiters && later.esi in u'.bursts ==> later in u'.t.waiters)
  {
    hide AfterEvent;
    hide GateInv;
    StaysBehind(w, run, v, later);
    EventLine(AfterRun(w, run), ev, v, later);
    NotFirst(AfterRun(w, run).s.t.waiters, v, later);
  }

  lemma NotFirst(waiters: seq<Waiter>, v: Waiter, later: Waiter)
    requires Behind(waiters, later, v) && v in waiters && v.key == later.key && v != later
    ensures FirstWaiter(waiters, v.key) != [later.esi]
  {
    var i := FirstIndex(waiters, WaiterOn(v.key));
    var j :| 0 <= j < |waiters| && waiters[j] == v;
    assert WaiterOn(v.key)(waiters[j]);
  }

  /** Who waits for a key first stays the first for as long as it waits. */
  lemma FirstStays(w: World, run: seq<Event>, v: Waiter)
    requires GateInv(w) && Feasible(w, run) && WaitsOn(w, run, v) && FirstWaiter(w.s.t.waiters, v.key) == [v.esi]
    ensures FirstWaiter(AfterRun(w, run).s.t.waiters, v.key) == [v.esi]
  {
    hide AfterEvent;
    hide GateInv;
    var ws, ws' := w.s.t.waiters, AfterRun(w, run).s.t.waiters;
    LastWaits(w, run, v);
    GateWaiters(w);
    FirstWaiterIn(ws', v.key);
    assert FirstWaiter(ws', v.key) != [];
    var first := Waiter(FirstWaiter(ws', v.key)[0], v.key);
    if first != v {
      FirstBehind(ws, v, first);
      StaysBehind(w, run, v, first);
      NotFirst(ws', v, first);
    }
  }

  lemma GateWaiters(w: World)
    requires GateInv(w)
    ensures UniqueWaiters(w.s.t.waiters)
  {
  }

  lemma {:induction false} LastWaits(w: World, run: seq<Event>, v: Waiter)
    requires Feasible(w, run) && WaitsOn(w, run, v)
    ensures v in AfterRun(w, run).s.t.waiters && v !in AfterRun(w, run).p.blocks
    decreases |run|
  {
    if run != [] {
      hide AfterEvent;
      LastWaits(AfterEvent(w, run[0]), run[1..], v);
    }
  }

  lemma FirstBehind(waiters: seq<Waiter>, v: Waiter, other: Waiter)
    requires FirstWaiter(waiters, v.key) == [v.esi] && other.key == v.key && other != v
    requires UniqueWaiters(waiters)
    ensures Behind(waiters, other, v)
  {
    var i := FirstIndex(waiters, WaiterOn(v.key));
    assert waiters[i] == v;
    forall a, b | 0 <= a < b < |waiters| && waiters[a] == other
      ensures waiters[b] != v
    {
      assert WaiterOn(v.key)(waiters[a]);
    }
  }

  lemma ElectedOrReady(s: Sched, order: seq<int>, x: int)
    requires Election(s, order) && x in s.t.ready
    ensures var v := AfterElection(s, order);
            v.t.waiters == s.t.waiters && (x in v.t.ready || x in v.execution)
  {
    if order != [] {
      assert x in multiset(s.t.ready);
      RemoveElements(order, Is(order[0]));
    }
  }

  /** A release serves who has waited longest: if v was the first to wait for the key, and has
      waited since, the turn that releases the key - after a STORE or by console - ends its
      waiting, and leaves its ESI ready or running. */
  lemma OldestServed(w: World, run: seq<Event>, v: Waiter, ev: Event)
    requires GateInv(w) && Feasible(w, run) && WaitsOn(w, run, v) && FirstWaiter(w.s.t.waiters, v.key) == [v.esi]
    requires var u := AfterRun(w, run);
             && Enabled(u, ev) && Freed(u.s, u.p, v.key) && !u.killedFlag
             && ((ev.TurnOfReport? && !ev.last && u.stage.reply == EverythingOk) || ev.TurnOfIdle?)
             && forall b :: b in u.p.blocks ==> b.esi != v.esi
    ensures var u' := AfterEvent(AfterRun(w, run), ev).s;
            !Waits(u'.t.waiters, v.esi) && (v.esi in u'.t.ready || v.esi in u'.execution)
  {
    FirstStays(w, run, v);
    LastWaits(w, run, v);
    MutualExclusion(w, run);
    ServesFirst(AfterRun(w, run), v, ev);
  }

  lemma ServesFirst(u: World, v: Waiter, ev: Event)
    requires GateInv(u) && Enabled(u, ev) && Freed(u.s, u.p, v.key) && !u.killedFlag
    requires v in u.s.t.waiters && FirstWaiter(u.s.t.waiters, v.key) == [v.esi]
    requires (ev.TurnOfReport? && !ev.last && u.stage.reply == EverythingOk) || ev.TurnOfIdle?
    requires forall b :: b in u.p.blocks ==> b.esi != v.esi
    ensures var u' := AfterEvent(u, ev).s;
            !Waits(u'.t.waiters, v.esi) && (v.esi in u'.t.ready || v.esi in u'.execution)
  {
    hide Turn;
    hide IdleTurn;
    hide SchedInv;
    hide Freed;
    hide FirstWaiter;
    match ev
    case TurnOfReport(last, order) =>
      TurnServes(u.s, u.stage.esi, u.lastKey, u.p, v);
      NoKills(u.s, u.stage.esi, u.lastKey, u.killed, u.p);
      ElectedOrReady(TurnOf(u, Success(false)), order, v.esi);
    case TurnOfIdle(order) =>
      IdleServes(u.s, u.p, v);
      NoIdleKills(u.s, u.killed, u.p);
      ElectedOrReady(IdleTurn(u.s, u.killedFlag, u.killed, u.p), order, v.esi);
    case _ =>
  }

  lemma NoKills(s: Sched, e: int, lastKey: Key, killed: seq<int>, p: Pending)
    ensures Turn(s, Success(false), e, lastKey, false, killed, p) == Turn(s, Success(false), e, lastKey, false, [], p)
  {
    hide Closed;
    hide SockAll;
  }

  lemma NoIdleKills(s: Sched, killed: seq<int>, p: Pending)
    ensures IdleTurn(s, false, killed, p) == IdleTurn(s, false, [], p)
  {
    hide Housekept;
    hide SockAll;
  }

  /** The same when the owner of the key goes: it ends its script, dies or is killed. */
  lemma OldestInherits(w: World, run: seq<Event>, v: Waiter, ev: Event)
    requires GateInv(w) && Feasible(w, run) && WaitsOn(w, run, v) && FirstWaiter(w.s.t.waiters, v.key) == [v.esi]
    requires var u := AfterRun(w, run);
             && Enabled(u, ev) && IsTurn(ev)
             && OwnerGone(u.s, AfterEvent(u, ev).s, v.key) && v.esi in AfterEvent(u, ev).s.bursts
             && forall b :: b in u.p.blocks ==> b.esi != v.esi
    ensures var u' := AfterEvent(AfterRun(w, run), ev).s;
            !Waits(u'.t.waiters, v.esi) && (v.esi in u'.t.ready || v.esi in u'.execution)
  {
    hide AfterEvent;
    FirstStays(w, run, v);
    LastWaits(w, run, v);
    MutualExclusion(w, run);
    InheritsFirst(AfterRun(w, run), v, ev);
  }

  lemma InheritsFirst(u: World, v: Waiter, ev: Event)
    requires GateInv(u) && Enabled(u, ev) && IsTurn(ev)
    requires v in u.s.t.waiters && FirstWaiter(u.s.t.waiters, v.key) == [v.esi]
    requires OwnerGone(u.s, AfterEvent(u, ev).s, v.key) && v.esi in AfterEvent(u, ev).s.bursts
    requires forall b :: b in u.p.blocks ==> b.esi != v.esi
    ensures var u' := AfterEvent(u, ev).s;
            !Waits(u'.t.waiters, v.esi) && (v.esi in u'.t.ready || v.esi in u'.execution)
  {
    hide Turn;
    hide IdleTurn;
    hide SchedInv;
    hide FirstWaiter;
    DemandsMet(u);
    match ev
    case TurnOfReport(last, order) => ReportInherits(u, OutcomeOf(u.stage.reply, last), v, order);
    case TurnOfLoss(order) => ReportInherits(u, Lost, v, order);
    case TurnOfIdle(order) =>
      var r := IdleTurn(u.s, u.killedFlag, u.killed, u.p);
      SameOwners(u.s, r, AfterElection(r, order), v.key);
      IdleOwnerServes(u.s, u.killedFlag, u.killed, u.p, v);
      ElectedOrReady(r, order, v.esi);
    case _ =>
  }

  lemma ReportInherits(u: World, o: Outcome, v: Waiter, order: seq<int>)
    requires GateInv(u) && !u.stage.NobodyRuns? && Operator(u) && Election(TurnOf(u, o), order)
    requires Reportable(u.s, o, u.stage.esi, u.lastKey, u.killed)
    requires v in u.s.t.waiters && FirstWaiter(u.s.t.waiters, v.key) == [v.esi]
    requires forall b :: b in u.p.blocks ==> b.esi != v.esi
    requires var u' := AfterElection(TurnOf(u, o), order); OwnerGone(u.s, u', v.key) && v.esi in u'.bursts
    ensures var u' := AfterElection(TurnOf(u, o), order);
            !Waits(u'.t.waiters, v.esi) && (v.esi in u'.t.ready || v.esi in u'.execution)
  {
    hide Turn;
    hide SchedInv;
    hide FirstWaiter;
    hide Reportable;
    SameOwners(u.s, TurnOf(u, o), AfterElection(TurnOf(u, o), order), v.key);
    OwnerServes(u.s, o, u.stage.esi, u.lastKey, u.killedFlag, u.killed, u.p, v);
    ElectedOrReady(TurnOf(u, o), order, v.esi);
  }

  lemma SameOwners(s: Sched, r: Sched, r': Sched, k: Key)
    requires r'.bursts == r.bursts
    ensures OwnerGone(s, r', k) <==> OwnerGone(s, r, k)
  {
  }
}
