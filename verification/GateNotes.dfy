/** What arrivals, the operator and a STORE leave pending is not lost, and the next turn sees to it. */
module GateNotes {
  import opened Locks
  import opened Lists
  import opened Release
  import opened PlannerTables
  import opened PlannerSteps
  import opened PlannerTurns
  import opened QueueOrder
  import opened TurnLaws
  import opened Wakings
  import opened Gate
  import opened GateRuns

  /** Between two turns nothing that is pending gets lost. */
  lemma NotesKept(w: World, ev: Event)
    requires Enabled(w, ev) && !IsTurn(ev)
    ensures var v := AfterEvent(w, ev);
            && (w.killedFlag ==> v.killedFlag) && w.killed <= v.killed
            && (w.p.consoleUnlock ==> v.p.consoleUnlock) && w.p.consoleKeys <= v.p.consoleKeys
            && (w.p.consoleBlock ==> v.p.consoleBlock) && w.p.blocks <= v.p.blocks
            && (w.p.arrivals ==> v.p.arrivals) && w.s.newQueue <= v.s.newQueue && (w.s.unlock ==> v.s.unlock)
  {
  }

  /** Each command, arrival and STORE leaves its note. */
  lemma Noted(w: World, ev: Event)
    requires GateInv(w) && Enabled(w, ev)
    ensures var v := AfterEvent(w, ev);
            match ev
            case Arrives(e) => v.p.arrivals && e in v.s.newQueue && e in v.s.bursts
            case ConsoleKills(e) => v.killedFlag && (e != NOBODY ==> e in v.killed)
            case ConsoleBlocks(e, k) => v.p.consoleBlock && Waiter(e, k) in v.p.blocks
            case ConsoleUnblocks(k) => Freed(v.s, v.p, k)
            case InstanceAnswers(ok) => ok && w.stage.op.Store? ==> Freed(v.s, v.p, w.stage.op.key)
            case _ => true
  {
  }

  /** The next turn kills who was to be killed. */
  lemma KillsHeard(w: World, ev: Event, e: int)
    requires GateInv(w) && Enabled(w, ev) && IsTurn(ev) && w.killedFlag && e in w.killed
    ensures e !in AfterEvent(w, ev).s.bursts && AfterEvent(w, ev).killed == [] && !AfterEvent(w, ev).killedFlag
  {
    hide Turn;
    hide IdleTurn;
    hide SchedInv;
    DemandsMet(w);
    match ev
    case TurnOfReport(last, order) =>
      TurnLive(w.s, OutcomeOf(w.stage.reply, last), w.stage.esi, w.lastKey, w.killedFlag, w.killed, w.p);
    case TurnOfLoss(order) =>
      TurnLive(w.s, Lost, w.stage.esi, w.lastKey, w.killedFlag, w.killed, w.p);
    case TurnOfIdle(order) => IdleLive(w.s, w.killedFlag, w.killed, w.p);
    case _ =>
  }

  /** The next turn but the last one of a script takes the new ESIs in: they are ready or running
      then, unless console blocks made them wait. */
  lemma ArrivalsHeard(w: World, ev: Event, e: int)
    requires GateInv(w) && Enabled(w, ev) && w.p.arrivals && e in w.s.newQueue
    requires ev.TurnOfIdle? || ev.TurnOfLoss? || (ev.TurnOfReport? && !(ev.last && w.stage.reply == EverythingOk))
    requires e in AfterEvent(w, ev).s.bursts
    ensures var v := AfterEvent(w, ev).s;
            || e in v.t.ready || e in v.execution
            || (e in v.t.blocked && exists b :: b in w.p.blocks && b.esi == e && w.p.consoleBlock)
  {
    hide Turn;
    hide IdleTurn;
    hide SchedInv;
    DemandsMet(w);
    QueuesApart(w.s, e);
    match ev
    case TurnOfReport(last, order) =>
      TakenIn(w, OutcomeOf(w.stage.reply, last), e);
      EitherQueue(TurnOf(w, OutcomeOf(w.stage.reply, last)), order, e);
    case TurnOfLoss(order) =>
      TakenIn(w, Lost, e);
      EitherQueue(TurnOf(w, Lost), order, e);
    case TurnOfIdle(order) =>
      IdleTakenIn(w, e);
      EitherQueue(IdleTurn(w.s, w.killedFlag, w.killed, w.p), order, e);
    case _ =>
  }

  lemma EitherQueue(s: Sched, order: seq<int>, x: int)
    requires Election(s, order)
    ensures var v := AfterElection(s, order);
            && v.bursts == s.bursts && v.t.blocked == s.t.blocked
            && (x in s.t.ready ==> x in v.t.ready || x in v.execution)
  {
    if x in s.t.ready {
      ElectedOrReady(s, order, x);
    }
  }

  lemma TakenIn(w: World, o: Outcome, e: int)
    requires GateInv(w) && w.stage != NobodyRuns && Operator(w) && w.p.arrivals && e in w.s.newQueue
    requires Reportable(w.s, o, w.stage.esi, w.lastKey, w.killed) && o != Success(true) && e in TurnOf(w, o).bursts
    ensures var r := TurnOf(w, o);
            || e in r.t.ready
            || (e in r.t.blocked && exists b :: b in w.p.blocks && b.esi == e && w.p.consoleBlock)
  {
    hide Turn;
    hide SchedInv;
    QueuesApart(w.s, e);
    TurnPlaces(w.s, o, w.stage.esi, w.lastKey, w.killedFlag, w.killed, w.p, e);
    TurnAsked(w.s, o, w.stage.esi, w.lastKey, w.killedFlag, w.killed, w.p);
    NamedOrNot(w, TurnOf(w, o), e);
  }

  lemma IdleTakenIn(w: World, e: int)
    requires GateInv(w) && w.s.execution == [] && Operator(w) && w.p.arrivals && e in w.s.newQueue
    requires e in IdleTurn(w.s, w.killedFlag, w.killed, w.p).bursts
    ensures var r := IdleTurn(w.s, w.killedFlag, w.killed, w.p);
            || e in r.t.ready
            || (e in r.t.blocked && exists b :: b in w.p.blocks && b.esi == e && w.p.consoleBlock)
  {
    hide IdleTurn;
    hide SchedInv;
    QueuesApart(w.s, e);
    IdlePlaces(w.s, w.killedFlag, w.killed, w.p, e);
    IdleAsked(w.s, w.killedFlag, w.killed, w.p);
    NamedOrNot(w, IdleTurn(w.s, w.killedFlag, w.killed, w.p), e);
  }

  /** Somebody who did not wait, and did not report, waits only if a console block names it. */
  lemma NamedOrNot(w: World, r: Sched, e: int)
    requires GateInv(w) && e in w.s.newQueue
    requires forall v :: v in r.t.waiters ==>
               || v in w.s.t.waiters
               || (!w.stage.NobodyRuns? && v.esi == w.stage.esi)
               || (w.p.consoleBlock && v in w.p.blocks)
    ensures Waits(r.t.waiters, e) ==> exists b :: b in w.p.blocks && b.esi == e && w.p.consoleBlock
  {
    QueuesApart(w.s, e);
    WaitsIn(r.t.waiters);
    WaitsIn(w.s.t.waiters);
  }

  /** An idle turn, or one that goes on and has an arrival or a release to see to, hears the
      pending console blocks. */
  lemma BlocksHeard(w: World, ev: Event, b: Waiter)
    requires GateInv(w) && Enabled(w, ev) && w.p.consoleBlock && b in w.p.blocks
    requires || ev.TurnOfIdle?
             || (ev.TurnOfReport? && !(ev.last && w.stage.reply == EverythingOk) && (w.p.arrivals || w.p.consoleUnlock))
    ensures Heard(AfterEvent(w, ev).s, b)
  {
    hide Turn;
    hide IdleTurn;
    hide SchedInv;
    hide Heard;
    DemandsMet(w);
    match ev
    case TurnOfReport(last, order) =>
      var o := OutcomeOf(w.stage.reply, last);
      TurnHears(w.s, o, w.stage.esi, w.lastKey, w.killedFlag, w.killed, w.p, b);
      HeardByElection(TurnOf(w, o), order, b);
    case TurnOfIdle(order) =>
      IdleHears(w.s, w.killedFlag, w.killed, w.p, b);
      HeardByElection(IdleTurn(w.s, w.killedFlag, w.killed, w.p), order, b);
    case _ =>
  }

  lemma HeardByElection(s: Sched, order: seq<int>, b: Waiter)
    requires Heard(s, b)
    ensures Heard(AfterElection(s, order), b)
  {
  }
}
