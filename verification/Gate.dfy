/** The gate of the Coordinador: every operation of an ESI asks the Planificador first. The
    three processes step by step, with the planner's own turns in between. */
module Gate {
  import opened Locks
  import opened Release
  import opened PlannerTables
  import opened PlannerSteps
  import opened PlannerTurns

  datatype Operation = Get(key: Key) | Set(key: Key) | Store(key: Key)

  /** What the Coordinador answers to an ESI. */
  datatype Reply = EverythingOk | YouAreBlocked | IllegalOperation

  /** Where the operation in flight is; it belongs to the executing ESI. */
  datatype Stage =
    | NobodyRuns
    | Ordered(esi: int)
    | Asking(esi: int, op: Operation)
    | AskingOwner(esi: int, op: Operation)
    | Granting(esi: int, key: Key)
    | AtInstance(esi: int, op: Operation)
    | Replied(esi: int, reply: Reply)

  /** The planner's tables and flags, the last key it was asked about, and the operation. */
  datatype World = World(s: Sched, p: Pending, killedFlag: bool, killed: seq<int>, lastKey: Key, stage: Stage)

  datatype Event =
    | Issue(op: Operation)                       // the ESI sends its next operation
    | AnswerIsBlocked                            // the planner answers whether the key is locked
    | AnswerIsMine                               // ... and whether the executing ESI has it
    | GrantKey                                   // the planner locks the key for a GET
    | InstanceAnswers(ok: bool)                  // the instance did the SET or STORE, or not
    | TurnOfReport(last: bool, order: seq<int>)  // the ESI reports and the planner takes a turn
    | TurnOfLoss(order: seq<int>)                // it exits on a line that is no operation, and the planner notices
    | TurnOfIdle(order: seq<int>)                // nobody runs: the planner takes a turn
    | Arrives(esi: int)
    | ConsoleKills(esi: int)
    | ConsoleBlocks(esi: int, key: Key)
    | ConsoleUnblocks(key: Key)

  /** The report of an ESI: one that did something illegal just exits. */
  function OutcomeOf(reply: Reply, last: bool): Outcome {
    match reply
    case EverythingOk => Success(last)
    case YouAreBlocked => IAmBlocked
    case IllegalOperation => Lost
  }

  function TurnOf(w: World, o: Outcome): Sched
    requires !w.stage.NobodyRuns?
  {
    Turn(w.s, o, w.stage.esi, w.lastKey, w.killedFlag, w.killed, w.p)
  }

  /** An election picks from the ready ESIs, and only when nobody runs. */
  ghost predicate Election(s: Sched, order: seq<int>) {
    order == [] || (s.execution == [] && multiset(order) == multiset(s.t.ready))
  }

  /** When an event can happen. What the operator may do is restricted; what the processes do
      follows from the stage alone. */
  ghost predicate Enabled(w: World, ev: Event) {
    match ev
    case Issue(_) => w.stage.Ordered?
    case AnswerIsBlocked => w.stage.Asking?
    case AnswerIsMine => w.stage.AskingOwner?
    case GrantKey => w.stage.Granting?
    case InstanceAnswers(_) => w.stage.AtInstance?
    case TurnOfReport(last, order) =>
      w.stage.Replied? && Operator(w) && Election(TurnOf(w, OutcomeOf(w.stage.reply, last)), order)
    case TurnOfLoss(order) =>
      w.stage.Ordered? && Operator(w) && w.stage.esi !in w.killed && Election(TurnOf(w, Lost), order)
    case TurnOfIdle(order) =>
      w.s.execution == [] && Operator(w) && Election(IdleTurn(w.s, w.killedFlag, w.killed, w.p), order)
    case Arrives(e) => e >= 0 && e !in w.s.bursts
    case _ => true
  }

  /** Kills of live ESIs only, none of one that dies by itself in this turn; console blocks of
      live ESIs at most once, and not on a key of their own. */
  ghost predicate Operator(w: World) {
    && Mortal(w.killed, w.s.bursts) && Fair(w.p.blocks, w.s.bursts, w.s.t.locks)
    && (w.stage.Replied? && w.stage.reply == IllegalOperation ==> w.stage.esi !in w.killed)
  }

  /** After a turn the executing ESI, if any, has been told to go on. */
  function Rested(w: World, s: Sched, p: Pending): World {
    World(s, p, false, if w.killedFlag then [] else w.killed, w.lastKey,
          if s.execution == [] then NobodyRuns else Ordered(s.execution[0]))
  }

  /** The planner's turn after the executing ESI reported, or was lost. */
  function AfterTurn(w: World, o: Outcome, order: seq<int>): World
    requires !w.stage.NobodyRuns?
  {
    Rested(w, AfterElection(TurnOf(w, o), order),
           TurnPending(w.s, o, w.stage.esi, w.lastKey, w.killedFlag, w.killed, w.p))
  }

  function AfterEvent(w: World, ev: Event): World
    requires Enabled(w, ev)
  {
    match ev
    case Issue(op) => w.(stage := Asking(w.stage.esi, op))
    case AnswerIsBlocked =>
      var e, op := w.stage.esi, w.stage.op;
      var next :=
        if IsLocked(w.s.t.locks, op.key) then AskingOwner(e, op)
        else if op.Get? then Granting(e, op.key)
        else Replied(e, IllegalOperation);
      w.(lastKey := op.key, stage := next)
    case AnswerIsMine =>
      var e, op := w.stage.esi, w.stage.op;
      var mine := w.s.execution != [] && Owns(w.s.t.locks, w.s.execution[0], w.lastKey);
      var next :=
        if op.Get? then Replied(e, if mine then EverythingOk else YouAreBlocked)
        else if mine then AtInstance(e, op)
        else Replied(e, IllegalOperation);
      w.(stage := next)
    case GrantKey =>
      var owner := if w.s.execution != [] then w.s.execution[0] else NOBODY;
      w.(s := Locked(w.s, Lock(w.lastKey, owner)), stage := Replied(w.stage.esi, EverythingOk))
    case InstanceAnswers(ok) =>
      var stored := ok && w.stage.op.Store?;
      var p := if stored then w.p.(key := w.stage.op.key) else w.p;
      w.(s := w.s.(unlock := w.s.unlock || stored), p := p,
         stage := Replied(w.stage.esi, if ok then EverythingOk else IllegalOperation))
    case TurnOfReport(last, order) =>
      AfterTurn(w, OutcomeOf(w.stage.reply, last), order)
    case TurnOfLoss(order) => AfterTurn(w, Lost, order)
    case TurnOfIdle(order) =>
      Rested(w, AfterElection(IdleTurn(w.s, w.killedFlag, w.killed, w.p), order),
             IdlePending(w.s, w.killedFlag, w.killed, w.p))
    case Arrives(e) => w.(s := Arrived(w.s, e), p := w.p.(arrivals := true))
    case ConsoleKills(e) => w.(killedFlag := true, killed := if e == NOBODY then w.killed else w.killed + [e])
    case ConsoleBlocks(e, k) => w.(p := w.p.(consoleBlock := true, blocks := w.p.blocks + [Waiter(e, k)]))
    case ConsoleUnblocks(k) => w.(p := w.p.(consoleUnlock := true, consoleKeys := w.p.consoleKeys + [k]))
  }

  /** The operation in flight belongs to the executing ESI, a granted key is still free, and an
      operation at an instance belongs to the owner of its key. */
  ghost predicate GateInv(w: World) {
    && SchedInv(w.s)
    && (w.stage.NobodyRuns? <==> w.s.execution == [])
    && (!w.stage.NobodyRuns? ==> w.s.execution == [w.stage.esi])
    && (w.stage.AskingOwner? ==> w.lastKey == w.stage.op.key && IsLocked(w.s.t.locks, w.lastKey))
    && (w.stage.Granting? ==> w.lastKey == w.stage.key && !IsLocked(w.s.t.locks, w.lastKey))
    && (w.stage.AtInstance? ==> !w.stage.op.Get? && Lock(w.stage.op.key, w.stage.esi) in w.s.t.locks)
    && (w.stage.Replied? && w.stage.reply == YouAreBlocked ==>
          IsLocked(w.s.t.locks, w.lastKey) && Lock(w.lastKey, w.stage.esi) !in w.s.t.locks)
  }

  /** The planner with nobody connected yet, and the keys that are locked from the beginning. */
  function Empty(locks: seq<Lock>): Sched {
    Sched([], [], [], Tables([], [], locks, []), false)
  }

  /** From a duplicate-free list of initial locks the gate is closed. */
  lemma GateStarts(locks: seq<Lock>, p: Pending, k: Key)
    requires UniqueLocks(locks) && forall l :: l in locks ==> l.esi == SYSTEM
    ensures GateInv(World(Empty(locks), p, false, [], k, NobodyRuns))
  {
  }

  lemma OwnsIn(locks: seq<Lock>, e: int, k: Key)
    ensures Owns(locks, e, k) <==> Lock(k, e) in locks
  {
  }

  /** What the planner demands of the Coordinador holds whenever the Coordinador asks: the
      owner is asked about only while somebody runs, only free keys are locked, and an ESI
      reports to be blocked only by a key of somebody else. */
  lemma DemandsMet(w: World)
    requires GateInv(w)
    ensures w.stage.AskingOwner? ==> w.s.execution != []
    ensures w.stage.Granting? ==> w.s.execution == [w.stage.esi] && !IsLocked(w.s.t.locks, w.lastKey)
    ensures w.stage.Replied? && Operator(w) ==>
              forall last :: Reportable(w.s, OutcomeOf(w.stage.reply, last), w.stage.esi, w.lastKey, w.killed)
    ensures w.stage.Ordered? && Operator(w) && w.stage.esi !in w.killed ==>
              Reportable(w.s, Lost, w.stage.esi, w.lastKey, w.killed)
  {
    if w.stage.Replied? || w.stage.Ordered? {
      LiveParts(w.s);
      assert Active(w.s, w.stage.esi);
    }
  }

  lemma ReportKeeps(w: World, last: bool, order: seq<int>)
    requires GateInv(w) && Enabled(w, TurnOfReport(last, order))
    ensures GateInv(AfterEvent(w, TurnOfReport(last, order)))
  {
    DemandsMet(w);
    AfterTurnKeeps(w, OutcomeOf(w.stage.reply, last), order);
  }

  /** The turn that a report, or the loss of the executing ESI, starts, with its election. */
  lemma AfterTurnKeeps(w: World, o: Outcome, order: seq<int>)
    requires SchedInv(w.s) && w.stage != NobodyRuns && w.s.execution == [w.stage.esi] && Operator(w)
    requires Reportable(w.s, o, w.stage.esi, w.lastKey, w.killed) && Election(TurnOf(w, o), order)
    ensures GateInv(AfterTurn(w, o, order))
  {
    hide Turn;
    hide TurnPending;
    hide Reportable;
    hide SchedInv;
    TurnKeeps(w.s, o, w.stage.esi, w.lastKey, w.killedFlag, w.killed, w.p);
    ElectionKeeps(TurnOf(w, o), order);
    RestedKeeps(w, AfterElection(TurnOf(w, o), order),
                TurnPending(w.s, o, w.stage.esi, w.lastKey, w.killedFlag, w.killed, w.p));
  }

  lemma RestedKeeps(w: World, s: Sched, p: Pending)
    requires SchedInv(s) && (s.execution == [] || s.execution == [s.execution[0]])
    ensures GateInv(Rested(w, s, p))
  {
    hide SchedInv;
  }

  /** Losing the executing ESI before it sends its next operation. */
  lemma LossKeeps(w: World, order: seq<int>)
    requires GateInv(w) && Enabled(w, TurnOfLoss(order))
    ensures GateInv(AfterEvent(w, TurnOfLoss(order)))
  {
    DemandsMet(w);
    AfterTurnKeeps(w, Lost, order);
  }

  lemma IdleTurnKeeps(w: World, order: seq<int>)
    requires GateInv(w) && Enabled(w, TurnOfIdle(order))
    ensures GateInv(AfterEvent(w, TurnOfIdle(order)))
  {
    hide SchedInv;
    hide IdleTurn;
    hide IdlePending;
    IdleKeeps(w.s, w.killedFlag, w.killed, w.p);
    var r := IdleTurn(w.s, w.killedFlag, w.killed, w.p);
    ElectionKeeps(r, order);
    RestedKeeps(w, AfterElection(r, order), IdlePending(w.s, w.killedFlag, w.killed, w.p));
  }

  lemma GrantKeeps(w: World)
    requires GateInv(w) && w.stage.Granting?
    ensures GateInv(AfterEvent(w, GrantKey))
    ensures Lock(w.stage.key, w.stage.esi) in AfterEvent(w, GrantKey).s.t.locks
  {
    var e := w.stage.esi;
    assert Active(w.s, e);
    ActiveElsewhere(w.s, e);
    LockKeeps(w.s, Lock(w.lastKey, e));
  }

  /** Every event keeps the gate closed. */
  lemma GateKept(w: World, ev: Event)
    requires GateInv(w) && Enabled(w, ev)
    ensures GateInv(AfterEvent(w, ev))
  {
    match ev
    case TurnOfReport(last, order) => ReportKeeps(w, last, order);
    case TurnOfLoss(order) => LossKeeps(w, order);
    case TurnOfIdle(order) => IdleTurnKeeps(w, order);
    case GrantKey => GrantKeeps(w);
    case Arrives(e) => ArriveKeeps(w.s, e);
    case AnswerIsMine => OwnsIn(w.s.t.locks, w.stage.esi, w.lastKey);
    case _ =>
  }

  // ----- whole runs -----

  ghost predicate Feasible(w: World, run: seq<Event>)
    decreases |run|
  {
    run == [] || (Enabled(w, run[0]) && Feasible(AfterEvent(w, run[0]), run[1..]))
  }

  ghost function AfterRun(w: World, run: seq<Event>): World
    requires Feasible(w, run)
    decreases |run|
  {
    if run == [] then w else AfterRun(AfterEvent(w, run[0]), run[1..])
  }

  /** Key mutual exclusion over every run: a key has at most one owner, and what an instance
      is asked to write belongs to the only ESI that runs, which owns the key. */
  lemma {:induction false} MutualExclusion(w: World, run: seq<Event>)
    requires GateInv(w) && Feasible(w, run)
    ensures var v := AfterRun(w, run);
            && UniqueLocks(v.s.t.locks)
            && (v.stage.AtInstance? ==>
                  v.s.execution == [v.stage.esi]
                  && forall l :: l in v.s.t.locks && l.key == v.stage.op.key ==> l.esi == v.stage.esi)
    ensures GateInv(AfterRun(w, run))
    decreases |run|
  {
    if run == [] {
      if w.stage.AtInstance? {
        forall l | l in w.s.t.locks && l.key == w.stage.op.key
          ensures l.esi == w.stage.esi
        {
          OneOwner(w.s.t.locks, l, Lock(w.stage.op.key, w.stage.esi));
        }
      }
    } else {
      GateKept(w, run[0]);
      MutualExclusion(AfterEvent(w, run[0]), run[1..]);
    }
  }

  /** The same from the beginning: whatever the initial locks, arrivals and events. */
  lemma MutualExclusionFromStart(locks: seq<Lock>, p: Pending, k: Key, run: seq<Event>)
    requires UniqueLocks(locks) && forall l :: l in locks ==> l.esi == SYSTEM
    requires Feasible(World(Empty(locks), p, false, [], k, NobodyRuns), run)
    ensures var v := AfterRun(World(Empty(locks), p, false, [], k, NobodyRuns), run);
            && UniqueLocks(v.s.t.locks)
            && (v.stage.AtInstance? ==>
                  v.s.execution == [v.stage.esi]
                  && forall l :: l in v.s.t.locks && l.key == v.stage.op.key ==> l.esi == v.stage.esi)
  {
    GateStarts(locks, p, k);
    MutualExclusion(World(Empty(locks), p, false, [], k, NobodyRuns), run);
  }

  /** While a GET waits between the check and the lock, nothing else changes the locks: the
      planner takes no turn, since somebody executes. */
  lemma NothingInBetween(w: World, ev: Event)
    requires GateInv(w) && Enabled(w, ev) && (w.stage.Granting? || w.stage.AskingOwner? || w.stage.AtInstance?)
    ensures AfterEvent(w, ev).s.t.locks == w.s.t.locks || ev == GrantKey
    ensures AfterEvent(w, ev).stage == w.stage || ev in {GrantKey, AnswerIsMine} || ev.InstanceAnswers?
  {
  }

  /** What an operation decides, from the locks at the time it was asked: a GET of a free key
      takes it, one of an own key succeeds, one of another's blocks; a SET or STORE gets to an
      instance exactly when its ESI owns the key, and is illegal otherwise. */
  lemma GateDecides(w: World)
    requires GateInv(w) && w.stage.Asking?
    ensures var e, op, locks := w.stage.esi, w.stage.op, w.s.t.locks;
            var mine := Lock(op.key, e) in locks;
            var asked := AfterEvent(w, AnswerIsBlocked);
            var done := if asked.stage.AskingOwner? then AfterEvent(asked, AnswerIsMine)
                        else if asked.stage.Granting? then AfterEvent(asked, GrantKey)
                        else asked;
            && done.lastKey == op.key
            && (done.s.t.locks == if op.Get? && !IsLocked(locks, op.key) then locks + [Lock(op.key, e)] else locks)
            && done.stage == if op.Get? then
                               Replied(e, if mine || !IsLocked(locks, op.key) then EverythingOk else YouAreBlocked)
                             else if mine then AtInstance(e, op)
                             else Replied(e, IllegalOperation)
  {
    OwnsIn(w.s.t.locks, w.stage.esi, w.stage.op.key);
  }
}
