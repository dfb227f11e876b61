/** The two-semaphore hand-off of the planner's answers inside the Coordinador: a reader
    thread receives, any number of client threads ask and wait, and the planner answers in
    the order it is asked. One constructor of Move per atomic step. */
module Handoff {
  /** What the Coordinador sends to the planner. */
  datatype Query = IsBlocked | IsMine | Block | Unlock | StatusReply

  /** What the planner sends to the Coordinador. */
  datatype Answer = NotBlocked | Blocked | Mine | NotMine | BlockedOk | UnlockedOk | StatusRequest

  /** The reader waits for its semaphore, receives, or reports the status of a key. */
  datatype Reader = Outside | Receiving | Reporting

  /** A client is away, waits for an answer, has got one, or receives the second one itself. */
  datatype Client = Away | Waiting(q: Query) | Got(q: Query, a: Answer) | ReceivingOwner

  /** `mutex` is the planner's semaphore between its main loop and its console. */
  datatype State = State(
    recvSem: nat, pendingSem: nat, pending: Answer, reader: Reader, clients: seq<Client>,
    toPlanner: seq<Query>, toCoordinator: seq<Answer>, mutex: nat, exited: bool)

  datatype Move =
    | ReaderEnters
    | ReaderReceives
    | ReaderReports
    | Ask(c: nat, q: Query)
    | ClientWakes(c: nat)
    | ClientGoesOn(c: nat)
    | ClientReceives(c: nat)
    | PlannerAnswers(yes: bool)
    | ConsoleAsksStatus

  ghost predicate Start(s: State) {
    && s.recvSem == 1 && s.pendingSem == 0 && s.reader == Outside
    && (forall c :: 0 <= c < |s.clients| ==> s.clients[c] == Away)
    && s.toPlanner == [] && s.toCoordinator == [] && s.mutex == 1 && !s.exited
  }

  /** The planner's main loop takes the mutex for every message but the second query. */
  predicate NeedsMutex(q: Query) {
    q != IsMine
  }

  predicate Enabled(s: State, m: Move) {
    !s.exited &&
    match m
    case ReaderEnters => s.reader == Outside && s.recvSem > 0
    case ReaderReceives => s.reader == Receiving && s.toCoordinator != []
    case ReaderReports => s.reader == Reporting
    case Ask(c, q) => c < |s.clients| && s.clients[c] == Away && q in {IsBlocked, Block, Unlock}
    case ClientWakes(c) => c < |s.clients| && s.clients[c].Waiting? && s.pendingSem > 0
    case ClientGoesOn(c) => c < |s.clients| && s.clients[c].Got?
    case ClientReceives(c) => c < |s.clients| && s.clients[c] == ReceivingOwner && s.toCoordinator != []
    case PlannerAnswers(_) => s.toPlanner != [] && (NeedsMutex(s.toPlanner[0]) ==> s.mutex > 0)
    case ConsoleAsksStatus => s.mutex > 0
  }

  /** What a client does with an answer: done, ask for the owner, or an error that ends the process. */
  datatype Verdict = Done | AskOwner | Fatal

  function Judge(q: Query, a: Answer): Verdict {
    match q
    case IsBlocked => if a == NotBlocked then Done else if a == Blocked then AskOwner else Fatal
    case IsMine => if a in {Mine, NotMine} then Done else Fatal
    case _ => Done
  }

  function Apply(s: State, m: Move): State
    requires Enabled(s, m)
  {
    match m
    case ReaderEnters => s.(recvSem := s.recvSem - 1, reader := Receiving)
    case ReaderReceives =>
      var a, rest := s.toCoordinator[0], s.toCoordinator[1..];
      if a == StatusRequest then s.(toCoordinator := rest, reader := Reporting)
      else s.(toCoordinator := rest, reader := Outside, pending := a, pendingSem := s.pendingSem + 1)
    case ReaderReports => s.(toPlanner := s.toPlanner + [StatusReply], reader := Outside, recvSem := s.recvSem + 1)
    case Ask(c, q) => s.(clients := s.clients[c := Waiting(q)], toPlanner := s.toPlanner + [q])
    case ClientWakes(c) => s.(pendingSem := s.pendingSem - 1, clients := s.clients[c := Got(s.clients[c].q, s.pending)])
    case ClientGoesOn(c) =>
      (match Judge(s.clients[c].q, s.clients[c].a)
       case Done => s.(clients := s.clients[c := Away], recvSem := s.recvSem + 1)
       case AskOwner => s.(clients := s.clients[c := ReceivingOwner], toPlanner := s.toPlanner + [IsMine])
       case Fatal => s.(exited := true))
    case ClientReceives(c) =>
      s.(clients := s.clients[c := Got(IsMine, s.toCoordinator[0])], toCoordinator := s.toCoordinator[1..])
    case PlannerAnswers(yes) =>
      var t := s.(toPlanner := s.toPlanner[1..]);
      (match s.toPlanner[0]
       case IsBlocked =>
         if yes then t.(toCoordinator := s.toCoordinator + [Blocked], mutex := s.mutex - 1)
         else t.(toCoordinator := s.toCoordinator + [NotBlocked])
       case IsMine => t.(toCoordinator := s.toCoordinator + [if yes then Mine else NotMine], mutex := s.mutex + 1)
       case Block => t.(toCoordinator := s.toCoordinator + [BlockedOk])
       case Unlock => t.(toCoordinator := s.toCoordinator + [UnlockedOk])
       case StatusReply => t)
    case ConsoleAsksStatus => s.(toCoordinator := s.toCoordinator + [StatusRequest])
  }

  // ----- the token -----

  predicate HasToken(c: Client) {
    c.Got? || c == ReceivingOwner
  }

  function Holders(clients: seq<Client>): nat {
    if clients == [] then 0
    else Holders(clients[..|clients| - 1]) + if HasToken(clients[|clients| - 1]) then 1 else 0
  }

  /** There is one token: in a semaphore, with the reader, or with a client. */
  ghost predicate OneToken(s: State) {
    s.recvSem + s.pendingSem + (if s.reader == Outside then 0 else 1) + Holders(s.clients) == 1
  }

  lemma {:induction false} HoldersUpdate(clients: seq<Client>, c: nat, x: Client)
    requires c < |clients|
    ensures Holders(clients[c := x])
            == Holders(clients) - (if HasToken(clients[c]) then 1 else 0) + (if HasToken(x) then 1 else 0)
  {
    var last := |clients| - 1;
    if c < last {
      HoldersUpdate(clients[..last], c, x);
      assert clients[c := x][..last] == clients[..last][c := x];
    } else {
      assert clients[c := x][..last] == clients[..last];
    }
  }

  lemma {:induction false} HoldersNone(clients: seq<Client>)
    requires forall c :: 0 <= c < |clients| ==> !HasToken(clients[c])
    ensures Holders(clients) == 0
  {
    if clients != [] {
      HoldersNone(clients[..|clients| - 1]);
    }
  }

  lemma {:induction false} HoldersAtLeast(clients: seq<Client>, c: nat)
    requires c < |clients| && HasToken(clients[c])
    ensures Holders(clients) >= 1
    ensures forall d :: 0 <= d < |clients| && d != c && HasToken(clients[d]) ==> Holders(clients) >= 2
  {
    var x := clients[c := Away];
    HoldersUpdate(clients, c, Away);
    forall d | 0 <= d < |clients| && d != c && HasToken(clients[d])
      ensures Holders(x) >= 1
    {
      HoldersUpdate(x, d, Away);
    }
  }

  lemma TokenStarts(s: State)
    requires Start(s)
    ensures OneToken(s)
  {
    HoldersNone(s.clients);
  }

  /** Every step of every thread keeps the one token, for any number of clients. */
  lemma TokenKept(s: State, m: Move)
    requires OneToken(s) && Enabled(s, m)
    ensures OneToken(Apply(s, m))
  {
    match m
    case Ask(c, q) => HoldersUpdate(s.clients, c, Waiting(q));
    case ClientWakes(c) => HoldersUpdate(s.clients, c, Got(s.clients[c].q, s.pending));
    case ClientGoesOn(c) =>
      HoldersUpdate(s.clients, c, Away);
      HoldersUpdate(s.clients, c, ReceivingOwner);
    case ClientReceives(c) => HoldersUpdate(s.clients, c, Got(IsMine, s.toCoordinator[0]));
    case _ =>
  }

  /** An answer is put in `pending` only when the one before has been taken and used up. */
  lemma NeverOverwritten(s: State)
    requires OneToken(s) && Enabled(s, ReaderReceives) && s.toCoordinator[0] != StatusRequest
    ensures Apply(s, ReaderReceives).pending == s.toCoordinator[0] && Apply(s, ReaderReceives).pendingSem == 1
    ensures s.pendingSem == 0 && forall c :: 0 <= c < |s.clients| ==> !HasToken(s.clients[c])
  {
    forall c | 0 <= c < |s.clients|
      ensures !HasToken(s.clients[c])
    {
      if HasToken(s.clients[c]) {
        HoldersAtLeast(s.clients, c);
        assert false;
      }
    }
  }

  /** The threads that may receive from the socket: the reader (-1) and the clients. */
  predicate MayReceive(s: State, thread: int) {
    (thread == -1 && s.reader == Receiving) || (0 <= thread < |s.clients| && s.clients[thread] == ReceivingOwner)
  }

  lemma OneReceiver(s: State, a: int, b: int)
    requires OneToken(s) && MayReceive(s, a) && MayReceive(s, b)
    ensures a == b
  {
    if 0 <= a {
      HoldersAtLeast(s.clients, a);
    }
    if 0 <= b {
      HoldersAtLeast(s.clients, b);
    }
  }

  // ----- one query in flight -----

  /** A query and an answer to it. */
  predicate Fits(q: Query, a: Answer) {
    match q
    case IsBlocked => a in {NotBlocked, Blocked}
    case IsMine => a in {Mine, NotMine}
    case Block => a == BlockedOk
    case Unlock => a == UnlockedOk
    case StatusReply => false
  }

  ghost predicate NoQuery(q: seq<Query>) {
    forall i :: 0 <= i < |q| ==> q[i] == StatusReply
  }

  ghost predicate NoAnswer(a: seq<Answer>) {
    forall i :: 0 <= i < |a| ==> a[i] == StatusRequest
  }

  /** Where the answer to the query of the only busy client is: still to be given, on its way,
      or waiting to be picked up. */
  datatype Place = AtPlanner(i: nat) | OnTheWay(i: nat) | Pending

  ghost predicate QueryAt(qs: seq<Query>, i: nat, q: Query) {
    i < |qs| && qs[i] == q && NoQuery(qs[..i]) && NoQuery(qs[i + 1..])
  }

  ghost predicate AnswerAt(answers: seq<Answer>, i: nat, q: Query) {
    i < |answers| && Fits(q, answers[i]) && NoAnswer(answers[..i]) && NoAnswer(answers[i + 1..])
  }

  /** The planner keeps its mutex from a "blocked" to the answer about the owner; until then
      nothing else is sent to the Coordinador. */
  ghost predicate InFlight(s: State, q: Query, place: Place) {
    match place
    case AtPlanner(i) => QueryAt(s.toPlanner, i, q) && NoAnswer(s.toCoordinator) && s.pendingSem == 0 && s.mutex == 1
    case OnTheWay(i) =>
      && NoQuery(s.toPlanner) && s.pendingSem == 0 && AnswerAt(s.toCoordinator, i, q)
      && (if s.toCoordinator[i] == Blocked then s.mutex == 0 && i == |s.toCoordinator| - 1 else s.mutex == 1)
    case Pending =>
      && NoQuery(s.toPlanner) && NoAnswer(s.toCoordinator) && s.pendingSem == 1 && Fits(q, s.pending)
      && (if s.pending == Blocked then s.mutex == 0 && s.toCoordinator == [] else s.mutex == 1)
  }

  ghost predicate OwnerInFlight(s: State) {
    || (s.toPlanner != [] && QueryAt(s.toPlanner, |s.toPlanner| - 1, IsMine) && s.toCoordinator == [] && s.mutex == 0)
    || (NoQuery(s.toPlanner) && AnswerAt(s.toCoordinator, 0, IsMine) && s.mutex == 1)
  }

  /** The conversation of client c when all the others are away. */
  ghost predicate Conversation(s: State, c: nat) {
    && OneToken(s) && !s.exited
    && c < |s.clients| && (forall d :: 0 <= d < |s.clients| && d != c ==> s.clients[d] == Away)
    && match s.clients[c]
       case Away => NoQuery(s.toPlanner) && NoAnswer(s.toCoordinator) && s.pendingSem == 0 && s.mutex == 1
       case Waiting(q) => q in {IsBlocked, Block, Unlock} && exists place :: InFlight(s, q, place)
       case Got(q, a) =>
         && NoQuery(s.toPlanner) && s.pendingSem == 0 && Fits(q, a)
         && (if a == Blocked then s.mutex == 0 && s.toCoordinator == [] else s.mutex == 1 && NoAnswer(s.toCoordinator))
       case ReceivingOwner => OwnerInFlight(s)
  }

  /** The client that receives the second answer by itself never gets a status request instead. */
  lemma NothingBetweenAnswers(s: State, c: nat)
    requires Conversation(s, c) && s.clients[c] == ReceivingOwner && s.toCoordinator != []
    ensures s.toCoordinator[0] in {Mine, NotMine}
  {
  }

  ghost predicate Idle(s: State) {
    forall d :: 0 <= d < |s.clients| ==> s.clients[d] == Away
  }

  /** A query is only asked when nobody else has one in flight. */
  ghost predicate Solo(s: State, m: Move) {
    m.Ask? ==> Idle(s)
  }

  lemma ConversationStarts(s: State, c: nat)
    requires Start(s) && c < |s.clients|
    ensures Conversation(s, c)
  {
    TokenStarts(s);
  }

  lemma AnyoneNext(s: State, c: nat, d: nat)
    requires Conversation(s, c) && Idle(s) && d < |s.clients|
    ensures Conversation(s, d)
  {
  }

  lemma PlannerStep(s: State, c: nat, yes: bool)
    requires Conversation(s, c) && Enabled(s, PlannerAnswers(yes))
    ensures Conversation(Apply(s, PlannerAnswers(yes)), c)
  {
    var m := PlannerAnswers(yes);
    var t := Apply(s, m);
    TokenKept(s, m);
    match s.clients[c]
    case Waiting(q) => PlannerFlight(s, q, yes);
    case ReceivingOwner => OwnerFlight(s, yes);
    case _ =>
  }

  /** The planner's step seen by a query in flight. */
  lemma PlannerFlight(s: State, q: Query, yes: bool)
    requires q in {IsBlocked, Block, Unlock} && Enabled(s, PlannerAnswers(yes)) && exists place :: InFlight(s, q, place)
    ensures exists place :: InFlight(Apply(s, PlannerAnswers(yes)), q, place)
  {
    var t := Apply(s, PlannerAnswers(yes));
    var place :| InFlight(s, q, place);
    if place.AtPlanner? {
      QueryNext(s.toPlanner, place.i, q);
      if place.i == 0 {
        AnswerAppended(s.toCoordinator, t.toCoordinator[|s.toCoordinator|], q);
        assert InFlight(t, q, OnTheWay(|s.toCoordinator|));
      } else {
        assert InFlight(t, q, AtPlanner(place.i - 1));
      }
    } else {
      assert InFlight(t, q, place);
    }
  }

  lemma OwnerFlight(s: State, yes: bool)
    requires Enabled(s, PlannerAnswers(yes)) && OwnerInFlight(s)
    ensures OwnerInFlight(Apply(s, PlannerAnswers(yes)))
  {
    var t := Apply(s, PlannerAnswers(yes));
    if s.mutex == 0 {
      QueryNext(s.toPlanner, |s.toPlanner| - 1, IsMine);
      AnswerAppended(s.toCoordinator, if yes then Mine else NotMine, IsMine);
    }
  }

  lemma QueryAppended(qs: seq<Query>, q: Query)
    requires NoQuery(qs)
    ensures QueryAt(qs + [q], |qs|, q)
  {
  }

  lemma AnswerAppended(answers: seq<Answer>, a: Answer, q: Query)
    requires NoAnswer(answers) && Fits(q, a)
    ensures AnswerAt(answers + [a], |answers|, q)
  {
  }

  /** The first message is a status reply, or the query itself with only status replies behind. */
  lemma QueryNext(qs: seq<Query>, i: nat, q: Query)
    requires QueryAt(qs, i, q)
    ensures if i == 0 then qs[0] == q && NoQuery(qs[1..]) else qs[0] == StatusReply && QueryAt(qs[1..], i - 1, q)
  {
    if i > 0 {
      PrefixFirst(qs, i);
      assert qs[1..][..i - 1] == qs[..i][1..];
    }
  }

  lemma ReaderStep(s: State, c: nat)
    requires Conversation(s, c) && Enabled(s, ReaderReceives)
    ensures Conversation(Apply(s, ReaderReceives), c)
  {
    var t := Apply(s, ReaderReceives);
    TokenKept(s, ReaderReceives);
    match s.clients[c]
    case Waiting(q) =>
      var place :| InFlight(s, q, place);
      if place.OnTheWay? {
        if place.i == 0 {
          assert InFlight(t, q, Pending);
        } else {
          assert s.toCoordinator[..place.i][0] == StatusRequest;
          assert t.toCoordinator[..place.i - 1] == s.toCoordinator[..place.i][1..];
          assert InFlight(t, q, OnTheWay(place.i - 1));
        }
      } else {
        assert InFlight(t, q, place);
      }
    case Got(_, _) => HoldersAtLeast(s.clients, c);
    case ReceivingOwner => HoldersAtLeast(s.clients, c);
    case Away =>
  }

  lemma ReportStep(s: State, c: nat)
    requires Conversation(s, c) && Enabled(s, ReaderReports)
    ensures Conversation(Apply(s, ReaderReports), c)
  {
    var t := Apply(s, ReaderReports);
    TokenKept(s, ReaderReports);
    match s.clients[c]
    case Waiting(q) =>
      var place :| InFlight(s, q, place);
      if place.AtPlanner? {
        assert t.toPlanner[..place.i] == s.toPlanner[..place.i];
      }
      assert InFlight(t, q, place);
    case Got(_, _) => HoldersAtLeast(s.clients, c);
    case ReceivingOwner => HoldersAtLeast(s.clients, c);
    case Away =>
  }

  lemma ConsoleStep(s: State, c: nat)
    requires Conversation(s, c) && Enabled(s, ConsoleAsksStatus)
    ensures Conversation(Apply(s, ConsoleAsksStatus), c)
  {
    var t := Apply(s, ConsoleAsksStatus);
    match s.clients[c]
    case Waiting(q) =>
      var place :| InFlight(s, q, place);
      if place.OnTheWay? {
        assert t.toCoordinator[..place.i] == s.toCoordinator[..place.i];
      }
      assert InFlight(t, q, place);
    case _ =>
  }

  lemma AskStep(s: State, c: nat, q: Query)
    requires Conversation(s, c) && Enabled(s, Ask(c, q))
    ensures Conversation(Apply(s, Ask(c, q)), c)
  {
    var t := Apply(s, Ask(c, q));
    TokenKept(s, Ask(c, q));
    QueryAppended(s.toPlanner, q);
    assert InFlight(t, q, AtPlanner(|s.toPlanner|));
  }

  lemma WakeStep(s: State, c: nat)
    requires Conversation(s, c) && Enabled(s, ClientWakes(c))
    ensures Conversation(Apply(s, ClientWakes(c)), c)
  {
    TokenKept(s, ClientWakes(c));
    var place :| InFlight(s, s.clients[c].q, place);
    assert place == Pending;
  }

  lemma GoOnStep(s: State, c: nat)
    requires Conversation(s, c) && Enabled(s, ClientGoesOn(c))
    ensures Conversation(Apply(s, ClientGoesOn(c)), c)
  {
    TokenKept(s, ClientGoesOn(c));
    QueryAppended(s.toPlanner, IsMine);
  }

  lemma ReceiveStep(s: State, c: nat)
    requires Conversation(s, c) && Enabled(s, ClientReceives(c))
    ensures Conversation(Apply(s, ClientReceives(c)), c)
  {
    TokenKept(s, ClientReceives(c));
    HoldersAtLeast(s.clients, c);
  }

  /** With one query in flight every step of every thread keeps the conversation: each client
      gets the answer to its own question, and no unexpected answer ends the process. */
  lemma ConversationKept(s: State, c: nat, m: Move)
    requires Conversation(s, c) && Enabled(s, m) && Solo(s, m)
    ensures Conversation(Apply(s, m), if m.Ask? then m.c else c)
  {
    match m
    case PlannerAnswers(yes) => PlannerStep(s, c, yes);
    case ReaderReceives => ReaderStep(s, c);
    case ReaderReports => ReportStep(s, c);
    case ConsoleAsksStatus => ConsoleStep(s, c);
    case ReaderEnters =>
      if s.clients[c].Waiting? {
        var place :| InFlight(s, s.clients[c].q, place);
        assert InFlight(Apply(s, m), s.clients[c].q, place);
      }
    case Ask(d, q) =>
      AnyoneNext(s, c, d);
      AskStep(s, d, q);
    case ClientWakes(d) => WakeStep(s, c);
    case ClientGoesOn(d) => GoOnStep(s, c);
    case ClientReceives(d) => ReceiveStep(s, c);
  }

  // ----- whole runs -----

  ghost predicate Feasible(s: State, run: seq<Move>)
    decreases |run|
  {
    run == [] || (Enabled(s, run[0]) && Solo(s, run[0]) && Feasible(Apply(s, run[0]), run[1..]))
  }

  ghost function AfterRun(s: State, run: seq<Move>): State
    requires Feasible(s, run)
    decreases |run|
  {
    if run == [] then s else AfterRun(Apply(s, run[0]), run[1..])
  }

  lemma {:induction false} RunKeeps(s: State, c: nat, run: seq<Move>)
    requires Conversation(s, c) && Feasible(s, run)
    ensures exists d: nat :: Conversation(AfterRun(s, run), d)
    decreases |run|
  {
    if run == [] {
      assert Conversation(AfterRun(s, run), c);
    } else {
      var t := Apply(s, run[0]);
      ConversationKept(s, c, run[0]);
      RunKeeps(t, if run[0].Ask? then run[0].c else c, run[1..]);
      var d: nat :| Conversation(AfterRun(t, run[1..]), d);
      assert AfterRun(s, run) == AfterRun(t, run[1..]);
    }
  }

  /** In every run with one query in flight at a time, every answer a client has got fits its
      question, and the process is never ended by an answer it did not expect. */
  lemma AnswersFit(s: State, run: seq<Move>, d: nat)
    requires Start(s) && Feasible(s, run) && d < |s.clients| && d < |AfterRun(s, run).clients|
    ensures !AfterRun(s, run).exited
    ensures var x := AfterRun(s, run).clients[d]; x.Got? ==> Fits(x.q, x.a)
  {
    ConversationStarts(s, d);
    RunKeeps(s, d, run);
  }

  // ----- the console in the middle of a conversation -----

  /** A status question of the console has not been dealt with yet. */
  ghost predicate Outstanding(s: State) {
    StatusRequest in s.toCoordinator || s.reader == Reporting || StatusReply in s.toPlanner
  }

  /** The planner keeps its mutex for a second query, with a status question outstanding: no
      step of any thread changes that. Its main loop waits for the mutex that it has itself. */
  lemma StuckForever(s: State, c: nat, m: Move)
    requires Conversation(s, c) && s.mutex == 0 && Outstanding(s) && Enabled(s, m) && Solo(s, m)
    ensures Apply(s, m).mutex == 0 && Outstanding(Apply(s, m)) && !m.Ask?
  {
    ConversationKept(s, c, m);
    PlannerWaits(s, c);
    match m
    case ReaderReceives =>
      assert s.toCoordinator == [s.toCoordinator[0]] + Apply(s, m).toCoordinator;
    case _ =>
  }

  /** The planner's main loop has nothing to do, or needs its mutex for what it has to do. */
  lemma PlannerWaits(s: State, c: nat)
    requires Conversation(s, c) && s.mutex == 0 && Outstanding(s)
    ensures s.toPlanner == [] || NeedsMutex(s.toPlanner[0])
  {
    PrefixFirst(s.toPlanner, |s.toPlanner| - 1);
    match s.clients[c]
    case Waiting(q) =>
      var place :| InFlight(s, q, place);
    case ReceivingOwner =>
      HoldersAtLeast(s.clients, c);
      assert StatusReply in s.toPlanner;
      LastIsOther(s.toPlanner);
    case _ =>
  }

  lemma PrefixFirst<T>(a: seq<T>, i: int)
    ensures 0 < i <= |a| ==> a[..i][0] == a[0] && a[0] in a
  {
  }

  /** A status reply in front of the second query keeps it from being the first message. */
  lemma LastIsOther(qs: seq<Query>)
    requires qs != [] && QueryAt(qs, |qs| - 1, IsMine) && StatusReply in qs
    ensures qs[0] == StatusReply
  {
    var i :| 0 <= i < |qs| && qs[i] == StatusReply;
    PrefixFirst(qs, |qs| - 1);
  }

  lemma {:induction false} NeverReleased(s: State, c: nat, run: seq<Move>)
    requires Conversation(s, c) && s.mutex == 0 && Outstanding(s) && Feasible(s, run)
    ensures AfterRun(s, run).mutex == 0
    decreases |run|
  {
    if run != [] {
      ConversationKept(s, c, run[0]);
      StuckForever(s, c, run[0]);
      NeverReleased(Apply(s, run[0]), c, run[1..]);
    }
  }

  /** The next step towards the second answer. */
  function NextMove(s: State, c: nat): Move
    requires c < |s.clients|
  {
    match s.clients[c]
    case ReceivingOwner => PlannerAnswers(true)
    case Got(_, _) => ClientGoesOn(c)
    case _ =>
      if s.pendingSem > 0 then ClientWakes(c)
      else if s.reader == Receiving then ReaderReceives
      else ReaderEnters
  }

  function StepsLeft(s: State, c: nat): nat
    requires c < |s.clients|
  {
    match NextMove(s, c)
    case PlannerAnswers(_) => 1
    case ClientGoesOn(_) => 2
    case ClientWakes(_) => 3
    case ReaderReceives => 4
    case _ => 5
  }

  lemma NextMoveGoesOn(s: State, c: nat)
    requires Conversation(s, c) && s.mutex == 0 && !Outstanding(s)
    ensures Enabled(s, NextMove(s, c)) && Solo(s, NextMove(s, c)) && !NextMove(s, c).Ask?
    ensures var t := Apply(s, NextMove(s, c));
            t.mutex == 1 || (t.mutex == 0 && !Outstanding(t) && c < |t.clients| && StepsLeft(t, c) < StepsLeft(s, c))
  {
    if s.clients[c].Waiting? {
      var place :| InFlight(s, s.clients[c].q, place);
      if place.OnTheWay? {
        FirstAnswer(s.toCoordinator, place.i);
        HoldersNone(s.clients);
      }
    } else if s.clients[c] == ReceivingOwner {
      FirstQuery(s.toPlanner);
    }
  }

  lemma FirstAnswer(answers: seq<Answer>, i: nat)
    requires i < |answers| && NoAnswer(answers[..i]) && StatusRequest !in answers
    ensures i == 0
  {
    PrefixFirst(answers, i);
  }

  lemma FirstQuery(qs: seq<Query>)
    requires qs != [] && NoQuery(qs[..|qs| - 1]) && StatusReply !in qs
    ensures |qs| == 1
  {
    PrefixFirst(qs, |qs| - 1);
  }

  ghost predicate CanRelease(s: State) {
    exists run :: Feasible(s, run) && AfterRun(s, run).mutex > 0
  }

  lemma {:induction false} Released(s: State, c: nat)
    requires Conversation(s, c) && s.mutex == 0 && !Outstanding(s)
    ensures CanRelease(s)
    decreases StepsLeft(s, c)
  {
    var m := NextMove(s, c);
    NextMoveGoesOn(s, c);
    ConversationKept(s, c, m);
    var t := Apply(s, m);
    if t.mutex == 1 {
      assert AfterRun(t, []).mutex == 1;
      Prepend(s, m, []);
    } else {
      Released(t, c);
      var run :| Feasible(t, run) && AfterRun(t, run).mutex > 0;
      Prepend(s, m, run);
    }
  }

  lemma Prepend(s: State, m: Move, run: seq<Move>)
    requires Enabled(s, m) && Solo(s, m) && Feasible(Apply(s, m), run)
    ensures Feasible(s, [m] + run) && AfterRun(s, [m] + run) == AfterRun(Apply(s, m), run)
  {
    assert ([m] + run)[1..] == run;
  }

  /** While the planner keeps its mutex and no status question is outstanding, none comes up,
      and whatever step is taken is a step towards the second answer. */
  lemma EveryMoveGoesOn(s: State, c: nat, m: Move)
    requires Conversation(s, c) && s.mutex == 0 && !Outstanding(s) && Enabled(s, m) && Solo(s, m)
    ensures !m.Ask?
    ensures var t := Apply(s, m);
            t.mutex == 1 || (t.mutex == 0 && !Outstanding(t) && c < |t.clients| && StepsLeft(t, c) < StepsLeft(s, c))
  {
    NextMoveGoesOn(s, c);
    if s.clients[c].Waiting? {
      var place :| InFlight(s, s.clients[c].q, place);
      if place.OnTheWay? {
        FirstAnswer(s.toCoordinator, place.i);
      }
    } else {
      HoldersAtLeast(s.clients, c);
    }
  }

  /** Whatever the schedule, the planner has its mutex back within five steps. */
  lemma {:induction false} ReleasedSoon(s: State, c: nat, run: seq<Move>)
    requires Conversation(s, c) && s.mutex == 0 && !Outstanding(s) && Feasible(s, run)
    requires |run| >= StepsLeft(s, c)
    ensures exists i: nat :: i <= StepsLeft(s, c) && Feasible(s, run[..i]) && AfterRun(s, run[..i]).mutex == 1
    decreases |run|
  {
    var m := run[0];
    var t := Apply(s, m);
    EveryMoveGoesOn(s, c, m);
    ConversationKept(s, c, m);
    if t.mutex == 1 {
      Prepend(s, m, []);
      assert run[..1] == [m] + [] && AfterRun(t, []) == t;
    } else {
      ReleasedSoon(t, c, run[1..]);
      var i: nat :| i <= StepsLeft(t, c) && Feasible(t, run[1..][..i]) && AfterRun(t, run[1..][..i]).mutex == 1;
      Prepend(s, m, run[1..][..i]);
      assert run[..i + 1] == [m] + run[1..][..i];
    }
  }

  /** After a "blocked", the planner gets its mutex back exactly when no status question of its
      console was outstanding. */
  lemma ReleasedIff(s: State, c: nat)
    requires Conversation(s, c) && s.mutex == 0
    ensures CanRelease(s) <==> !Outstanding(s)
  {
    if Outstanding(s) {
      forall run | Feasible(s, run)
        ensures AfterRun(s, run).mutex == 0
      {
        NeverReleased(s, c, run);
      }
    } else {
      Released(s, c);
    }
  }

  /** The run that gets stuck: the console asks for a status, and while the Coordinador works
      on it an ESI asks for a key that turns out to be locked. */
  lemma StatusGetsStuck(s: State)
    requires Start(s) && |s.clients| > 0
    ensures exists run :: Feasible(s, run) && !CanRelease(AfterRun(s, run))
  {
    var s1 := Apply(s, ConsoleAsksStatus);
    var s2 := Apply(s1, Ask(0, IsBlocked));
    var s3 := Apply(s2, PlannerAnswers(true));
    ConversationStarts(s, 0);
    ConversationKept(s, 0, ConsoleAsksStatus);
    ConversationKept(s1, 0, Ask(0, IsBlocked));
    ConversationKept(s2, 0, PlannerAnswers(true));
    assert s3.toCoordinator[0] == StatusRequest;
    ReleasedIff(s3, 0);
    Prepend(s2, PlannerAnswers(true), []);
    Prepend(s1, Ask(0, IsBlocked), [PlannerAnswers(true)]);
    Prepend(s, ConsoleAsksStatus, [Ask(0, IsBlocked)] + [PlannerAnswers(true)]);
    assert AfterRun(s3, []) == s3;
  }

  // ----- more than one query in flight -----

  ghost predicate Chain(s: State, moves: seq<Move>)
    decreases |moves|
  {
    moves == [] || (Enabled(s, moves[0]) && Chain(Apply(s, moves[0]), moves[1..]))
  }

  ghost function After(s: State, moves: seq<Move>): State
    requires Chain(s, moves)
    decreases |moves|
  {
    if moves == [] then s else After(Apply(s, moves[0]), moves[1..])
  }

  lemma ChainMore(s: State, m: Move, moves: seq<Move>)
    requires Enabled(s, m) && Chain(Apply(s, m), moves)
    ensures Chain(s, [m] + moves) && After(s, [m] + moves) == After(Apply(s, m), moves)
  {
    assert ([m] + moves)[1..] == moves;
  }

  ghost predicate CanCross(s: State) {
    exists moves :: Chain(s, moves) && Crossed(After(s, moves))
  }

  ghost predicate Crossed(s: State) {
    exists c :: 0 <= c < |s.clients| && s.clients[c].Got? && !Fits(s.clients[c].q, s.clients[c].a)
  }

  lemma CrossBefore(s: State, m: Move)
    requires Enabled(s, m) && CanCross(Apply(s, m))
    ensures CanCross(s)
  {
    var moves :| Chain(Apply(s, m), moves) && Crossed(After(Apply(s, m), moves));
    ChainMore(s, m, moves);
  }

  /** With two queries in flight the answers can cross: whoever wakes first takes the answer. */
  lemma AnswersCanCross(s: State)
    requires Start(s) && |s.clients| > 1
    ensures CanCross(s)
  {
    var s1 := Apply(s, Ask(0, Block));
    var s2 := Apply(s1, Ask(1, Unlock));
    var s3 := Apply(s2, PlannerAnswers(true));
    var s4 := Apply(s3, ReaderEnters);
    var s5 := Apply(s4, ReaderReceives);
    var s6 := Apply(s5, ClientWakes(1));
    assert s6.clients[1] == Got(Unlock, BlockedOk);
    assert Chain(s6, []) && Crossed(After(s6, []));
    CrossBefore(s5, ClientWakes(1));
    CrossBefore(s4, ReaderReceives);
    CrossBefore(s3, ReaderEnters);
    CrossBefore(s2, PlannerAnswers(true));
    CrossBefore(s1, Ask(1, Unlock));
    CrossBefore(s, Ask(0, Block));
  }

  /** One client alone never has two queries in flight: all it can do is a run of the kind above. */
  lemma {:induction false} ChainIsFeasible(s: State, moves: seq<Move>)
    requires |s.clients| <= 1 && Chain(s, moves)
    ensures Feasible(s, moves) && AfterRun(s, moves) == After(s, moves)
    ensures |After(s, moves).clients| == |s.clients|
    decreases |moves|
  {
    if moves != [] {
      assert Solo(s, moves[0]);
      ChainIsFeasible(Apply(s, moves[0]), moves[1..]);
    }
  }

  /** From the start, some client can get the answer to the question of another exactly when
      there is another. */
  lemma CrossIff(s: State)
    requires Start(s)
    ensures CanCross(s) <==> |s.clients| > 1
  {
    if |s.clients| > 1 {
      AnswersCanCross(s);
    } else {
      forall moves | Chain(s, moves)
        ensures !Crossed(After(s, moves))
      {
        ChainIsFeasible(s, moves);
        if |s.clients| == 1 {
          AnswersFit(s, moves, 0);
        }
      }
    }
  }
}
