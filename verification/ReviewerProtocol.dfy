/** The reviewer-task protocol as a step system. Workers that created a HITL item and checkers that
    expired a task owe an assignment; what they owe is a duty, and every statement of every duty
    interleaves freely with everything else. A duty may also vanish at any point: a crash. */
module ReviewerProtocol {
  import opened Records
  import opened ReviewerTables

  /** Who owes the assignment: a worker after creating a HITL item, or a checker after expiring a task. */
  datatype Origin = ByWorker(hitl: Id) | ByChecker(task: Id)

  /** How far AssignForHitl has come: `todo` holds the task types still to be served. */
  datatype Stage =
    | Loading
    | Called(reason: Reason)
    | Assigning(todo: seq<TaskType>, rewards: map<TaskType, int>)
    | Chosen(todo: seq<TaskType>, rewards: map<TaskType, int>, reviewer: Id)

  datatype Duty = Duty(hitl: Id, stage: Stage)

  datatype State = State(db: Tables, duties: map<Origin, Duty>)

  datatype Event =
    | CreateReviewer(kind: ReviewerType)
    | ChangeReviewer(reviewer: Id, kind: ReviewerType, active: bool)
    | ChangeReward(task: TaskType, amount: int)
    | CreateHitl(item: Id, reason: Reason)
    | Load(origin: Origin)
    | ReadRewards(origin: Origin, readable: bool)
    | Choose(origin: Origin, reviewer: Id)
    | SkipType(origin: Origin)
    | Insert(origin: Origin, expiresAt: int)
    | Abandon(origin: Origin)
    | ExpireOverdue
    | Accept(id: Id)
    | Complete(id: Id)
    | Resolve(id: Id)
    | DeleteInvoiceItems(items: set<Id>)
    | Wait

  function Drop(duties: map<Origin, Duty>, o: Origin): map<Origin, Duty> {
    duties - {o}
  }

  /** Goes on to the next task type, or ends the duty. */
  function Advance(duties: map<Origin, Duty>, o: Origin, h: Id, todo: seq<TaskType>, rewards: map<TaskType, int>)
    : map<Origin, Duty>
  {
    if |todo| <= 1 then Drop(duties, o) else duties[o := Duty(h, Assigning(todo[1..], rewards))]
  }

  function DoLoad(s: State, o: Origin): State {
    if o !in s.duties || !s.duties[o].stage.Loading? then s else
    var h := s.duties[o].hitl;
    if h in s.db.hitls && s.db.hitls[h].status == Pending
    then s.(duties := s.duties[o := Duty(h, Called(s.db.hitls[h].reason))])
    else s.(duties := Drop(s.duties, o))
  }

  function DoReadRewards(s: State, o: Origin, readable: bool): State {
    if o !in s.duties || !s.duties[o].stage.Called? then s else
    var d := s.duties[o];
    s.(duties := s.duties[o := Duty(d.hitl, Assigning(TaskTypesFor(d.stage.reason), if readable then s.db.rewards else map[]))])
  }

  ghost function DoChoose(s: State, o: Origin, r: Id): State {
    if o !in s.duties || !s.duties[o].stage.Assigning? || s.duties[o].stage.todo == [] then s else
    var d := s.duties[o];
    if IsNextReviewer(s.db, ReviewerTypeFor(d.stage.todo[0]), r)
    then s.(duties := s.duties[o := Duty(d.hitl, Chosen(d.stage.todo, d.stage.rewards, r))])
    else s
  }

  /** No active reviewer, or a failed query or insert: on to the next task type. */
  function DoSkip(s: State, o: Origin): State {
    if o !in s.duties || (!s.duties[o].stage.Assigning? && !s.duties[o].stage.Chosen?) then s else
    var d := s.duties[o];
    s.(duties := Advance(s.duties, o, d.hitl, d.stage.todo, d.stage.rewards))
  }

  function DoInsert(s: State, o: Origin, expiresAt: int): State {
    if o !in s.duties || !s.duties[o].stage.Chosen? || s.duties[o].stage.todo == [] then s else
    var d := s.duties[o];
    var kind := d.stage.todo[0];
    State(InsertTask(s.db, d.hitl, d.stage.reviewer, kind, RewardOf(d.stage.rewards, kind), expiresAt),
          Advance(s.duties, o, d.hitl, d.stage.todo, d.stage.rewards))
  }

  function DoCreateHitl(s: State, item: Id, reason: Reason): State {
    State(InsertHitl(s.db, item, reason),
          s.duties[ByWorker(s.db.nextId) := Duty(s.db.nextId, Called(reason))])
  }

  function DutiesOfExpiry(db: Tables): map<Origin, Duty> {
    map o | o in (set t | t in OverdueTasks(db) :: ByChecker(t)) :: Duty(db.tasks[o.task].hitl, Loading)
  }

  function DoExpire(s: State): State {
    State(ExpireOldTasks(s.db), s.duties + DutiesOfExpiry(s.db))
  }

  /** One event, at a time later than all before it. An event that is not enabled does nothing. */
  ghost function Apply(s0: State, e: Event): State {
    var s := s0.(db := Tick(s0.db));
    match e
    case CreateReviewer(kind) => s.(db := InsertReviewer(s.db, kind))
    case ChangeReviewer(r, kind, active) => s.(db := UpdateReviewer(s.db, r, kind, active))
    case ChangeReward(kind, amount) => s.(db := SetReward(s.db, kind, amount))
    case CreateHitl(item, reason) => DoCreateHitl(s, item, reason)
    case Load(o) => DoLoad(s, o)
    case ReadRewards(o, readable) => DoReadRewards(s, o, readable)
    case Choose(o, r) => DoChoose(s, o, r)
    case SkipType(o) => DoSkip(s, o)
    case Insert(o, expiresAt) => DoInsert(s, o, expiresAt)
    case Abandon(o) => s.(duties := Drop(s.duties, o))
    case ExpireOverdue => DoExpire(s)
    case Accept(t) => s.(db := AcceptTask(s.db, t))
    case Complete(t) => s.(db := CompleteTask(s.db, t))
    case Resolve(h) => s.(db := ResolveHitl(s.db, h))
    case DeleteInvoiceItems(items) => s.(db := DeleteItems(s.db, items))
    case Wait => s
  }

  ghost function Run(s: State, events: seq<Event>): State
    decreases |events|
  {
    if events == [] then s else Run(Apply(s, events[0]), events[1..])
  }

  lemma {:induction false} RunAppend(s: State, xs: seq<Event>, ys: seq<Event>)
    ensures Run(s, xs + ys) == Run(Run(s, xs), ys)
    decreases |xs|
  {
    if xs == [] {
      assert xs + ys == ys;
    } else {
      assert (xs + ys)[1..] == xs[1..] + ys;
      RunAppend(Apply(s, xs[0]), xs[1..], ys);
    }
  }

  lemma RunOneMore(s: State, xs: seq<Event>, e: Event)
    ensures Run(s, xs + [e]) == Apply(Run(s, xs), e)
  {
    RunAppend(s, xs, [e]);
    assert [e][1..] == [];
  }

  lemma RunTwo(s: State, d: Event, e: Event)
    ensures Run(s, [d, e]) == Apply(Apply(s, d), e)
  {
    RunOneMore(s, [d], e);
    RunOneMore(s, [], d);
    assert [] + [d] == [d] && [d] + [e] == [d, e];
  }

  const INITIAL := State(EMPTY, map[])

  /** If this event creates the item, it is a queue worker that does, with one of its two reasons. */
  ghost predicate WorkerCreates(s: State, e: Event, item: Id) {
    e.CreateHitl? && s.db.nextId == item ==> exists matched :: e.reason == WorkerReason(matched)
  }

  /** The item, if the run creates it, comes from a queue worker. Other items may have any reason. */
  ghost predicate FromWorker(s: State, events: seq<Event>, item: Id)
    decreases |events|
  {
    events == [] || (WorkerCreates(s, events[0], item) && FromWorker(Apply(s, events[0]), events[1..], item))
  }

  // ---------- The invariant ----------

  datatype Holder = HeldByTask(task: Id) | HeldByDuty(origin: Origin)

  /** What keeps a HITL item occupied: a task that is not expired, or a duty to assign one. */
  ghost predicate Holds(s: State, x: Holder, h: Id) {
    match x
    case HeldByTask(t) => t in s.db.tasks && s.db.tasks[t].hitl == h && s.db.tasks[t].status != Expired
    case HeldByDuty(o) => o in s.duties && s.duties[o].hitl == h
  }

  ghost predicate RowsKnown(db: Tables) {
    && (forall h | h in db.hitls :: h < db.nextId)
    && (forall r | r in db.reviewers :: r < db.nextId)
    && (forall t | t in db.tasks :: t < db.nextId && db.tasks[t].hitl in db.hitls && db.tasks[t].reviewer in db.reviewers)
  }

  ghost predicate StageOk(g: Stage) {
    match g
    case Loading => true
    case Called(reason) => reason != OtherReason
    case Assigning(todo, _) => |todo| == 1
    case Chosen(todo, _, _) => |todo| == 1
  }

  ghost predicate DutyOk(db: Tables, o: Origin, d: Duty) {
    && d.hitl < db.nextId
    && match o
       case ByWorker(h) => h < db.nextId
       case ByChecker(t) => t < db.nextId && (t in db.tasks ==> db.tasks[t].status == Expired)
  }

  ghost predicate DutiesOk(s: State) {
    forall o | o in s.duties :: DutyOk(s.db, o, s.duties[o])
  }

  /** A payment stays true of its task for as long as the task exists, and the task outlives its item. */
  ghost predicate PaymentOk(db: Tables, p: Payment) {
    && p.task < db.nextId && p.hitl < db.nextId && p.reviewer in db.reviewers
    && (p.hitl in db.hitls ==> p.task in db.tasks)
    && (p.task in db.tasks ==> PaidFor(db.tasks[p.task], p))
  }

  predicate PaidFor(t: Task, p: Payment) {
    t.status == Completed && t.hitl == p.hitl && t.reviewer == p.reviewer && t.reward == p.amount
  }

  ghost predicate LedgerOk(db: Tables) {
    && (forall i | 0 <= i < |db.ledger| :: PaymentOk(db, db.ledger[i]))
    && (forall i, j | 0 <= i < j < |db.ledger| :: db.ledger[i].task != db.ledger[j].task)
    && (forall t | t in db.tasks && db.tasks[t].status == Completed :: exists i :: 0 <= i < |db.ledger| && db.ledger[i].task == t)
  }

  function EarnedIn(ledger: seq<Payment>, r: Id): int {
    if ledger == [] then 0
    else EarnedIn(ledger[..|ledger| - 1], r) + if ledger[|ledger| - 1].reviewer == r then ledger[|ledger| - 1].amount else 0
  }

  ghost predicate EarningsOk(db: Tables) {
    forall r | r in db.reviewers ::
      db.reviewers[r].earned == EarnedIn(db.ledger, r) && db.reviewers[r].pendingPayout == EarnedIn(db.ledger, r)
  }

  /** What holds whatever reasons the items have. */
  ghost predicate Base(s: State) {
    RowsKnown(s.db) && DutiesOk(s) && LedgerOk(s.db) && EarningsOk(s.db)
  }

  /** What holds of an item that a worker created: one holder, one task type to serve, one payment. */
  ghost predicate ItemOk(s: State, item: Id) {
    && (item in s.db.hitls ==> s.db.hitls[item].reason != OtherReason)
    && (forall o | o in s.duties && s.duties[o].hitl == item :: StageOk(s.duties[o].stage))
    && (forall x, y | Holds(s, x, item) && Holds(s, y, item) :: x == y)
    && (forall i, j | 0 <= i < j < |s.db.ledger| :: s.db.ledger[i].hitl != item || s.db.ledger[j].hitl != item)
  }

  ghost predicate Inv(s: State, item: Id) {
    Base(s) && ItemOk(s, item)
  }
}
