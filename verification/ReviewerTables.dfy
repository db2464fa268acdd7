/** The tables behind the reviewer tasks, and the SQL statements that read and change them. A table is a
    map from row id to row, money is in satang, and `clock` is what NOW() returns. */
module ReviewerTables {

  import opened Records

  datatype TaskType = TextVerification | ClassificationVerification
  datatype ReviewerType = TextVerifier | ClassificationVerifier
  datatype TaskStatus = Sent | Accepted | Completed | Expired

  datatype Task = Task(hitl: Id, reviewer: Id, kind: TaskType, status: TaskStatus, reward: int, sentAt: nat, expiresAt: int)
  datatype Reviewer = Reviewer(kind: ReviewerType, active: bool, earned: int, pendingPayout: int)

  /** One completion, remembered for good. No table holds this: task rows can be deleted. */
  datatype Payment = Payment(task: Id, hitl: Id, reviewer: Id, amount: int)

  datatype Tables = Tables(hitls: map<Id, Hitl>, tasks: map<Id, Task>, reviewers: map<Id, Reviewer>,
                           rewards: map<TaskType, int>, clock: nat, nextId: Id, ledger: seq<Payment>)

  /** The rewards the migrations seed, in satang. */
  const SEEDED: map<TaskType, int> := map[TextVerification := 500, ClassificationVerification := 300]

  const EMPTY := Tables(map[], map[], map[], SEEDED, 0, 0, [])

  function ReviewerTypeFor(kind: TaskType): ReviewerType {
    match kind
    case TextVerification => TextVerifier
    case ClassificationVerification => ClassificationVerifier
  }

  function TaskTypesFor(reason: Reason): seq<TaskType> {
    match reason
    case OcrMismatch => [TextVerification]
    case ClassificationNeeded => [ClassificationVerification]
    case OtherReason => [TextVerification, ClassificationVerification]
  }

  // ---------- Statements ----------

  function Tick(db: Tables): Tables {
    db.(clock := db.clock + 1)
  }

  function InsertHitl(db: Tables, item: Id, reason: Reason): Tables {
    db.(hitls := db.hitls[db.nextId := Hitl(item, reason, Pending)], nextId := db.nextId + 1)
  }

  function ResolveHitl(db: Tables, h: Id): Tables {
    if h in db.hitls then db.(hitls := db.hitls[h := db.hitls[h].(status := Resolved)]) else db
  }

  function InsertReviewer(db: Tables, kind: ReviewerType): Tables {
    db.(reviewers := db.reviewers[db.nextId := Reviewer(kind, true, 0, 0)], nextId := db.nextId + 1)
  }

  function UpdateReviewer(db: Tables, r: Id, kind: ReviewerType, active: bool): Tables {
    if r in db.reviewers
    then db.(reviewers := db.reviewers[r := db.reviewers[r].(kind := kind, active := active)])
    else db
  }

  function SetReward(db: Tables, kind: TaskType, amount: int): Tables {
    if amount > 0 then db.(rewards := db.rewards[kind := amount]) else db
  }

  function RewardOf(rewards: map<TaskType, int>, kind: TaskType): int {
    if kind in rewards then rewards[kind] else 0
  }

  /** Both foreign keys have to hold, or the insert fails and changes nothing. */
  function InsertTask(db: Tables, h: Id, r: Id, kind: TaskType, reward: int, expiresAt: int): Tables {
    if h in db.hitls && r in db.reviewers
    then db.(tasks := db.tasks[db.nextId := Task(h, r, kind, Sent, reward, db.clock, expiresAt)], nextId := db.nextId + 1)
    else db
  }

  predicate Overdue(t: Task, now: nat) {
    t.status == Sent && t.expiresAt < now
  }

  function OverdueTasks(db: Tables): set<Id> {
    set t | t in db.tasks && Overdue(db.tasks[t], db.clock)
  }

  function ExpireOldTasks(db: Tables): Tables {
    db.(tasks := map t | t in db.tasks ::
      if Overdue(db.tasks[t], db.clock) then db.tasks[t].(status := Expired) else db.tasks[t])
  }

  function AcceptTask(db: Tables, t: Id): Tables {
    if t in db.tasks && db.tasks[t].status == Sent
    then db.(tasks := db.tasks[t := db.tasks[t].(status := Accepted)])
    else db
  }

  function Credit(r: Reviewer, amount: int): Reviewer {
    r.(earned := r.earned + amount, pendingPayout := r.pendingPayout + amount)
  }

  predicate Completable(db: Tables, t: Id) {
    t in db.tasks && (db.tasks[t].status == Sent || db.tasks[t].status == Accepted)
  }

  /** One transaction: the task is closed and its reviewer credited. */
  function CompleteTask(db: Tables, t: Id): Tables {
    if !Completable(db, t) then db else
    var task := db.tasks[t];
    db.(tasks := db.tasks[t := task.(status := Completed)],
        reviewers := if task.reviewer in db.reviewers
                     then db.reviewers[task.reviewer := Credit(db.reviewers[task.reviewer], task.reward)]
                     else db.reviewers,
        ledger := db.ledger + [Payment(t, task.hitl, task.reviewer, task.reward)])
  }

  /** Deleting invoice items takes their HITL rows along, and those take their tasks along. */
  function DeleteItems(db: Tables, items: set<Id>): Tables {
    db.(hitls := map h | h in db.hitls && db.hitls[h].item !in items :: db.hitls[h],
        tasks := map t | t in db.tasks && (db.tasks[t].hitl in db.hitls ==> db.hitls[db.tasks[t].hitl].item !in items) :: db.tasks[t])
  }

  // ---------- Round robin ----------

  ghost function MaxOf(s: set<nat>): (m: nat)
    ensures forall x | x in s :: x <= m
    ensures s == {} ==> m == 0
    ensures s != {} ==> m in s
  {
    if s == {} then 0 else
    var x :| x in s;
    var rest := MaxOf(s - {x});
    assert forall y | y in s :: y == x || y in s - {x};
    if x < rest then rest else x
  }

  ghost function SentTimes(db: Tables, r: Id): set<nat> {
    set t | t in db.tasks && db.tasks[t].reviewer == r :: db.tasks[t].sentAt
  }

  /** When the reviewer last got a task, with 0 for never. */
  ghost function LastSent(db: Tables, r: Id): nat {
    MaxOf(SentTimes(db, r))
  }

  function Pool(db: Tables, kind: ReviewerType): set<Id> {
    set r | r in db.reviewers && db.reviewers[r].kind == kind && db.reviewers[r].active
  }

  /** Whether the round-robin query may return r: ties are broken any way the database likes. */
  ghost predicate IsNextReviewer(db: Tables, kind: ReviewerType, r: Id) {
    && r in Pool(db, kind)
    && forall q | q in Pool(db, kind) :: LastSent(db, r) <= LastSent(db, q)
  }

  // ---------- What this comes to ----------

  /** No task of the reviewer was sent later, and one was sent then unless it is 0. */
  lemma LastSentIs(db: Tables, r: Id)
    ensures forall t | t in db.tasks && db.tasks[t].reviewer == r :: db.tasks[t].sentAt <= LastSent(db, r)
    ensures LastSent(db, r) == 0 || exists t :: t in db.tasks && db.tasks[t].reviewer == r && db.tasks[t].sentAt == LastSent(db, r)
  {
    forall t | t in db.tasks && db.tasks[t].reviewer == r ensures db.tasks[t].sentAt <= LastSent(db, r) {
      assert db.tasks[t].sentAt in SentTimes(db, r);
    }
  }

  /** The next reviewer is an active one of the type, to whom no task was sent later than to any other active
      one of the type. */
  lemma NextReviewerIff(db: Tables, kind: ReviewerType, r: Id)
    ensures IsNextReviewer(db, kind, r) <==>
            && r in db.reviewers && db.reviewers[r].active && db.reviewers[r].kind == kind
            && forall q | q in db.reviewers && db.reviewers[q].active && db.reviewers[q].kind == kind :: LastSent(db, r) <= LastSent(db, q)
  {
  }

  /** Text tasks go to text verifiers, classification tasks to classification verifiers; an OCR mismatch asks
      for the first, a needed classification for the second, and any other reason for both. */
  lemma WhoDoesWhat(reason: Reason, kind: TaskType)
    ensures ReviewerTypeFor(TextVerification) == TextVerifier && ReviewerTypeFor(ClassificationVerification) == ClassificationVerifier
    ensures kind in TaskTypesFor(reason) <==>
            reason == OtherReason || (reason == OcrMismatch && kind == TextVerification)
            || (reason == ClassificationNeeded && kind == ClassificationVerification)
    ensures multiset(TaskTypesFor(reason))[kind] <= 1
  {
  }

  /** A reward can only be set to a positive amount; the others stay. */
  lemma SetRewardIs(db: Tables, kind: TaskType, amount: int, other: TaskType)
    ensures RewardOf(SetReward(db, kind, amount).rewards, other) ==
            if other == kind && amount > 0 then amount else RewardOf(db.rewards, other)
    ensures RewardOf(SEEDED, TextVerification) == 500 && RewardOf(SEEDED, ClassificationVerification) == 300
    ensures RewardOf(map[], kind) == 0
  {
  }

  /** Deleting the items of some lines takes exactly their HITL rows and the tasks on these. */
  lemma DeleteItemsTakes(db: Tables, lines: set<Id>, h: Id, t: Id)
    requires t in db.tasks ==> db.tasks[t].hitl in db.hitls
    ensures var after := DeleteItems(db, lines);
      && (h in after.hitls <==> h in db.hitls && db.hitls[h].item !in lines)
      && (h in after.hitls ==> after.hitls[h] == db.hitls[h])
      && (t in after.tasks <==> t in db.tasks && db.hitls[db.tasks[t].hitl].item !in lines)
      && (t in after.tasks ==> after.tasks[t] == db.tasks[t])
      && after.reviewers == db.reviewers && after.ledger == db.ledger
  {
  }

  /** A new reviewer is active and has earned nothing. */
  lemma InsertReviewerIs(db: Tables, kind: ReviewerType)
    ensures InsertReviewer(db, kind) == db.(reviewers := db.reviewers[db.nextId := Reviewer(kind, true, 0, 0)], nextId := db.nextId + 1)
  {
  }
}
