/** What every interleaving of the reviewer-task protocol keeps: one live task or duty per HITL item that a
    worker created, one payment per such item, and earnings that add up to the completions. */
module ReviewerSafety {
  import opened Records
  import opened ReviewerTables
  import opened ReviewerProtocol

  // ---------- Each statement keeps the invariant ----------

  lemma TickKeepsInv(s: State, item: Id)
    requires Inv(s, item)
    ensures Inv(s.(db := Tick(s.db)), item)
  {
    var s' := s.(db := Tick(s.db));
    assert forall x :: Holds(s', x, item) == Holds(s, x, item);
    assert forall p :: PaymentOk(s.db, p) ==> PaymentOk(s'.db, p);
    assert forall o, d :: DutyOk(s.db, o, d) ==> DutyOk(s'.db, o, d);
  }

  /** Statements that touch neither tasks, nor payments, nor what a reviewer has earned. */
  lemma QuietStepKeepsInv(s: State, db: Tables, item: Id)
    requires Inv(s, item)
    requires db.tasks == s.db.tasks && db.ledger == s.db.ledger && db.nextId >= s.db.nextId && RowsKnown(db)
    requires db.hitls.Keys == s.db.hitls.Keys && forall h | h in db.hitls :: db.hitls[h].reason == s.db.hitls[h].reason
    requires forall r | r in s.db.reviewers :: r in db.reviewers && db.reviewers[r].earned == s.db.reviewers[r].earned
                                               && db.reviewers[r].pendingPayout == s.db.reviewers[r].pendingPayout
    requires forall r | r in db.reviewers && r !in s.db.reviewers ::
               db.reviewers[r].earned == 0 && db.reviewers[r].pendingPayout == 0
    ensures Inv(s.(db := db), item)
  {
    var s' := s.(db := db);
    assert forall x :: Holds(s', x, item) == Holds(s, x, item);
    assert forall p :: PaymentOk(s.db, p) ==> PaymentOk(db, p);
    assert forall o, d :: DutyOk(s.db, o, d) ==> DutyOk(db, o, d);
    forall r | r in db.reviewers && r !in s.db.reviewers ensures EarnedIn(db.ledger, r) == 0 {
      assert forall i | 0 <= i < |s.db.ledger| :: PaymentOk(s.db, s.db.ledger[i]);
      NothingEarned(db.ledger, r);
    }
  }

  lemma {:induction false} NothingEarned(ledger: seq<Payment>, r: Id)
    requires forall i | 0 <= i < |ledger| :: ledger[i].reviewer != r
    ensures EarnedIn(ledger, r) == 0
    decreases |ledger|
  {
    if ledger != [] {
      NothingEarned(ledger[..|ledger| - 1], r);
    }
  }

  /** Steps of a duty that leave the tables alone: it moves on under the same origin, or ends. */
  lemma DutyStepKeepsInv(s: State, o: Origin, duties: map<Origin, Duty>, item: Id)
    requires Inv(s, item) && o in s.duties
    requires duties == Drop(s.duties, o)
             || (o in duties && duties == s.duties[o := duties[o]] && duties[o].hitl == s.duties[o].hitl
                 && (duties[o].hitl == item ==> StageOk(duties[o].stage)))
    ensures Inv(s.(duties := duties), item)
  {
    var s' := s.(duties := duties);
    assert DutyOk(s.db, o, s.duties[o]);
    assert forall x :: Holds(s', x, item) ==> Holds(s, x, item);
  }

  lemma DropKeepsInv(s: State, o: Origin, item: Id)
    requires Inv(s, item)
    ensures Inv(s.(duties := Drop(s.duties, o)), item)
  {
    if o in s.duties {
      DutyStepKeepsInv(s, o, Drop(s.duties, o), item);
    } else {
      assert Drop(s.duties, o) == s.duties;
    }
  }

  lemma LoadKeepsInv(s: State, o: Origin, item: Id)
    requires Inv(s, item)
    ensures Inv(DoLoad(s, o), item)
  {
    if DoLoad(s, o) != s {
      DutyStepKeepsInv(s, o, DoLoad(s, o).duties, item);
    }
  }

  lemma ReadRewardsKeepsInv(s: State, o: Origin, readable: bool, item: Id)
    requires Inv(s, item)
    ensures Inv(DoReadRewards(s, o, readable), item)
  {
    if DoReadRewards(s, o, readable) != s {
      DutyStepKeepsInv(s, o, DoReadRewards(s, o, readable).duties, item);
    }
  }

  lemma ChooseKeepsInv(s: State, o: Origin, r: Id, item: Id)
    requires Inv(s, item)
    ensures Inv(DoChoose(s, o, r), item)
  {
    if DoChoose(s, o, r) != s {
      DutyStepKeepsInv(s, o, DoChoose(s, o, r).duties, item);
    }
  }

  lemma SkipKeepsInv(s: State, o: Origin, item: Id)
    requires Inv(s, item)
    ensures Inv(DoSkip(s, o), item)
  {
    if DoSkip(s, o) != s {
      DutyStepKeepsInv(s, o, DoSkip(s, o).duties, item);
    }
  }

  /** The insert hands the item over from the duty to the new task. */
  lemma InsertKeepsHolder(s: State, o: Origin, expiresAt: int, item: Id)
    requires Inv(s, item) && DoInsert(s, o, expiresAt) != s && DoInsert(s, o, expiresAt).db != s.db
    ensures ItemOk(DoInsert(s, o, expiresAt), item)
  {
    var s', d, t := DoInsert(s, o, expiresAt), s.duties[o], s.db.nextId;
    assert s'.db.tasks == s.db.tasks[t := s'.db.tasks[t]];
    if d.hitl == item {
      assert s'.duties == Drop(s.duties, o) && Holds(s, HeldByDuty(o), item);
    }
    forall x, y | Holds(s', x, item) && Holds(s', y, item) ensures x == y {
      assert x != HeldByTask(t) ==> Holds(s, x, item);
      assert y != HeldByTask(t) ==> Holds(s, y, item);
    }
  }

  lemma InsertKeepsInv(s: State, o: Origin, expiresAt: int, item: Id)
    requires Inv(s, item)
    ensures Inv(DoInsert(s, o, expiresAt), item)
  {
    var s' := DoInsert(s, o, expiresAt);
    if s' != s {
      assert DutyOk(s.db, o, s.duties[o]);
      if s'.db == s.db {
        DutyStepKeepsInv(s, o, s'.duties, item);
      } else {
        InsertKeepsHolder(s, o, expiresAt, item);
        assert forall p :: PaymentOk(s.db, p) ==> PaymentOk(s'.db, p);
        assert forall q, e :: DutyOk(s.db, q, e) ==> DutyOk(s'.db, q, e);
      }
    }
  }

  lemma CreateHitlKeepsInv(s: State, line: Id, reason: Reason, item: Id)
    requires Inv(s, item) && (s.db.nextId == item ==> reason != OtherReason)
    ensures Inv(DoCreateHitl(s, line, reason), item)
  {
    var s', n := DoCreateHitl(s, line, reason), s.db.nextId;
    forall z | Holds(s', z, item) && z != HeldByDuty(ByWorker(n)) ensures Holds(s, z, item) && item < n {
      assert z.HeldByDuty? ==> DutyOk(s.db, z.origin, s.duties[z.origin]);
    }
    assert forall p :: PaymentOk(s.db, p) ==> PaymentOk(s'.db, p);
    forall o | o in s'.duties ensures DutyOk(s'.db, o, s'.duties[o]) {
      assert o in s.duties ==> DutyOk(s.db, o, s.duties[o]);
    }
  }

  /** The holder a holder came from when the overdue tasks were expired. */
  ghost function Before(s: State, x: Holder): Holder {
    if x.HeldByDuty? && x.origin in DutiesOfExpiry(s.db) then HeldByTask(x.origin.task) else x
  }

  lemma ExpiredHolder(s: State, x: Holder, h: Id)
    requires Base(s) && Holds(DoExpire(s), x, h)
    ensures Holds(s, Before(s, x), h)
    ensures x.HeldByTask? ==> x.task !in OverdueTasks(s.db)
  {
  }

  lemma ExpireKeepsDuties(s: State)
    requires Base(s)
    ensures DutiesOk(DoExpire(s))
  {
    var s' := DoExpire(s);
    forall o | o in s'.duties ensures DutyOk(s'.db, o, s'.duties[o]) {
      if o !in DutiesOfExpiry(s.db) {
        assert DutyOk(s.db, o, s.duties[o]);
      }
    }
  }

  /** Expiry hands every overdue item over from its task to a fresh duty. */
  lemma ExpireKeepsInv(s: State, item: Id)
    requires Inv(s, item)
    ensures Inv(DoExpire(s), item)
  {
    var s' := DoExpire(s);
    ExpireKeepsDuties(s);
    forall x, y | Holds(s', x, item) && Holds(s', y, item) ensures x == y {
      ExpiredHolder(s, x, item);
      ExpiredHolder(s, y, item);
    }
    ExpireKeepsLedger(s.db);
  }

  /** A completed task is not overdue, so the payments stay true. */
  lemma ExpireKeepsLedger(db: Tables)
    requires LedgerOk(db)
    ensures LedgerOk(ExpireOldTasks(db))
  {
    assert forall p :: PaymentOk(db, p) ==> PaymentOk(ExpireOldTasks(db), p);
  }

  lemma AcceptKeepsInv(s: State, t: Id, item: Id)
    requires Inv(s, item)
    ensures Inv(s.(db := AcceptTask(s.db, t)), item)
  {
    var s' := s.(db := AcceptTask(s.db, t));
    assert forall x :: Holds(s', x, item) == Holds(s, x, item);
    assert forall p :: PaymentOk(s.db, p) ==> PaymentOk(s'.db, p);
    assert forall o, d :: DutyOk(s.db, o, d) ==> DutyOk(s'.db, o, d);
  }

  /** A task that can be completed was never paid for, and neither was its item: a worker's item that was
      paid for is held by its completed task. */
  lemma NotYetPaid(s: State, t: Id, item: Id)
    requires Inv(s, item) && Completable(s.db, t)
    ensures forall i | 0 <= i < |s.db.ledger| ::
              s.db.ledger[i].task != t && (s.db.tasks[t].hitl == item ==> s.db.ledger[i].hitl != item)
  {
    forall i | 0 <= i < |s.db.ledger|
      ensures s.db.ledger[i].task != t && (s.db.tasks[t].hitl == item ==> s.db.ledger[i].hitl != item)
    {
      var p := s.db.ledger[i];
      assert PaymentOk(s.db, p);
      if s.db.tasks[t].hitl == item && p.hitl == item {
        assert Holds(s, HeldByTask(p.task), item) && Holds(s, HeldByTask(t), item);
      }
    }
  }

  lemma CompletedTables(db: Tables, t: Id)
    requires RowsKnown(db) && Completable(db, t)
    ensures var db' := CompleteTask(db, t); var task := db.tasks[t];
            && db'.hitls == db.hitls && db'.nextId == db.nextId
            && db'.tasks == db.tasks[t := task.(status := Completed)]
            && db'.reviewers == db.reviewers[task.reviewer := Credit(db.reviewers[task.reviewer], task.reward)]
            && db'.ledger == db.ledger + [Payment(t, task.hitl, task.reviewer, task.reward)]
            && RowsKnown(db')
  {
  }

  lemma CompleteKeepsEarnings(db: Tables, t: Id)
    requires RowsKnown(db) && EarningsOk(db) && Completable(db, t)
    ensures EarningsOk(CompleteTask(db, t))
  {
    var db' := CompleteTask(db, t);
    CompletedTables(db, t);
    assert db'.ledger[..|db'.ledger| - 1] == db.ledger;
  }

  lemma CompleteKeepsLedger(s: State, t: Id, item: Id)
    requires Inv(s, item) && Completable(s.db, t)
    ensures LedgerOk(CompleteTask(s.db, t))
    ensures var ledger := CompleteTask(s.db, t).ledger;
            forall i, j | 0 <= i < j < |ledger| :: ledger[i].hitl != item || ledger[j].hitl != item
  {
    var db, db' := s.db, CompleteTask(s.db, t);
    var n := |db.ledger|;
    CompletedTables(db, t);
    NotYetPaid(s, t, item);
    forall i | 0 <= i < |db'.ledger| ensures PaymentOk(db', db'.ledger[i]) {
      if i < n {
        assert PaymentOk(db, db.ledger[i]);
      }
    }
    forall u | u in db'.tasks && db'.tasks[u].status == Completed
      ensures exists i :: 0 <= i < |db'.ledger| && db'.ledger[i].task == u
    {
      if u == t {
        assert db'.ledger[n].task == u;
      } else {
        var i :| 0 <= i < n && db.ledger[i].task == u;
        assert db'.ledger[i].task == u;
      }
    }
  }

  lemma CompleteKeepsHolders(s: State, t: Id, item: Id)
    requires Inv(s, item) && Completable(s.db, t)
    ensures var s' := s.(db := CompleteTask(s.db, t));
            DutiesOk(s') && forall x, y | Holds(s', x, item) && Holds(s', y, item) :: x == y
  {
    var s' := s.(db := CompleteTask(s.db, t));
    CompletedTables(s.db, t);
    assert forall x :: Holds(s', x, item) == Holds(s, x, item);
    assert forall o, d :: DutyOk(s.db, o, d) ==> DutyOk(s'.db, o, d);
  }

  lemma CompleteKeepsInv(s: State, t: Id, item: Id)
    requires Inv(s, item)
    ensures Inv(s.(db := CompleteTask(s.db, t)), item)
  {
    if Completable(s.db, t) {
      CompletedTables(s.db, t);
      CompleteKeepsLedger(s, t, item);
      CompleteKeepsEarnings(s.db, t);
      CompleteKeepsHolders(s, t, item);
    }
  }

  lemma DeleteKeepsInv(s: State, lines: set<Id>, item: Id)
    requires Inv(s, item)
    ensures Inv(s.(db := DeleteItems(s.db, lines)), item)
  {
    var s' := s.(db := DeleteItems(s.db, lines));
    assert forall x :: Holds(s', x, item) ==> Holds(s, x, item);
    assert forall p :: PaymentOk(s.db, p) ==> PaymentOk(s'.db, p);
    assert forall o, d :: DutyOk(s.db, o, d) ==> DutyOk(s'.db, o, d);
  }

  predicate IsTableEvent(e: Event) {
    e.CreateReviewer? || e.ChangeReviewer? || e.ChangeReward? || e.Accept? || e.Complete? || e.Resolve?
    || e.DeleteInvoiceItems? || e.Wait?
  }

  lemma InsertReviewerKeepsInv(s: State, kind: ReviewerType, item: Id)
    requires Inv(s, item)
    ensures Inv(s.(db := InsertReviewer(s.db, kind)), item)
  {
    QuietStepKeepsInv(s, InsertReviewer(s.db, kind), item);
  }

  lemma UpdateReviewerKeepsInv(s: State, r: Id, kind: ReviewerType, active: bool, item: Id)
    requires Inv(s, item)
    ensures Inv(s.(db := UpdateReviewer(s.db, r, kind, active)), item)
  {
    QuietStepKeepsInv(s, UpdateReviewer(s.db, r, kind, active), item);
  }

  lemma SetRewardKeepsInv(s: State, kind: TaskType, amount: int, item: Id)
    requires Inv(s, item)
    ensures Inv(s.(db := SetReward(s.db, kind, amount)), item)
  {
    QuietStepKeepsInv(s, SetReward(s.db, kind, amount), item);
  }

  lemma ResolveKeepsInv(s: State, h: Id, item: Id)
    requires Inv(s, item)
    ensures Inv(s.(db := ResolveHitl(s.db, h)), item)
  {
    QuietStepKeepsInv(s, ResolveHitl(s.db, h), item);
  }

  lemma TableStepKeepsInv(s: State, e: Event, item: Id)
    requires Inv(s, item) && IsTableEvent(e)
    ensures Inv(Apply(s, e), item)
  {
    TickKeepsInv(s, item);
    var u := s.(db := Tick(s.db));
    match e
    case CreateReviewer(kind) => InsertReviewerKeepsInv(u, kind, item);
    case ChangeReviewer(r, kind, active) => UpdateReviewerKeepsInv(u, r, kind, active, item);
    case ChangeReward(kind, amount) => SetRewardKeepsInv(u, kind, amount, item);
    case Accept(t) => AcceptKeepsInv(u, t, item);
    case Complete(t) => CompleteKeepsInv(u, t, item);
    case Resolve(h) => ResolveKeepsInv(u, h, item);
    case DeleteInvoiceItems(lines) => DeleteKeepsInv(u, lines, item);
    case _ =>
  }

  /** Every step of every interleaving keeps the invariant of every item that, if the step creates it, a
      worker creates. */
  lemma StepKeepsInv(s: State, e: Event, item: Id)
    requires Inv(s, item) && WorkerCreates(s, e, item)
    ensures Inv(Apply(s, e), item)
  {
    if IsTableEvent(e) {
      TableStepKeepsInv(s, e, item);
    } else {
      TickKeepsInv(s, item);
      var u := s.(db := Tick(s.db));
      match e
      case CreateHitl(line, reason) => CreateHitlKeepsInv(u, line, reason, item);
      case Load(o) => LoadKeepsInv(u, o, item);
      case ReadRewards(o, readable) => ReadRewardsKeepsInv(u, o, readable, item);
      case Choose(o, r) => ChooseKeepsInv(u, o, r, item);
      case SkipType(o) => SkipKeepsInv(u, o, item);
      case Insert(o, expiresAt) => InsertKeepsInv(u, o, expiresAt, item);
      case Abandon(o) => DropKeepsInv(u, o, item);
      case ExpireOverdue => ExpireKeepsInv(u, item);
      case _ =>
    }
  }

  lemma {:induction false} RunKeepsInv(s: State, events: seq<Event>, item: Id)
    requires Inv(s, item) && FromWorker(s, events, item)
    ensures Inv(Run(s, events), item)
    decreases |events|
  {
    if events != [] {
      StepKeepsInv(s, events[0], item);
      RunKeepsInv(Apply(s, events[0]), events[1..], item);
    }
  }

  /** Whatever the reasons: an item nobody has created yet has nothing to break. */
  lemma {:induction false} RunKeepsBase(s: State, events: seq<Event>)
    requires Base(s)
    ensures Base(Run(s, events))
    decreases |events|
  {
    if events != [] {
      assert forall o | o in s.duties :: DutyOk(s.db, o, s.duties[o]);
      assert forall i | 0 <= i < |s.db.ledger| :: PaymentOk(s.db, s.db.ledger[i]);
      StepKeepsInv(s, events[0], s.db.nextId + 1);
      RunKeepsBase(Apply(s, events[0]), events[1..]);
    }
  }

  // ---------- The promises ----------

  ghost function LiveTasks(s: State, h: Id): set<Id> {
    set t | t in s.db.tasks && s.db.tasks[t].hitl == h && s.db.tasks[t].status != Expired
  }

  ghost function DutiesFor(s: State, h: Id): set<Origin> {
    set o | o in s.duties && s.duties[o].hitl == h
  }

  lemma AtMostOne<T>(a: set<T>)
    requires forall x, y | x in a && y in a :: x == y
    ensures |a| <= 1
  {
    if a != {} {
      var x :| x in a;
      assert a == {x};
    }
  }

  lemma OneHolder(s: State, h: Id)
    requires ItemOk(s, h)
    ensures |LiveTasks(s, h)| + |DutiesFor(s, h)| <= 1
  {
    assert forall t | t in LiveTasks(s, h) :: Holds(s, HeldByTask(t), h);
    assert forall o | o in DutiesFor(s, h) :: Holds(s, HeldByDuty(o), h);
    AtMostOne(LiveTasks(s, h));
    AtMostOne(DutiesFor(s, h));
    assert forall t, o | t in LiveTasks(s, h) && o in DutiesFor(s, h) :: HeldByTask(t) == HeldByDuty(o);
    assert LiveTasks(s, h) == {} || DutiesFor(s, h) == {};
  }

  /** In every reachable state an item that came from a worker has at most one task that is not expired or
      one duty, whatever other items exist. */
  lemma OneLiveTaskOrDuty(events: seq<Event>, h: Id)
    requires FromWorker(INITIAL, events, h)
    ensures var s := Run(INITIAL, events); |LiveTasks(s, h)| + |DutiesFor(s, h)| <= 1
  {
    RunKeepsInv(INITIAL, events, h);
    OneHolder(Run(INITIAL, events), h);
  }

  /** Over the whole run an item that came from a worker is paid for at most once. */
  lemma OnePaymentPerItem(events: seq<Event>, h: Id)
    requires FromWorker(INITIAL, events, h)
    ensures var ledger := Run(INITIAL, events).db.ledger;
            forall i, j | 0 <= i < j < |ledger| :: ledger[i].hitl != h || ledger[j].hitl != h
  {
    RunKeepsInv(INITIAL, events, h);
  }

  /** In every run, whatever the reasons: a task is paid for at most once, at the reward its row was created
      with, and a task row is completed exactly when it was paid for. */
  lemma OnePaymentPerTask(events: seq<Event>)
    ensures var db := Run(INITIAL, events).db;
            && (forall i, j | 0 <= i < j < |db.ledger| :: db.ledger[i].task != db.ledger[j].task)
            && (forall i | 0 <= i < |db.ledger| && db.ledger[i].task in db.tasks ::
                  PaidFor(db.tasks[db.ledger[i].task], db.ledger[i]))
            && (forall t | t in db.tasks && db.tasks[t].status == Completed ::
                  exists i :: 0 <= i < |db.ledger| && db.ledger[i].task == t)
  {
    RunKeepsBase(INITIAL, events);
    var db := Run(INITIAL, events).db;
    assert forall i | 0 <= i < |db.ledger| :: PaymentOk(db, db.ledger[i]);
  }

  /** In every run, whatever the reasons: what a reviewer has earned, and is owed, is the sum over all of
      that reviewer's completions. */
  lemma EarningsAreCompletions(events: seq<Event>, r: Id)
    requires r in Run(INITIAL, events).db.reviewers
    ensures var db := Run(INITIAL, events).db;
            db.reviewers[r].earned == db.reviewers[r].pendingPayout == EarnedIn(db.ledger, r)
  {
    RunKeepsBase(INITIAL, events);
  }

  /** The two reasons the worker writes are the ones with a single task type. */
  lemma SingleTaskReasons(reason: Reason)
    ensures |TaskTypesFor(reason)| == 1 <==> exists matched :: reason == WorkerReason(matched)
    ensures WorkerReason(true) == ClassificationNeeded && WorkerReason(false) == OcrMismatch
  {
    assert WorkerReason(true) == ClassificationNeeded && WorkerReason(false) == OcrMismatch;
  }

  /** A HITL item 2 with a reason no worker writes, after AssignForHitl has read its task types. */
  function TwoTypesCalled(): State {
    State(Tables(map[2 := Hitl(7, OtherReason, Pending)], map[],
                 map[0 := Reviewer(TextVerifier, true, 0, 0), 1 := Reviewer(ClassificationVerifier, true, 0, 0)],
                 SEEDED, 4, 3, []),
          map[ByWorker(2) := Duty(2, Assigning([TextVerification, ClassificationVerification], SEEDED))])
  }

  lemma TwoTypesReachable()
    ensures Run(INITIAL, [CreateReviewer(TextVerifier), CreateReviewer(ClassificationVerifier), CreateHitl(7, OtherReason),
                          ReadRewards(ByWorker(2), true)]) == TwoTypesCalled()
  {
    var events := [CreateReviewer(TextVerifier), CreateReviewer(ClassificationVerifier), CreateHitl(7, OtherReason),
                   ReadRewards(ByWorker(2), true)];
    assert events[1..] == [CreateReviewer(ClassificationVerifier), CreateHitl(7, OtherReason), ReadRewards(ByWorker(2), true)];
    assert events[1..][1..] == [CreateHitl(7, OtherReason), ReadRewards(ByWorker(2), true)];
    assert events[1..][1..][1..] == [ReadRewards(ByWorker(2), true)];
    var s2 := Apply(Apply(INITIAL, events[0]), events[1]);
    assert s2.db.reviewers == TwoTypesCalled().db.reviewers;
    var s4 := Apply(Apply(s2, events[2]), events[3]);
    assert s4.db.hitls == TwoTypesCalled().db.hitls && s4.duties == TwoTypesCalled().duties;
  }

  /** With such a reason the item gets two tasks at once: the first promise fails. */
  lemma OtherReasonHasTwoTasks()
    ensures var s := Run(TwoTypesCalled(), [Choose(ByWorker(2), 0), Insert(ByWorker(2), 100),
                                            Choose(ByWorker(2), 1), Insert(ByWorker(2), 100)]);
            LiveTasks(s, 2) == {3, 4} && |LiveTasks(s, 2)| == 2
  {
    var o := ByWorker(2);
    FirstTask();
    SecondTask();
    RunAppend(TwoTypesCalled(), [Choose(o, 0), Insert(o, 100)], [Choose(o, 1), Insert(o, 100)]);
    RunTwo(TwoTypesCalled(), Choose(o, 0), Insert(o, 100));
    RunTwo(FirstSent(), Choose(o, 1), Insert(o, 100));
    assert [Choose(o, 0), Insert(o, 100)] + [Choose(o, 1), Insert(o, 100)]
        == [Choose(o, 0), Insert(o, 100), Choose(o, 1), Insert(o, 100)];
  }

  /** After the first of the two tasks has been sent. */
  function FirstSent(): State {
    State(TwoTypesCalled().db.(tasks := map[3 := Task(2, 0, TextVerification, Sent, 500, 6, 100)], clock := 6, nextId := 4),
          map[ByWorker(2) := Duty(2, Assigning([ClassificationVerification], SEEDED))])
  }

  lemma FirstTask()
    ensures Apply(Apply(TwoTypesCalled(), Choose(ByWorker(2), 0)), Insert(ByWorker(2), 100)) == FirstSent()
  {
    var o, s := ByWorker(2), TwoTypesCalled();
    assert Pool(Tick(s.db), TextVerifier) == {0};
    var u := Apply(s, Choose(o, 0));
    assert u.duties == map[o := Duty(2, Chosen([TextVerification, ClassificationVerification], SEEDED, 0))];
    var v := Apply(u, Insert(o, 100));
    assert v.db == FirstSent().db && v.duties == FirstSent().duties;
  }

  lemma SecondTask()
    ensures var s := Apply(Apply(FirstSent(), Choose(ByWorker(2), 1)), Insert(ByWorker(2), 100));
      LiveTasks(s, 2) == {3, 4} && |LiveTasks(s, 2)| == 2
  {
    var o, s := ByWorker(2), FirstSent();
    assert Pool(Tick(s.db), ClassificationVerifier) == {1};
    var u := Apply(s, Choose(o, 1));
    assert u.duties == map[o := Duty(2, Chosen([ClassificationVerification], SEEDED, 1))];
    var v := Apply(u, Insert(o, 100));
    assert v.db.tasks.Keys == {3, 4};
  }
}
