/** Where tasks come from and how they move: what a step and what a whole run can change of a task row and of
    an item, that an expired task leaves a duty behind, and that every task is of a type its item's reason
    calls for. */
module ReviewerRouting {
  import opened Records
  import opened ReviewerTables
  import opened ReviewerProtocol

  /** The one change a step may make to an existing task row. */
  function MovedStatus(t: Task, id: Id, e: Event, now: nat): TaskStatus {
    if e == Accept(id) && t.status == Sent then Accepted
    else if e == Complete(id) && (t.status == Sent || t.status == Accepted) then Completed
    else if e == ExpireOverdue && t.status == Sent && t.expiresAt < now then Expired
    else t.status
  }

  /** A task row never changes but for its status, which only its own acceptance, its own completion and,
      while nobody has accepted it, the expiry after its deadline can move. Rows vanish only when the
      items are deleted. */
  lemma TaskMoves(s: State, e: Event, id: Id)
    requires id in s.db.tasks && s.db.nextId !in s.db.tasks
    ensures var t := s.db.tasks[id]; var after := Apply(s, e).db;
            && (id in after.tasks ==> after.tasks[id] == t.(status := MovedStatus(t, id, e, s.db.clock + 1)))
            && (id !in after.tasks ==> e.DeleteInvoiceItems?)
  {
  }

  /** A task row appears only when a duty that has chosen a reviewer inserts it: for the duty's item and that
      reviewer, of the type next in turn, at the reward that was configured when the duty read the rewards. */
  lemma NewTaskRow(s: State, e: Event, id: Id)
    requires id !in s.db.tasks && id in Apply(s, e).db.tasks
    ensures e.Insert? && e.origin in s.duties && s.duties[e.origin].stage.Chosen?
    ensures var d := s.duties[e.origin];
            && d.stage.todo != [] && d.hitl in s.db.hitls && d.stage.reviewer in s.db.reviewers
            && Apply(s, e).db.tasks[id] == Task(d.hitl, d.stage.reviewer, d.stage.todo[0], Sent,
                                                RewardOf(d.stage.rewards, d.stage.todo[0]), s.db.clock + 1, e.expiresAt)
  {
  }

  /** An item only ever changes from pending to resolved, and only by its own resolution; a checker that
      finds its item resolved, or gone, drops the assignment it owes. */
  lemma HitlMoves(s: State, e: Event, h: Id)
    requires h in s.db.hitls && s.db.nextId !in s.db.hitls
    ensures var after := Apply(s, e).db;
            if h in after.hitls
            then after.hitls[h] == s.db.hitls[h].(status := if e == Resolve(h) then Resolved else s.db.hitls[h].status)
            else e.DeleteInvoiceItems? && s.db.hitls[h].item in e.items
    ensures e.Load? && e.origin in s.duties && s.duties[e.origin] == Duty(h, Loading) ==>
              (e.origin in Apply(s, e).duties <==> s.db.hitls[h].status == Pending)
  {
  }

  /** Type and activity of a reviewer change by an update of that reviewer only. */
  lemma ReviewerMoves(s: State, e: Event, r: Id)
    requires r in s.db.reviewers && s.db.nextId !in s.db.reviewers
    ensures var before := s.db.reviewers[r]; var after := Apply(s, e).db.reviewers;
            r in after && (after[r].kind, after[r].active) ==
              if e.ChangeReviewer? && e.reviewer == r then (e.kind, e.active) else (before.kind, before.active)
  {
  }

  /** Expiry forgets nobody: the item of every expired task is owed a new assignment. */
  lemma ExpiryOwesAssignment(s: State, id: Id)
    requires id in s.db.tasks && Overdue(s.db.tasks[id], s.db.clock + 1)
    ensures var after := Apply(s, ExpireOverdue);
            && ByChecker(id) in after.duties
            && after.duties[ByChecker(id)] == Duty(s.db.tasks[id].hitl, Loading)
  {
  }

  // ---------- Over a whole run ----------

  /** How a status can develop: a task that is completed or expired stays so, and nobody's accepted task
      expires. */
  predicate Leads(before: TaskStatus, after: TaskStatus) {
    before == after || before == Sent || (before == Accepted && after == Completed)
  }

  /** No row id is taken before it is given out. */
  ghost predicate IdsFresh(db: Tables) {
    (forall t | t in db.tasks :: t < db.nextId) && (forall h | h in db.hitls :: h < db.nextId)
  }

  /** What can become of a task row: it stays that of the same item, reviewer, type, reward and deadline, its
      status develops, it has expired only after its deadline, and once gone it does not come back. */
  ghost predicate TaskDevelops(before: Tables, after: Tables, id: Id) {
    if id in before.tasks then
      id in after.tasks ==>
        && after.tasks[id] == before.tasks[id].(status := after.tasks[id].status)
        && Leads(before.tasks[id].status, after.tasks[id].status)
        && (after.tasks[id].status == Expired && before.tasks[id].status != Expired ==> after.tasks[id].expiresAt < after.clock)
    else id < before.nextId ==> id !in after.tasks
  }

  /** What can become of an item: line and reason stay, a resolved one stays resolved, and once gone it does
      not come back. */
  ghost predicate HitlDevelops(before: Tables, after: Tables, h: Id) {
    if h in before.hitls then
      h in after.hitls ==>
        && after.hitls[h] == before.hitls[h].(status := after.hitls[h].status)
        && (before.hitls[h].status == Resolved ==> after.hitls[h].status == Resolved)
    else h < before.nextId ==> h !in after.hitls
  }

  lemma StepKeepsFresh(s: State, e: Event)
    requires IdsFresh(s.db)
    ensures var after := Apply(s, e).db; IdsFresh(after) && after.nextId >= s.db.nextId && after.clock > s.db.clock
  {
  }

  lemma StepDevelopsTask(s: State, e: Event, id: Id)
    requires IdsFresh(s.db)
    ensures TaskDevelops(s.db, Apply(s, e).db, id)
  {
    if id in s.db.tasks {
      TaskMoves(s, e, id);
    } else if id in Apply(s, e).db.tasks {
      NewTaskRow(s, e, id);
    }
  }

  lemma StepDevelopsHitl(s: State, e: Event, h: Id)
    requires IdsFresh(s.db)
    ensures HitlDevelops(s.db, Apply(s, e).db, h)
  {
    if h in s.db.hitls {
      HitlMoves(s, e, h);
    }
  }

  lemma {:induction false} RunDevelops(s: State, events: seq<Event>, id: Id)
    requires IdsFresh(s.db)
    ensures var after := Run(s, events).db;
      && IdsFresh(after) && after.nextId >= s.db.nextId && after.clock >= s.db.clock
      && TaskDevelops(s.db, after, id) && HitlDevelops(s.db, after, id)
    decreases |events|
  {
    if events != [] {
      StepKeepsFresh(s, events[0]);
      StepDevelopsTask(s, events[0], id);
      StepDevelopsHitl(s, events[0], id);
      RunDevelops(Apply(s, events[0]), events[1..], id);
    }
  }

  /** In every run, from every point on: a task never changes its item, reviewer, type, reward or deadline,
      its status only moves on, and no expiry comes early or hits an accepted task. */
  lemma TasksDevelop(past: seq<Event>, events: seq<Event>, id: Id)
    ensures TaskDevelops(Run(INITIAL, past).db, Run(INITIAL, past + events).db, id)
  {
    RunDevelops(INITIAL, past, id);
    RunDevelops(Run(INITIAL, past), events, id);
    RunAppend(INITIAL, past, events);
  }

  /** In every run, from every point on: an item keeps its line and reason, and is never reopened. */
  lemma HitlsDevelop(past: seq<Event>, events: seq<Event>, h: Id)
    ensures HitlDevelops(Run(INITIAL, past).db, Run(INITIAL, past + events).db, h)
  {
    RunDevelops(INITIAL, past, h);
    RunDevelops(Run(INITIAL, past), events, h);
    RunAppend(INITIAL, past, events);
  }

  // ---------- Task types ----------

  ghost predicate Wanted(db: Tables, h: Id, kind: TaskType) {
    h in db.hitls ==> kind in TaskTypesFor(db.hitls[h].reason)
  }

  ghost predicate StageRouted(db: Tables, h: Id, g: Stage) {
    match g
    case Loading => true
    case Called(reason) => h in db.hitls ==> reason == db.hitls[h].reason
    case Assigning(todo, _) => forall k | k in todo :: Wanted(db, h, k)
    case Chosen(todo, _, _) => forall k | k in todo :: Wanted(db, h, k)
  }

  ghost predicate Routed(s: State) {
    && (forall t | t in s.db.tasks :: Wanted(s.db, s.db.tasks[t].hitl, s.db.tasks[t].kind))
    && (forall o | o in s.duties :: StageRouted(s.db, s.duties[o].hitl, s.duties[o].stage))
    && (forall h | h in s.db.hitls :: h < s.db.nextId)
    && (forall t | t in s.db.tasks :: s.db.tasks[t].hitl < s.db.nextId)
    && (forall o | o in s.duties :: s.duties[o].hitl < s.db.nextId)
  }

  lemma StageStaysRouted(db: Tables, db': Tables, h: Id, g: Stage)
    requires StageRouted(db, h, g)
    requires h in db'.hitls ==> h in db.hitls && db'.hitls[h].reason == db.hitls[h].reason
    ensures StageRouted(db', h, g)
  {
  }

  /** Steps that leave the duties alone, create no item, and send no task. */
  lemma TablesStayRouted(s: State, db: Tables)
    requires Routed(s) && db.nextId >= s.db.nextId
    requires forall h | h in db.hitls :: h in s.db.hitls && db.hitls[h].reason == s.db.hitls[h].reason
    requires forall t | t in db.tasks :: t in s.db.tasks && db.tasks[t].hitl == s.db.tasks[t].hitl && db.tasks[t].kind == s.db.tasks[t].kind
    ensures Routed(s.(db := db))
  {
    forall o | o in s.duties ensures StageRouted(db, s.duties[o].hitl, s.duties[o].stage) {
      StageStaysRouted(s.db, db, s.duties[o].hitl, s.duties[o].stage);
    }
  }

  lemma InsertStaysRouted(s: State, o: Origin, expiresAt: int)
    requires Routed(s)
    ensures Routed(DoInsert(s, o, expiresAt))
  {
    var s' := DoInsert(s, o, expiresAt);
    if o in s.duties && s.duties[o].stage.Chosen? && s.duties[o].stage.todo != [] {
      var todo := s.duties[o].stage.todo;
      assert StageRouted(s.db, s.duties[o].hitl, s.duties[o].stage) && todo[0] in todo;
      assert forall k | k in todo[1..] :: k in todo;
      forall q | q in s'.duties ensures StageRouted(s'.db, s'.duties[q].hitl, s'.duties[q].stage) {
        if q != o {
          StageStaysRouted(s.db, s'.db, s.duties[q].hitl, s.duties[q].stage);
        }
      }
    }
  }

  lemma CreateStaysRouted(s: State, item: Id, reason: Reason)
    requires Routed(s)
    ensures Routed(DoCreateHitl(s, item, reason))
  {
    var s', o' := DoCreateHitl(s, item, reason), ByWorker(s.db.nextId);
    forall q | q in s'.duties ensures StageRouted(s'.db, s'.duties[q].hitl, s'.duties[q].stage) {
      if q != o' {
        StageStaysRouted(s.db, s'.db, s.duties[q].hitl, s.duties[q].stage);
      }
    }
  }

  lemma ExpireStaysRouted(s: State)
    requires Routed(s)
    ensures Routed(DoExpire(s))
  {
    var db, s' := ExpireOldTasks(s.db), DoExpire(s);
    TablesStayRouted(s, db);
    ExpiryDutiesLoad(s.db);
    forall o | o in s'.duties
      ensures StageRouted(db, s'.duties[o].hitl, s'.duties[o].stage) && s'.duties[o].hitl < db.nextId
    {
      if o !in DutiesOfExpiry(s.db) {
        assert s'.duties[o] == s.duties[o];
      }
    }
  }

  lemma ExpiryDutiesLoad(db: Tables)
    ensures forall o | o in DutiesOfExpiry(db) :: o.ByChecker? && o.task in db.tasks && DutiesOfExpiry(db)[o] == Duty(db.tasks[o.task].hitl, Loading)
  {
  }

  /** A duty moves on under the same origin, or ends. */
  lemma DutyStaysRouted(s: State, o: Origin, duties: map<Origin, Duty>)
    requires Routed(s) && o in s.duties
    requires duties == Drop(s.duties, o)
             || (o in duties && duties == s.duties[o := duties[o]] && duties[o].hitl == s.duties[o].hitl
                 && StageRouted(s.db, duties[o].hitl, duties[o].stage))
    ensures Routed(s.(duties := duties))
  {
  }

  lemma DutyStepStaysRouted(s: State, e: Event)
    requires Routed(s)
    requires e.Load? || e.ReadRewards? || e.Choose? || e.SkipType? || e.Abandon?
    ensures Routed(Apply(s, e))
  {
    TablesStayRouted(s, Tick(s.db));
    var u := s.(db := Tick(s.db));
    if e.origin in u.duties {
      assert StageRouted(u.db, u.duties[e.origin].hitl, u.duties[e.origin].stage);
      if Apply(s, e) != u {
        DutyStaysRouted(u, e.origin, Apply(s, e).duties);
      }
    }
  }

  lemma TableStepStaysRouted(s: State, e: Event)
    requires Routed(s) && s.duties == Apply(s, e).duties && !e.CreateHitl? && !e.Insert? && !e.ExpireOverdue?
    ensures Routed(Apply(s, e))
  {
    TablesStayRouted(s, Apply(s, e).db);
  }

  lemma TickStaysRouted(s: State)
    requires Routed(s)
    ensures Routed(s.(db := Tick(s.db)))
  {
    TablesStayRouted(s, Tick(s.db));
  }

  lemma AddStepStaysRouted(s: State, e: Event)
    requires Routed(s) && (e.CreateHitl? || e.Insert? || e.ExpireOverdue?)
    ensures Routed(Apply(s, e))
  {
    TickStaysRouted(s);
    var u := s.(db := Tick(s.db));
    if e.CreateHitl? {
      CreateStaysRouted(u, e.item, e.reason);
      assert Apply(s, e) == DoCreateHitl(u, e.item, e.reason);
    } else if e.Insert? {
      InsertStaysRouted(u, e.origin, e.expiresAt);
      assert Apply(s, e) == DoInsert(u, e.origin, e.expiresAt);
    } else {
      ExpireStaysRouted(u);
      assert Apply(s, e) == DoExpire(u);
    }
  }

  lemma StepStaysRouted(s: State, e: Event)
    requires Routed(s)
    ensures Routed(Apply(s, e))
  {
    if e.CreateHitl? || e.Insert? || e.ExpireOverdue? {
      AddStepStaysRouted(s, e);
    } else if e.Load? || e.ReadRewards? || e.Choose? || e.SkipType? || e.Abandon? {
      DutyStepStaysRouted(s, e);
    } else {
      TableStepStaysRouted(s, e);
    }
  }

  lemma {:induction false} RunStaysRouted(s: State, events: seq<Event>)
    requires Routed(s)
    ensures Routed(Run(s, events))
    decreases |events|
  {
    if events != [] {
      StepStaysRouted(s, events[0]);
      RunStaysRouted(Apply(s, events[0]), events[1..]);
    }
  }

  /** In every run a task is of a type that its item's reason asks for; this holds for any reason. */
  lemma TasksMatchReasons(events: seq<Event>, t: Id)
    requires t in Run(INITIAL, events).db.tasks
    ensures var db := Run(INITIAL, events).db;
            db.tasks[t].hitl in db.hitls ==> db.tasks[t].kind in TaskTypesFor(db.hitls[db.tasks[t].hitl].reason)
    ensures var db := Run(INITIAL, events).db;
            db.tasks[t].hitl in db.hitls ==>
              && (db.hitls[db.tasks[t].hitl].reason == OcrMismatch ==> db.tasks[t].kind == TextVerification)
              && (db.hitls[db.tasks[t].hitl].reason == ClassificationNeeded ==> db.tasks[t].kind == ClassificationVerification)
  {
    RunStaysRouted(INITIAL, events);
    var db := Run(INITIAL, events).db;
    assert Wanted(db, db.tasks[t].hitl, db.tasks[t].kind);
    if db.tasks[t].hitl in db.hitls {
      WhoDoesWhat(db.hitls[db.tasks[t].hitl].reason, db.tasks[t].kind);
    }
  }

  /** The configured rewards change only by an update to a positive amount. */
  lemma RewardMoves(s: State, e: Event, kind: TaskType)
    ensures RewardOf(Apply(s, e).db.rewards, kind) ==
            if e.ChangeReward? && e.task == kind && e.amount > 0 then e.amount else RewardOf(s.db.rewards, kind)
  {
  }
}
