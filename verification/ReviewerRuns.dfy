/** The undisturbed runs of the service: which events serve one duty, which reassign the item of one expired
    task, which make up one tick of the checker; and how many tasks each of them hands out to whom. Each run
    is a relation between the state before, the events and the state after. */
module ReviewerRuns {
  import opened Records
  import opened ReviewerTables
  import opened ReviewerProtocol
  import opened ReviewerSafety
  import opened Ids

  // ---------- The events of each run ----------

  /** Serving one task type: skipped if nobody active can serve it, else given to the next reviewer, with the
      deadline counted from the pick. */
  ghost predicate ServesOne(s: State, events: seq<Event>, o: Origin, kind: TaskType, minutes: nat, end: State) {
    if Pool(s.db, ReviewerTypeFor(kind)) == {} then
      events == [SkipType(o)] && end == Apply(s, SkipType(o))
    else
      && |events| == 2 && events[0].Choose?
      && var r, expiresAt := events[0].reviewer, s.db.clock + 1 + minutes;
         && IsNextReviewer(Tick(s.db), ReviewerTypeFor(kind), r)
         && events == [Choose(o, r), Insert(o, expiresAt)]
         && end == Apply(Apply(s, Choose(o, r)), Insert(o, expiresAt))
  }

  /** Serving all task types in order. */
  ghost predicate Serves(s: State, events: seq<Event>, o: Origin, todo: seq<TaskType>, minutes: nat, end: State)
    decreases |todo|
  {
    if todo == [] then events == [] && end == s
    else
      var before, kind := todo[..|todo| - 1], todo[|todo| - 1];
      exists n: nat, mid | n <= |events| ::
        Serves(s, events[..n], o, before, minutes, mid) && ServesOne(mid, events[n..], o, kind, minutes, end)
  }

  /** AssignForHitl for an item with this reason: the rewards are read, then each task type is served. */
  ghost predicate Assigns(s: State, events: seq<Event>, o: Origin, reason: Reason, minutes: nat, end: State) {
    && events != [] && events[0] == ReadRewards(o, true)
    && Serves(Apply(s, ReadRewards(o, true)), events[1..], o, TaskTypesFor(reason), minutes, end)
  }

  ghost predicate IsPending(db: Tables, h: Id) {
    h in db.hitls && db.hitls[h].status == Pending
  }

  /** The loop body of the checker: the item is loaded, and assigned if and only if it is still pending. */
  ghost predicate Reassigns(s: State, events: seq<Event>, o: Origin, minutes: nat, end: State) {
    && o in s.duties && events != [] && events[0] == Load(o)
    && if IsPending(s.db, s.duties[o].hitl)
       then Assigns(Apply(s, Load(o)), events[1..], o, s.db.hitls[s.duties[o].hitl].reason, minutes, end)
       else events[1..] == [] && end == Apply(s, Load(o))
  }

  /** The loop of the checker: one body per task, in this order, and nothing else. */
  ghost predicate ReassignsAll(s: State, events: seq<Event>, order: seq<Id>, minutes: nat, end: State)
    decreases |order|
  {
    if order == [] then events == [] && end == s
    else
      var before, t := order[..|order| - 1], order[|order| - 1];
      exists n: nat, mid | n <= |events| ::
        ReassignsAll(s, events[..n], before, minutes, mid) && Reassigns(mid, events[n..], ByChecker(t), minutes, end)
  }

  /** One tick of the checker: expiry, then each overdue task exactly once. */
  ghost predicate Checks(s: State, events: seq<Event>, order: seq<Id>, minutes: nat, end: State) {
    && events != [] && events[0] == ExpireOverdue
    && Distinct(order) && Elements(order) == OverdueTasks(Tick(s.db))
    && ReassignsAll(Apply(s, ExpireOverdue), events[1..], order, minutes, end)
  }

  // ---------- They are runs of the protocol ----------

  lemma RunFirst(s: State, events: seq<Event>)
    requires events != []
    ensures Run(s, events) == Run(Apply(s, events[0]), events[1..])
  {
  }

  lemma ServesOneRuns(s: State, events: seq<Event>, o: Origin, kind: TaskType, minutes: nat, end: State)
    requires ServesOne(s, events, o, kind, minutes, end)
    ensures Run(s, events) == end
  {
    if Pool(s.db, ReviewerTypeFor(kind)) == {} {
      RunOneMore(s, [], SkipType(o));
      assert [] + [SkipType(o)] == [SkipType(o)];
    } else {
      RunTwo(s, events[0], events[1]);
    }
  }

  lemma {:induction false} ServesRuns(s: State, events: seq<Event>, o: Origin, todo: seq<TaskType>, minutes: nat, end: State)
    requires Serves(s, events, o, todo, minutes, end)
    ensures Run(s, events) == end
    decreases |todo|
  {
    if todo != [] {
      var n, mid := LastServed(s, events, o, todo, minutes, end);
      ServesRuns(s, events[..n], o, todo[..|todo| - 1], minutes, mid);
      ServesOneRuns(mid, events[n..], o, todo[|todo| - 1], minutes, end);
      RunsJoin(s, events, n, mid, end);
    }
  }

  lemma LastServed(s: State, events: seq<Event>, o: Origin, todo: seq<TaskType>, minutes: nat, end: State) returns (n: nat, mid: State)
    requires todo != [] && Serves(s, events, o, todo, minutes, end)
    ensures n <= |events| && Serves(s, events[..n], o, todo[..|todo| - 1], minutes, mid)
    ensures ServesOne(mid, events[n..], o, todo[|todo| - 1], minutes, end)
  {
    var before, kind := todo[..|todo| - 1], todo[|todo| - 1];
    n, mid :| n <= |events| && Serves(s, events[..n], o, before, minutes, mid) && ServesOne(mid, events[n..], o, kind, minutes, end);
  }

  lemma AssignsRuns(s: State, events: seq<Event>, o: Origin, reason: Reason, minutes: nat, end: State)
    requires Assigns(s, events, o, reason, minutes, end)
    ensures Run(s, events) == end
  {
    RunFirst(s, events);
    ServesRuns(Apply(s, ReadRewards(o, true)), events[1..], o, TaskTypesFor(reason), minutes, end);
  }

  lemma ReassignsRuns(s: State, events: seq<Event>, o: Origin, minutes: nat, end: State)
    requires Reassigns(s, events, o, minutes, end)
    ensures Run(s, events) == end
  {
    RunFirst(s, events);
    if IsPending(s.db, s.duties[o].hitl) {
      AssignsRuns(Apply(s, Load(o)), events[1..], o, s.db.hitls[s.duties[o].hitl].reason, minutes, end);
    }
  }

  lemma RunsJoin(s: State, events: seq<Event>, n: nat, mid: State, end: State)
    requires n <= |events| && Run(s, events[..n]) == mid && Run(mid, events[n..]) == end
    ensures Run(s, events) == end
  {
    RunAppend(s, events[..n], events[n..]);
    assert events[..n] + events[n..] == events;
  }

  lemma LastReassigned(s: State, events: seq<Event>, order: seq<Id>, minutes: nat, end: State) returns (n: nat, mid: State)
    requires order != [] && ReassignsAll(s, events, order, minutes, end)
    ensures n <= |events| && ReassignsAll(s, events[..n], order[..|order| - 1], minutes, mid)
    ensures Reassigns(mid, events[n..], ByChecker(order[|order| - 1]), minutes, end)
  {
    var before, t := order[..|order| - 1], order[|order| - 1];
    n, mid :| n <= |events| && ReassignsAll(s, events[..n], before, minutes, mid)
              && Reassigns(mid, events[n..], ByChecker(t), minutes, end);
  }

  lemma {:induction false} ReassignsAllRuns(s: State, events: seq<Event>, order: seq<Id>, minutes: nat, end: State)
    requires ReassignsAll(s, events, order, minutes, end)
    ensures Run(s, events) == end
    decreases |order|
  {
    if order != [] {
      var n, mid := LastReassigned(s, events, order, minutes, end);
      ReassignsAllRuns(s, events[..n], order[..|order| - 1], minutes, mid);
      ReassignsRuns(mid, events[n..], ByChecker(order[|order| - 1]), minutes, end);
      RunsJoin(s, events, n, mid, end);
    }
  }

  /** What the checker does in one tick is a run of the protocol, so all that holds of runs holds of it. */
  lemma ChecksRuns(s: State, events: seq<Event>, order: seq<Id>, minutes: nat, end: State)
    requires Checks(s, events, order, minutes, end)
    ensures Run(s, events) == end
  {
    RunFirst(s, events);
    ReassignsAllRuns(Apply(s, ExpireOverdue), events[1..], order, minutes, end);
  }

  // ---------- The duties on the way ----------

  /** The duties a checker takes on for the expired tasks, given as a map from task to HITL item. */
  function Owed(expired: map<Id, Id>): map<Origin, Duty> {
    map o | o in (set t | t in expired :: ByChecker(t)) :: Duty(expired[o.task], Loading)
  }

  /** The duties while `o` has still `todo` to serve. */
  ghost function Serving(others: map<Origin, Duty>, o: Origin, h: Id, todo: seq<TaskType>, rewards: map<TaskType, int>)
    : map<Origin, Duty>
  {
    if todo == [] then others else others[o := Duty(h, Assigning(todo, rewards))]
  }

  lemma ServingAdvances(others: map<Origin, Duty>, o: Origin, h: Id, todo: seq<TaskType>, rewards: map<TaskType, int>, d: Duty)
    requires o !in others && todo != []
    ensures Advance(others[o := d], o, h, todo, rewards) == Serving(others, o, h, todo[1..], rewards)
  {
  }

  lemma SkipServes(db: Tables, others: map<Origin, Duty>, o: Origin, h: Id, todo: seq<TaskType>, rewards: map<TaskType, int>)
    requires o !in others && todo != []
    ensures Apply(State(db, Serving(others, o, h, todo, rewards)), SkipType(o)) ==
            State(Tick(db), Serving(others, o, h, todo[1..], rewards))
  {
    ServingAdvances(others, o, h, todo, rewards, Duty(h, Assigning(todo, rewards)));
  }

  lemma PickServes(db: Tables, others: map<Origin, Duty>, o: Origin, h: Id, todo: seq<TaskType>, rewards: map<TaskType, int>,
                   r: Id, expiresAt: int)
    requires o !in others && todo != [] && IsNextReviewer(Tick(db), ReviewerTypeFor(todo[0]), r)
    ensures Apply(Apply(State(db, Serving(others, o, h, todo, rewards)), Choose(o, r)), Insert(o, expiresAt)) ==
            State(InsertTask(Tick(Tick(db)), h, r, todo[0], RewardOf(rewards, todo[0]), expiresAt),
                  Serving(others, o, h, todo[1..], rewards))
  {
    var s := State(db, Serving(others, o, h, todo, rewards));
    var chosen := Duty(h, Chosen(todo, rewards, r));
    assert Apply(s, Choose(o, r)) == State(Tick(db), others[o := chosen]);
    ServingAdvances(others, o, h, todo, rewards, chosen);
  }

  lemma CallServes(db: Tables, others: map<Origin, Duty>, o: Origin, h: Id, reason: Reason)
    ensures Apply(State(db, others[o := Duty(h, Called(reason))]), ReadRewards(o, true)) ==
            State(Tick(db), Serving(others, o, h, TaskTypesFor(reason), db.rewards))
  {
  }

  lemma RewardsThenServes(db: Tables, others: map<Origin, Duty>, o: Origin, h: Id, reason: Reason, served: seq<Event>, minutes: nat, end: State)
    requires Serves(State(Tick(db), Serving(others, o, h, TaskTypesFor(reason), db.rewards)), served, o, TaskTypesFor(reason), minutes, end)
    ensures Assigns(State(db, others[o := Duty(h, Called(reason))]), [ReadRewards(o, true)] + served, o, reason, minutes, end)
  {
    CallServes(db, others, o, h, reason);
    assert ([ReadRewards(o, true)] + served)[1..] == served;
  }

  lemma OwedSplits(expired: map<Id, Id>, t: Id, others: map<Origin, Duty>)
    requires t in expired && forall u | u in expired :: ByChecker(u) !in others
    ensures others + Owed(expired) == (others + Owed(expired - {t}))[ByChecker(t) := Duty(expired[t], Loading)]
    ensures ByChecker(t) !in others + Owed(expired - {t})
  {
  }

  /** GetHitlItem and its check: the duty is called for a pending item and dropped for any other. */
  lemma LoadDecides(db: Tables, others: map<Origin, Duty>, o: Origin, h: Id)
    requires o !in others
    ensures Apply(State(db, others[o := Duty(h, Loading)]), Load(o)) ==
            State(Tick(db), if IsPending(db, h) then others[o := Duty(h, Called(db.hitls[h].reason))] else others)
  {
    assert Drop(others[o := Duty(h, Loading)], o) == others;
  }

  lemma ExpiryBegins(s: State, expired: map<Id, Id>)
    requires expired == map t | t in OverdueTasks(Tick(s.db)) :: Tick(s.db).tasks[t].hitl
    ensures Apply(s, ExpireOverdue) == State(ExpireOldTasks(Tick(s.db)), s.duties + Owed(expired))
  {
    assert DutiesOfExpiry(Tick(s.db)) == Owed(expired);
  }

  // ---------- One more round of a loop ----------

  lemma ServesMore(s: State, xs: seq<Event>, o: Origin, done: seq<TaskType>, mid: State, ys: seq<Event>, kind: TaskType, minutes: nat, end: State)
    requires Serves(s, xs, o, done, minutes, mid) && ServesOne(mid, ys, o, kind, minutes, end)
    ensures Serves(s, xs + ys, o, done + [kind], minutes, end)
  {
    var all, more := xs + ys, done + [kind];
    assert all[..|xs|] == xs && all[|xs|..] == ys && more[..|more| - 1] == done;
    assert Serves(s, all[..|xs|], o, more[..|more| - 1], minutes, mid);
  }

  lemma ReassignsMore(s: State, xs: seq<Event>, order: seq<Id>, mid: State, ys: seq<Event>, t: Id, minutes: nat, end: State)
    requires ReassignsAll(s, xs, order, minutes, mid) && Reassigns(mid, ys, ByChecker(t), minutes, end)
    ensures ReassignsAll(s, xs + ys, order + [t], minutes, end)
  {
    var all, more := xs + ys, order + [t];
    assert all[..|xs|] == xs && all[|xs|..] == ys && more[..|more| - 1] == order;
    assert ReassignsAll(s, all[..|xs|], more[..|more| - 1], minutes, mid);
  }

  /** How far the loop over the task types has come: the first k are served. */
  ghost predicate InTypes(start: State, events: seq<Event>, o: Origin, h: Id, types: seq<TaskType>, k: nat, rewards: map<TaskType, int>,
                          others: map<Origin, Duty>, db: Tables, minutes: nat)
    requires k <= |types|
  {
    Serves(start, events, o, types[..k], minutes, State(db, Serving(others, o, h, types[k..], rewards)))
  }

  lemma TypesGoOn(start: State, events: seq<Event>, o: Origin, h: Id, types: seq<TaskType>, k: nat, rewards: map<TaskType, int>,
                  others: map<Origin, Duty>, db: Tables, minutes: nat, more: seq<Event>, db': Tables)
    requires k < |types| && InTypes(start, events, o, h, types, k, rewards, others, db, minutes)
    requires ServesOne(State(db, Serving(others, o, h, types[k..], rewards)), more, o, types[k], minutes,
                       State(db', Serving(others, o, h, types[k + 1..], rewards)))
    ensures InTypes(start, events + more, o, h, types, k + 1, rewards, others, db', minutes)
  {
    var mid, end := State(db, Serving(others, o, h, types[k..], rewards)), State(db', Serving(others, o, h, types[k + 1..], rewards));
    assert types[..k + 1] == types[..k] + [types[k]];
    ServesMore(start, events, o, types[..k], mid, more, types[k], minutes, end);
  }

  /** How far the checker's loop has come: `rest` is still owed. */
  ghost predicate InLoop(start: State, events: seq<Event>, order: seq<Id>, expired: map<Id, Id>, rest: map<Id, Id>,
                         others: map<Origin, Duty>, db: Tables, minutes: nat) {
    && rest.Keys <= expired.Keys && (forall t | t in rest :: ByChecker(t) !in others)
    && Distinct(order) && Elements(order) == expired.Keys - rest.Keys
    && ReassignsAll(start, events, order, minutes, State(db, others + Owed(rest)))
  }

  lemma LoopGoesOn(start: State, events: seq<Event>, order: seq<Id>, expired: map<Id, Id>, rest: map<Id, Id>, others: map<Origin, Duty>,
                   db: Tables, minutes: nat, t: Id, more: seq<Event>, db': Tables)
    requires InLoop(start, events, order, expired, rest, others, db, minutes) && t in rest
    requires Reassigns(State(db, others + Owed(rest)), more, ByChecker(t), minutes, State(db', others + Owed(rest - {t})))
    ensures InLoop(start, events + more, order + [t], expired, rest - {t}, others, db', minutes)
  {
    ReassignsMore(start, events, order, State(db, others + Owed(rest)), more, t, minutes, State(db', others + Owed(rest - {t})));
    OneMoreElement(order, t);
    assert (rest - {t}).Keys == rest.Keys - {t};
  }

  lemma OneSkipped(db: Tables, others: map<Origin, Duty>, o: Origin, h: Id, todo: seq<TaskType>, rewards: map<TaskType, int>, minutes: nat)
    requires o !in others && todo != [] && Pool(db, ReviewerTypeFor(todo[0])) == {}
    ensures ServesOne(State(db, Serving(others, o, h, todo, rewards)), [SkipType(o)], o, todo[0], minutes,
                      State(Tick(db), Serving(others, o, h, todo[1..], rewards)))
  {
    SkipServes(db, others, o, h, todo, rewards);
  }

  lemma OnePicked(db: Tables, others: map<Origin, Duty>, o: Origin, h: Id, todo: seq<TaskType>, rewards: map<TaskType, int>, r: Id, minutes: nat)
    requires o !in others && todo != [] && IsNextReviewer(Tick(db), ReviewerTypeFor(todo[0]), r)
    ensures var expiresAt := db.clock + 1 + minutes;
      ServesOne(State(db, Serving(others, o, h, todo, rewards)), [Choose(o, r), Insert(o, expiresAt)], o, todo[0], minutes,
                State(InsertTask(Tick(Tick(db)), h, r, todo[0], RewardOf(rewards, todo[0]), expiresAt),
                      Serving(others, o, h, todo[1..], rewards)))
  {
    assert r in Pool(db, ReviewerTypeFor(todo[0]));
    PickServes(db, others, o, h, todo, rewards, r, db.clock + 1 + minutes);
  }

  // ---------- What is handed out ----------

  ghost predicate TasksKnown(db: Tables) {
    forall t | t in db.tasks :: t < db.nextId
  }

  /** The tasks of this item and type that are there now and were not before. */
  function NewTasks(db: Tables, db': Tables, h: Id, kind: TaskType): set<Id> {
    set t | t in db'.tasks && t !in db.tasks && db'.tasks[t].hitl == h && db'.tasks[t].kind == kind
  }

  /** Only task rows were added: sent ones, to active reviewers of the type, at the configured reward. */
  ghost predicate OnlyHandsOut(db: Tables, db': Tables, minutes: nat) {
    && db'.hitls == db.hitls && db'.reviewers == db.reviewers && db'.rewards == db.rewards && db'.ledger == db.ledger
    && db'.nextId >= db.nextId && db'.clock >= db.clock
    && (forall t | t in db.tasks :: t in db'.tasks && db'.tasks[t] == db.tasks[t])
    && (forall t | t in db'.tasks && t !in db.tasks :: db.nextId <= t < db'.nextId && HandedOut(db, db'.tasks[t], minutes))
  }

  ghost predicate HandedOut(db: Tables, t: Task, minutes: nat) {
    && t.status == Sent && t.hitl in db.hitls && t.reviewer in Pool(db, ReviewerTypeFor(t.kind))
    && t.reward == RewardOf(db.rewards, t.kind) && db.clock < t.sentAt && t.expiresAt == t.sentAt - 1 + minutes
  }

  /** Handing out, with n new tasks of this item and type. */
  ghost predicate HandsOut(db: Tables, db': Tables, minutes: nat, h: Id, kind: TaskType, n: nat) {
    OnlyHandsOut(db, db', minutes) && |NewTasks(db, db', h, kind)| == n
  }

  lemma OnlyHandsOutTwice(db: Tables, mid: Tables, db': Tables, minutes: nat)
    requires TasksKnown(db) && OnlyHandsOut(db, mid, minutes) && OnlyHandsOut(mid, db', minutes)
    ensures TasksKnown(mid) && OnlyHandsOut(db, db', minutes)
  {
    forall t | t in db'.tasks && t !in db.tasks ensures db.nextId <= t < db'.nextId && HandedOut(db, db'.tasks[t], minutes) {
      if t in mid.tasks {
        assert HandedOut(db, mid.tasks[t], minutes);
      } else {
        assert HandedOut(mid, db'.tasks[t], minutes);
      }
    }
  }

  lemma NewTasksAdd(db: Tables, mid: Tables, db': Tables, h: Id, kind: TaskType)
    requires forall t | t in db.tasks :: t in mid.tasks
    requires forall t | t in mid.tasks :: t in db'.tasks && db'.tasks[t] == mid.tasks[t]
    ensures |NewTasks(db, db', h, kind)| == |NewTasks(db, mid, h, kind)| + |NewTasks(mid, db', h, kind)|
  {
    assert NewTasks(db, db', h, kind) == NewTasks(db, mid, h, kind) + NewTasks(mid, db', h, kind);
    assert NewTasks(db, mid, h, kind) !! NewTasks(mid, db', h, kind);
  }

  lemma HandsOutTwice(db: Tables, mid: Tables, db': Tables, minutes: nat, h: Id, kind: TaskType, m: nat, n: nat)
    requires TasksKnown(db) && HandsOut(db, mid, minutes, h, kind, m) && HandsOut(mid, db', minutes, h, kind, n)
    ensures TasksKnown(mid) && HandsOut(db, db', minutes, h, kind, m + n)
  {
    OnlyHandsOutTwice(db, mid, db', minutes);
    NewTasksAdd(db, mid, db', h, kind);
  }

  lemma NothingHandedOut(db: Tables, clock: nat, minutes: nat, h: Id, kind: TaskType)
    requires TasksKnown(db) && clock >= db.clock
    ensures TasksKnown(db.(clock := clock)) && HandsOut(db, db.(clock := clock), minutes, h, kind, 0)
  {
    assert NewTasks(db, db.(clock := clock), h, kind) == {};
  }

  lemma OneNewTask(db: Tables, db': Tables, n: Id, row: Task, q: Id, k: TaskType)
    requires db'.tasks == db.tasks[n := row] && n !in db.tasks
    ensures NewTasks(db, db', q, k) == if row.hitl == q && row.kind == k then {n} else {}
  {
  }

  lemma InsertHandsOut(db: Tables, h: Id, r: Id, kind: TaskType, minutes: nat, q: Id, k: TaskType)
    requires TasksKnown(db) && r in Pool(db, ReviewerTypeFor(kind))
    ensures var db' := InsertTask(Tick(Tick(db)), h, r, kind, RewardOf(db.rewards, kind), db.clock + 1 + minutes);
      TasksKnown(db') && HandsOut(db, db', minutes, q, k, if q == h && k == kind && h in db.hitls then 1 else 0)
  {
    if h in db.hitls {
      var db' := InsertTask(Tick(Tick(db)), h, r, kind, RewardOf(db.rewards, kind), db.clock + 1 + minutes);
      OneNewTask(db, db', db.nextId, db'.tasks[db.nextId], q, k);
    } else {
      NothingHandedOut(db, db.clock + 2, minutes, q, k);
    }
  }

  /** The item exists, its reason asks for this task type, and somebody active can serve it. */
  ghost predicate Served(db: Tables, h: Id, reason: Reason, kind: TaskType) {
    h in db.hitls && kind in TaskTypesFor(reason) && Pool(db, ReviewerTypeFor(kind)) != {}
  }

  /** The item is pending, its reason asks for this task type, and somebody active can serve it. */
  ghost predicate Due(db: Tables, h: Id, kind: TaskType) {
    IsPending(db, h) && Served(db, h, db.hitls[h].reason, kind)
  }

  /** How many tasks of the type serving this list gives the item. */
  ghost function Handed(db: Tables, h: Id, todo: seq<TaskType>, kind: TaskType): nat {
    if h in db.hitls && Pool(db, ReviewerTypeFor(kind)) != {} then multiset(todo)[kind] else 0
  }

  lemma HandedStays(db: Tables, db': Tables, minutes: nat, h: Id, todo: seq<TaskType>, kind: TaskType)
    requires OnlyHandsOut(db, db', minutes)
    ensures Handed(db', h, todo, kind) == Handed(db, h, todo, kind) && (Due(db', h, kind) <==> Due(db, h, kind))
  {
    assert Pool(db', ReviewerTypeFor(kind)) == Pool(db, ReviewerTypeFor(kind));
  }

  lemma HandedGrows(db: Tables, h: Id, todo: seq<TaskType>, last: TaskType, kind: TaskType)
    ensures Handed(db, h, todo + [last], kind) == Handed(db, h, todo, kind) + Handed(db, h, [last], kind)
  {
  }

  lemma HandedOnce(db: Tables, h: Id, kind: TaskType, k: TaskType)
    requires Pool(db, ReviewerTypeFor(kind)) != {}
    ensures Handed(db, h, [kind], k) == if k == kind && h in db.hitls then 1 else 0
  {
  }

  lemma PickHandsOut(db: Tables, r: Id, h: Id, kind: TaskType, minutes: nat, q: Id, k: TaskType)
    requires TasksKnown(db) && r in Pool(db, ReviewerTypeFor(kind))
    ensures var db' := InsertTask(Tick(Tick(db)), h, r, kind, RewardOf(db.rewards, kind), db.clock + 1 + minutes);
      HandsOut(db, db', minutes, q, k, if q == h then Handed(db, h, [kind], k) else 0)
  {
    InsertHandsOut(db, h, r, kind, minutes, q, k);
    HandedOnce(db, h, kind, k);
  }

  lemma OneComesTo(db: Tables, events: seq<Event>, others: map<Origin, Duty>, o: Origin, h: Id, todo: seq<TaskType>,
                   minutes: nat, end: State) returns (r: Id)
    requires o !in others && todo != [] && Pool(db, ReviewerTypeFor(todo[0])) != {}
    requires ServesOne(State(db, Serving(others, o, h, todo, db.rewards)), events, o, todo[0], minutes, end)
    ensures r in Pool(db, ReviewerTypeFor(todo[0]))
    ensures end == State(InsertTask(Tick(Tick(db)), h, r, todo[0], RewardOf(db.rewards, todo[0]), db.clock + 1 + minutes),
                         Serving(others, o, h, todo[1..], db.rewards))
  {
    r := events[0].reviewer;
    PickServes(db, others, o, h, todo, db.rewards, r, db.clock + 1 + minutes);
  }

  lemma OneSkips(db: Tables, events: seq<Event>, others: map<Origin, Duty>, o: Origin, h: Id, todo: seq<TaskType>,
                 minutes: nat, end: State)
    requires o !in others && todo != [] && Pool(db, ReviewerTypeFor(todo[0])) == {}
    requires ServesOne(State(db, Serving(others, o, h, todo, db.rewards)), events, o, todo[0], minutes, end)
    ensures end == State(Tick(db), Serving(others, o, h, todo[1..], db.rewards))
  {
    SkipServes(db, others, o, h, todo, db.rewards);
  }

  lemma OneHandsOut(db: Tables, events: seq<Event>, others: map<Origin, Duty>, o: Origin, h: Id, todo: seq<TaskType>,
                    minutes: nat, end: State, q: Id, k: TaskType)
    requires o !in others && TasksKnown(db) && todo != []
    requires ServesOne(State(db, Serving(others, o, h, todo, db.rewards)), events, o, todo[0], minutes, end)
    ensures end.duties == Serving(others, o, h, todo[1..], db.rewards)
    ensures HandsOut(db, end.db, minutes, q, k, if q == h then Handed(db, h, [todo[0]], k) else 0)
  {
    if Pool(db, ReviewerTypeFor(todo[0])) == {} {
      OneSkips(db, events, others, o, h, todo, minutes, end);
      NothingHandedOut(db, db.clock + 1, minutes, q, k);
    } else {
      var r := OneComesTo(db, events, others, o, h, todo, minutes, end);
      PickHandsOut(db, r, h, todo[0], minutes, q, k);
    }
  }

  lemma {:induction false} ServesHandsOut(db: Tables, events: seq<Event>, others: map<Origin, Duty>, o: Origin, h: Id, todo: seq<TaskType>,
                                          n: nat, minutes: nat, end: State, q: Id, k: TaskType)
    requires o !in others && TasksKnown(db) && n <= |todo|
    requires Serves(State(db, Serving(others, o, h, todo, db.rewards)), events, o, todo[..n], minutes, end)
    ensures end.duties == Serving(others, o, h, todo[n..], db.rewards)
    ensures HandsOut(db, end.db, minutes, q, k, if q == h then Handed(db, h, todo[..n], k) else 0)
    decreases n
  {
    if n == 0 {
      NothingServed(db, h, todo, minutes, q, k);
    } else {
      var m, mid := NthServed(State(db, Serving(others, o, h, todo, db.rewards)), events, o, todo, n, minutes, end);
      ServesHandsOut(db, events[..m], others, o, h, todo, n - 1, minutes, mid, q, k);
      OneMoreServed(db, mid, events[m..], others, o, h, todo, n, minutes, end, q, k);
    }
  }

  lemma NothingServed(db: Tables, h: Id, todo: seq<TaskType>, minutes: nat, q: Id, k: TaskType)
    requires TasksKnown(db)
    ensures todo[..0] == [] && todo[0..] == todo && Handed(db, h, todo[..0], k) == 0
    ensures HandsOut(db, db, minutes, q, k, 0)
  {
    NothingHandedOut(db, db.clock, minutes, q, k);
  }

  lemma NthServed(s: State, events: seq<Event>, o: Origin, todo: seq<TaskType>, n: nat, minutes: nat, end: State) returns (m: nat, mid: State)
    requires 0 < n <= |todo| && Serves(s, events, o, todo[..n], minutes, end)
    ensures m <= |events| && Serves(s, events[..m], o, todo[..n - 1], minutes, mid)
    ensures ServesOne(mid, events[m..], o, todo[n - 1], minutes, end)
  {
    m, mid := LastServed(s, events, o, todo[..n], minutes, end);
    assert todo[..n][..n - 1] == todo[..n - 1];
  }

  lemma OneMoreServed(db: Tables, mid: State, events: seq<Event>, others: map<Origin, Duty>, o: Origin, h: Id, todo: seq<TaskType>,
                      n: nat, minutes: nat, end: State, q: Id, k: TaskType)
    requires o !in others && TasksKnown(db) && 0 < n <= |todo|
    requires mid.duties == Serving(others, o, h, todo[n - 1..], db.rewards)
    requires HandsOut(db, mid.db, minutes, q, k, if q == h then Handed(db, h, todo[..n - 1], k) else 0)
    requires ServesOne(mid, events, o, todo[n - 1], minutes, end)
    ensures end.duties == Serving(others, o, h, todo[n..], db.rewards)
    ensures HandsOut(db, end.db, minutes, q, k, if q == h then Handed(db, h, todo[..n], k) else 0)
  {
    var rest := todo[n - 1..];
    assert rest[1..] == todo[n..] && todo[..n] == todo[..n - 1] + [todo[n - 1]];
    assert TasksKnown(mid.db);
    OneHandsOut(mid.db, events, others, o, h, rest, minutes, end, q, k);
    HandedStays(db, mid.db, minutes, h, [todo[n - 1]], k);
    HandedGrows(db, h, todo[..n - 1], todo[n - 1], k);
    HandsOutTwice(db, mid.db, end.db, minutes, q, k, if q == h then Handed(db, h, todo[..n - 1], k) else 0,
                  if q == h then Handed(db, h, [todo[n - 1]], k) else 0);
  }

  lemma AssignsHandsOut(db: Tables, events: seq<Event>, others: map<Origin, Duty>, o: Origin, h: Id, reason: Reason,
                        minutes: nat, end: State, q: Id, k: TaskType)
    requires o !in others && TasksKnown(db)
    requires Assigns(State(db, others[o := Duty(h, Called(reason))]), events, o, reason, minutes, end)
    ensures end.duties == others && HandsOut(db, end.db, minutes, q, k, if q == h && Served(db, h, reason, k) then 1 else 0)
  {
    var todo := TaskTypesFor(reason);
    CallServes(db, others, o, h, reason);
    assert todo[..|todo|] == todo && todo[|todo|..] == [];
    NothingHandedOut(db, db.clock + 1, minutes, q, k);
    ServesHandsOut(Tick(db), events[1..], others, o, h, todo, |todo|, minutes, end, q, k);
    HandedStays(db, Tick(db), minutes, h, todo, k);
    HandsOutTwice(db, Tick(db), end.db, minutes, q, k, 0, if q == h then Handed(db, h, todo, k) else 0);
  }

  lemma ReassignsHandsOut(db: Tables, events: seq<Event>, others: map<Origin, Duty>, o: Origin, h: Id,
                          minutes: nat, end: State, q: Id, k: TaskType)
    requires o !in others && TasksKnown(db)
    requires Reassigns(State(db, others[o := Duty(h, Loading)]), events, o, minutes, end)
    ensures end.duties == others && HandsOut(db, end.db, minutes, q, k, if q == h && Due(db, h, k) then 1 else 0)
  {
    LoadDecides(db, others, o, h);
    NothingHandedOut(db, db.clock + 1, minutes, q, k);
    if IsPending(db, h) {
      AssignsHandsOut(Tick(db), events[1..], others, o, h, db.hitls[h].reason, minutes, end, q, k);
      HandedStays(db, Tick(db), minutes, h, [], k);
      HandsOutTwice(db, Tick(db), end.db, minutes, q, k, 0, if q == h && Due(db, h, k) then 1 else 0);
    }
  }

  /** What AssignForHitl comes to: the item gets one task of each type that its reason asks for and somebody
      active can serve; no other item gets any. */
  ghost predicate Assigned(db: Tables, db': Tables, h: Id, reason: Reason, minutes: nat) {
    && OnlyHandsOut(db, db', minutes)
    && forall q, k :: |NewTasks(db, db', q, k)| == if q == h && Served(db, h, reason, k) then 1 else 0
  }

  lemma AssignsComesTo(db: Tables, events: seq<Event>, others: map<Origin, Duty>, o: Origin, h: Id, reason: Reason, minutes: nat, end: State)
    requires o !in others && TasksKnown(db)
    requires Assigns(State(db, others[o := Duty(h, Called(reason))]), events, o, reason, minutes, end)
    ensures end.duties == others && Assigned(db, end.db, h, reason, minutes)
  {
    AssignsHandsOut(db, events, others, o, h, reason, minutes, end, h, TextVerification);
    forall q, k ensures |NewTasks(db, end.db, q, k)| == if q == h && Served(db, h, reason, k) then 1 else 0 {
      AssignsHandsOut(db, events, others, o, h, reason, minutes, end, q, k);
    }
  }

  /** What the checker does for one expired task: the item, if it is pending, gets its tasks; else nobody does. */
  ghost predicate Reassigned(db: Tables, db': Tables, h: Id, minutes: nat) {
    && OnlyHandsOut(db, db', minutes)
    && forall q, k :: |NewTasks(db, db', q, k)| == if q == h && Due(db, h, k) then 1 else 0
  }

  lemma ReassignsComesTo(db: Tables, events: seq<Event>, others: map<Origin, Duty>, o: Origin, h: Id, minutes: nat, end: State)
    requires o !in others && TasksKnown(db)
    requires Reassigns(State(db, others[o := Duty(h, Loading)]), events, o, minutes, end)
    ensures end.duties == others && Reassigned(db, end.db, h, minutes)
  {
    ReassignsHandsOut(db, events, others, o, h, minutes, end, h, TextVerification);
    forall q, k ensures |NewTasks(db, end.db, q, k)| == if q == h && Due(db, h, k) then 1 else 0 {
      ReassignsHandsOut(db, events, others, o, h, minutes, end, q, k);
    }
  }

  // ---------- One tick ----------

  /** The tasks among these that belong to the item. */
  function TasksOf(expired: map<Id, Id>, done: set<Id>, h: Id): set<Id> {
    set t | t in expired && t in done && expired[t] == h
  }

  lemma TasksOfGrows(expired: map<Id, Id>, done: set<Id>, t: Id, h: Id)
    requires t in expired && t !in done
    ensures |TasksOf(expired, done + {t}, h)| == |TasksOf(expired, done, h)| + if expired[t] == h then 1 else 0
  {
    if expired[t] == h {
      assert TasksOf(expired, done + {t}, h) == TasksOf(expired, done, h) + {t};
    } else {
      assert TasksOf(expired, done + {t}, h) == TasksOf(expired, done, h);
    }
  }

  /** After these tasks have been dealt with: the other duties are left, and each item has its new tasks. */
  ghost predicate DealtWith(db: Tables, s: State, done: set<Id>, expired: map<Id, Id>, others: map<Origin, Duty>, minutes: nat, q: Id, k: TaskType) {
    && s.duties == others + Owed(expired - done)
    && HandsOut(db, s.db, minutes, q, k, if Due(db, q, k) then |TasksOf(expired, done, q)| else 0)
  }

  lemma {:induction false} ReassignsAllHandsOut(db: Tables, events: seq<Event>, order: seq<Id>, expired: map<Id, Id>,
                                                others: map<Origin, Duty>, minutes: nat, end: State, q: Id, k: TaskType)
    requires TasksKnown(db) && Distinct(order) && Elements(order) <= expired.Keys
    requires forall t | t in expired :: ByChecker(t) !in others
    requires ReassignsAll(State(db, others + Owed(expired)), events, order, minutes, end)
    ensures DealtWith(db, end, Elements(order), expired, others, minutes, q, k)
    decreases |order|
  {
    if order == [] {
      NobodyReassigned(db, expired, others, minutes, q, k);
    } else {
      var s, before, t := State(db, others + Owed(expired)), order[..|order| - 1], order[|order| - 1];
      var n, mid := LastReassigned(s, events, order, minutes, end);
      LastElement(order);
      ReassignsAllHandsOut(db, events[..n], before, expired, others, minutes, mid, q, k);
      OneMoreReassigned(db, mid, events[n..], Elements(before), t, expired, others, minutes, end, q, k);
    }
  }

  lemma NobodyReassigned(db: Tables, expired: map<Id, Id>, others: map<Origin, Duty>, minutes: nat, q: Id, k: TaskType)
    requires TasksKnown(db)
    ensures DealtWith(db, State(db, others + Owed(expired)), Elements([]), expired, others, minutes, q, k)
  {
    assert Elements([]) == {} && expired - {} == expired && TasksOf(expired, {}, q) == {};
    NothingHandedOut(db, db.clock, minutes, q, k);
  }

  lemma OneLessOwed(expired: map<Id, Id>, done: set<Id>, t: Id, others: map<Origin, Duty>)
    requires t in expired && t !in done && forall u | u in expired :: ByChecker(u) !in others
    ensures var rest := others + Owed(expired - (done + {t}));
      others + Owed(expired - done) == rest[ByChecker(t) := Duty(expired[t], Loading)] && ByChecker(t) !in rest
  {
    OwedSplits(expired - done, t, others);
    assert (expired - done) - {t} == expired - (done + {t});
  }

  lemma OneMoreReassigned(db: Tables, mid: State, events: seq<Event>, done: set<Id>, t: Id, expired: map<Id, Id>,
                          others: map<Origin, Duty>, minutes: nat, end: State, q: Id, k: TaskType)
    requires TasksKnown(db) && t in expired && t !in done && forall u | u in expired :: ByChecker(u) !in others
    requires DealtWith(db, mid, done, expired, others, minutes, q, k)
    requires Reassigns(mid, events, ByChecker(t), minutes, end)
    ensures DealtWith(db, end, done + {t}, expired, others, minutes, q, k)
  {
    OneLessOwed(expired, done, t, others);
    ReassignsHandsOut(mid.db, events, others + Owed(expired - (done + {t})), ByChecker(t), expired[t], minutes, end, q, k);
    HandedStays(db, mid.db, minutes, q, [], k);
    TasksOfGrows(expired, done, t, q);
    HandsOutTwice(db, mid.db, end.db, minutes, q, k, if Due(db, q, k) then |TasksOf(expired, done, q)| else 0,
                  if q == expired[t] && Due(db, q, k) then 1 else 0);
  }

  lemma LastElement(order: seq<Id>)
    requires Distinct(order) && order != []
    ensures var before, t := order[..|order| - 1], order[|order| - 1];
      && Distinct(before) && t !in Elements(before)
      && Elements(order) == Elements(before) + {t}
  {
    assert order == order[..|order| - 1] + [order[|order| - 1]];
  }

  /** The overdue tasks of an item. */
  function OverdueOf(db: Tables, h: Id): set<Id> {
    set t | t in OverdueTasks(db) && db.tasks[t].hitl == h
  }

  /** One tick of the checker expires the overdue tasks; then an item that is pending gets, of each type its
      reason asks for and somebody active can serve, one new task per overdue task; no other item gets any. */
  lemma CheckHandsOut(s: State, events: seq<Event>, order: seq<Id>, minutes: nat, end: State, h: Id, kind: TaskType)
    requires TasksKnown(s.db) && Checks(s, events, order, minutes, end)
    requires forall t | t in OverdueTasks(Tick(s.db)) :: ByChecker(t) !in s.duties
    ensures end.duties == s.duties
    ensures HandsOut(ExpireOldTasks(Tick(s.db)), end.db, minutes, h, kind, if Due(s.db, h, kind) then |OverdueOf(Tick(s.db), h)| else 0)
  {
    var expired := map t | t in OverdueTasks(Tick(s.db)) :: Tick(s.db).tasks[t].hitl;
    ExpiryBegins(s, expired);
    ExpiredHandsOut(s.db, events[1..], order, expired, s.duties, minutes, end, h, kind);
  }

  lemma ExpiredHandsOut(db: Tables, events: seq<Event>, order: seq<Id>, expired: map<Id, Id>, others: map<Origin, Duty>,
                        minutes: nat, end: State, h: Id, kind: TaskType)
    requires TasksKnown(db) && Distinct(order) && Elements(order) == expired.Keys
    requires expired == map t | t in OverdueTasks(Tick(db)) :: Tick(db).tasks[t].hitl
    requires forall t | t in expired :: ByChecker(t) !in others
    requires ReassignsAll(State(ExpireOldTasks(Tick(db)), others + Owed(expired)), events, order, minutes, end)
    ensures end.duties == others
    ensures HandsOut(ExpireOldTasks(Tick(db)), end.db, minutes, h, kind, if Due(db, h, kind) then |OverdueOf(Tick(db), h)| else 0)
  {
    assert TasksKnown(ExpireOldTasks(Tick(db)));
    ReassignsAllHandsOut(ExpireOldTasks(Tick(db)), events, order, expired, others, minutes, end, h, kind);
    NothingOwed(db, expired, others, h);
    ExpiryLeavesDue(db, h, kind);
  }

  lemma NothingOwed(db: Tables, expired: map<Id, Id>, others: map<Origin, Duty>, h: Id)
    requires expired == map t | t in OverdueTasks(Tick(db)) :: Tick(db).tasks[t].hitl
    ensures others + Owed(expired - expired.Keys) == others
    ensures TasksOf(expired, expired.Keys, h) == OverdueOf(Tick(db), h)
  {
  }

  lemma ExpiryLeavesDue(db: Tables, h: Id, kind: TaskType)
    ensures Due(ExpireOldTasks(Tick(db)), h, kind) <==> Due(db, h, kind)
  {
    assert Pool(ExpireOldTasks(Tick(db)), ReviewerTypeFor(kind)) == Pool(db, ReviewerTypeFor(kind));
  }

  /** What one tick of the checker comes to, for all items and types. */
  ghost predicate Checked(db: Tables, db': Tables, minutes: nat) {
    var now := ExpireOldTasks(Tick(db));
    && OnlyHandsOut(now, db', minutes)
    && forall h, kind :: |NewTasks(now, db', h, kind)| == if Due(db, h, kind) then |OverdueOf(Tick(db), h)| else 0
  }

  lemma CheckComesTo(s: State, events: seq<Event>, order: seq<Id>, minutes: nat, end: State)
    requires TasksKnown(s.db) && Checks(s, events, order, minutes, end)
    requires forall t | t in OverdueTasks(Tick(s.db)) :: ByChecker(t) !in s.duties
    ensures end.duties == s.duties && Checked(s.db, end.db, minutes)
  {
    CheckHandsOut(s, events, order, minutes, end, 0, TextVerification);
    var now := ExpireOldTasks(Tick(s.db));
    forall h, kind ensures |NewTasks(now, end.db, h, kind)| == if Due(s.db, h, kind) then |OverdueOf(Tick(s.db), h)| else 0 {
      CheckHandsOut(s, events, order, minutes, end, h, kind);
    }
  }

  /** In a reachable state, an item that came from a worker and is overdue is overdue once: after the tick it
      has exactly one new task of its type, if it is pending and somebody active can serve it, and none if not. */
  lemma CheckReassignsOnce(past: seq<Event>, events: seq<Event>, order: seq<Id>, minutes: nat, end: State, h: Id, t: Id, kind: TaskType)
    requires FromWorker(INITIAL, past, h)
    requires var s := Run(INITIAL, past);
             Checks(s, events, order, minutes, end) && t in OverdueTasks(Tick(s.db)) && s.db.tasks[t].hitl == h
    ensures var db := ExpireOldTasks(Tick(Run(INITIAL, past).db));
      HandsOut(db, end.db, minutes, h, kind, if Due(db, h, kind) then 1 else 0)
  {
    var s := Run(INITIAL, past);
    RunKeepsBase(INITIAL, past);
    NotYetOwed(s);
    CheckHandsOut(s, events, order, minutes, end, h, kind);
    OverdueOnce(past, h, t);
    ExpiryLeavesDue(s.db, h, kind);
  }

  /** Nobody is still dealing with a task that is only now overdue. */
  lemma NotYetOwed(s: State)
    requires Base(s)
    ensures forall u | u in OverdueTasks(Tick(s.db)) :: ByChecker(u) !in s.duties
  {
    assert forall o | o in s.duties :: DutyOk(s.db, o, s.duties[o]);
  }

  lemma OverdueOnce(past: seq<Event>, h: Id, t: Id)
    requires FromWorker(INITIAL, past, h)
    requires var s := Run(INITIAL, past); t in OverdueTasks(Tick(s.db)) && s.db.tasks[t].hitl == h
    ensures |OverdueOf(Tick(Run(INITIAL, past).db), h)| == 1
  {
    OneLiveTaskOrDuty(past, h);
    var s := Run(INITIAL, past);
    var due := OverdueOf(Tick(s.db), h);
    assert due <= LiveTasks(s, h) && t in due;
    SubsetIsSmaller(due, LiveTasks(s, h));
    assert |due| == 1;
  }
}
