/** The reviewer store and the reviewer service as programs: every statement is one step of the tables,
    and the service's loops are runs of the protocol in which nobody else takes a step. */
module ReviewerService {
  import opened Records
  import opened ReviewerTables
  import opened ReviewerProtocol
  import opened ReviewerRuns
  import opened Ids

  class Store {
    var hitls: map<Id, Hitl>
    var tasks: map<Id, Task>
    var reviewers: map<Id, Reviewer>
    var rewards: map<TaskType, int>
    var clock: nat
    var nextId: Id
    ghost var ledger: seq<Payment>

    ghost function Db(): Tables
      reads this
    {
      Tables(hitls, tasks, reviewers, rewards, clock, nextId, ledger)
    }

    constructor ()
      ensures Db() == EMPTY
    {
      hitls, tasks, reviewers, rewards, clock, nextId, ledger := map[], map[], map[], SEEDED, 0, 0, [];
    }

    method CreateHitlItem(item: Id, reason: Reason) returns (id: Id)
      modifies this
      ensures Db() == InsertHitl(Tick(old(Db())), item, reason)
      ensures id == old(nextId) && hitls == old(hitls)[id := Hitl(item, reason, Pending)] && tasks == old(tasks)
    {
      clock := clock + 1;
      id := nextId;
      hitls, nextId := hitls[id := Hitl(item, reason, Pending)], nextId + 1;
    }

    method ResolveHitlItem(id: Id) returns (found: bool)
      modifies this
      ensures Db() == ResolveHitl(Tick(old(Db())), id)
      ensures found == (id in old(hitls))
      ensures hitls == if found then old(hitls)[id := old(hitls)[id].(status := Resolved)] else old(hitls)
    {
      clock := clock + 1;
      found := id in hitls;
      if found {
        hitls := hitls[id := hitls[id].(status := Resolved)];
      }
    }

    method CreateReviewerTaskWithExpiry(h: Id, r: Id, kind: TaskType, reward: int, expiresAt: int) returns (ok: bool)
      modifies this
      ensures Db() == InsertTask(Tick(old(Db())), h, r, kind, reward, expiresAt)
      ensures ok == (h in old(hitls) && r in old(reviewers))
      ensures tasks == if ok then old(tasks)[old(nextId) := Task(h, r, kind, Sent, reward, clock, expiresAt)] else old(tasks)
    {
      clock := clock + 1;
      ok := h in hitls && r in reviewers;
      if ok {
        tasks, nextId := tasks[nextId := Task(h, r, kind, Sent, reward, clock, expiresAt)], nextId + 1;
      }
    }

    method AcceptReviewerTask(id: Id) returns (ok: bool)
      modifies this
      ensures Db() == AcceptTask(Tick(old(Db())), id)
      ensures ok == (id in old(tasks) && old(tasks)[id].status == Sent)
      ensures tasks == if ok then old(tasks)[id := old(tasks)[id].(status := Accepted)] else old(tasks)
    {
      clock := clock + 1;
      ok := id in tasks && tasks[id].status == Sent;
      if ok {
        tasks := tasks[id := tasks[id].(status := Accepted)];
      }
    }

    method CompleteReviewerTask(id: Id) returns (ok: bool)
      modifies this
      ensures Db() == CompleteTask(Tick(old(Db())), id)
      ensures ok == (id in old(tasks) && (old(tasks)[id].status == Sent || old(tasks)[id].status == Accepted))
      ensures tasks == if ok then old(tasks)[id := old(tasks)[id].(status := Completed)] else old(tasks)
      ensures reviewers.Keys == old(reviewers).Keys
      ensures forall r | r in reviewers ::
                if ok && r == old(tasks)[id].reviewer
                then reviewers[r] == old(reviewers)[r].(earned := old(reviewers)[r].earned + old(tasks)[id].reward,
                                                        pendingPayout := old(reviewers)[r].pendingPayout + old(tasks)[id].reward)
                else reviewers[r] == old(reviewers)[r]
    {
      clock := clock + 1;
      ok := id in tasks && (tasks[id].status == Sent || tasks[id].status == Accepted);
      if ok {
        var t := tasks[id];
        tasks := tasks[id := t.(status := Completed)];
        if t.reviewer in reviewers {
          reviewers := reviewers[t.reviewer := Credit(reviewers[t.reviewer], t.reward)];
        }
        ledger := ledger + [Payment(id, t.hitl, t.reviewer, t.reward)];
      }
    }

    method ExpireOld() returns (expired: map<Id, Id>)
      modifies this
      ensures Db() == ExpireOldTasks(Tick(old(Db())))
      ensures expired == map t | t in OverdueTasks(Tick(old(Db()))) :: old(tasks)[t].hitl
      ensures forall t :: t in expired <==> t in old(tasks) && old(tasks)[t].status == Sent && old(tasks)[t].expiresAt < clock
      ensures tasks == map t | t in old(tasks) :: if t in expired then old(tasks)[t].(status := Expired) else old(tasks)[t]
    {
      clock := clock + 1;
      expired := map t | t in tasks && Overdue(tasks[t], clock) :: tasks[t].hitl;
      tasks := map t | t in tasks :: if Overdue(tasks[t], clock) then tasks[t].(status := Expired) else tasks[t];
    }

    /** The inner query of the round robin: the latest sent_at of a reviewer's tasks. */
    method LatestSent(r: Id) returns (m: nat)
      ensures m == LastSent(Db(), r)
      ensures forall t | t in tasks && tasks[t].reviewer == r :: tasks[t].sentAt <= m
      ensures m == 0 || exists t :: t in tasks && tasks[t].reviewer == r && tasks[t].sentAt == m
    {
      m := 0;
      var rest := tasks.Keys;
      while rest != {}
        invariant rest <= tasks.Keys
        invariant forall t | t in tasks && t !in rest && tasks[t].reviewer == r :: tasks[t].sentAt <= m
        invariant m == 0 || m in SentTimes(Db(), r)
      {
        var t :| t in rest;
        if tasks[t].reviewer == r && m < tasks[t].sentAt {
          m := tasks[t].sentAt;
        }
        rest := rest - {t};
      }
      assert forall x | x in SentTimes(Db(), r) :: x <= m;
      LastSentIs(Db(), r);
    }

    /** Finds somebody exactly if there is an active reviewer of the type, and then an active one of the type to
        whom no task was sent later than to any other. */
    method NextReviewerRoundRobin(kind: ReviewerType) returns (found: bool, r: Id)
      modifies this`clock
      ensures Db() == Tick(old(Db()))
      ensures found <==> exists q :: q in reviewers && reviewers[q].active && reviewers[q].kind == kind
      ensures found ==> r in reviewers && reviewers[r].active && reviewers[r].kind == kind
      ensures found ==> forall q | q in reviewers && reviewers[q].active && reviewers[q].kind == kind ::
                          LastSent(Db(), r) <= LastSent(Db(), q)
      ensures found <==> Pool(Db(), kind) != {}
      ensures found ==> IsNextReviewer(Db(), kind, r)
    {
      clock := clock + 1;
      found, r := false, 0;
      var best := 0;
      var pool := ActiveReviewers(kind);
      var rest := pool;
      while rest != {}
        invariant rest <= pool
        invariant Db() == Tick(old(Db()))
        invariant found <==> rest != pool
        invariant found ==> r in pool && best == LastSent(Db(), r)
        invariant found ==> forall q | q in pool - rest :: best <= LastSent(Db(), q)
      {
        var q :| q in rest;
        var last := LatestSent(q);
        if !found || last < best {
          found, r, best := true, q, last;
        }
        rest := rest - {q};
      }
      if found {
        NextReviewerIff(Db(), kind, r);
      }
      assert forall q :: q in pool <==> q in reviewers && reviewers[q].active && reviewers[q].kind == kind;
    }

    method ActiveReviewers(kind: ReviewerType) returns (pool: set<Id>)
      ensures forall r :: r in pool <==> r in reviewers && reviewers[r].active && reviewers[r].kind == kind
      ensures pool == Pool(Db(), kind)
    {
      pool := set r | r in reviewers && reviewers[r].kind == kind && reviewers[r].active;
    }

    /** AssignForHitl, undisturbed: its duty is served from the call to the end, which gives the item one new
        task of each type that its reason asks for and somebody active can serve, and nothing else. */
    method AssignForHitl(h: Id, reason: Reason, expireMinutes: nat, ghost o: Origin, ghost others: map<Origin, Duty>)
      returns (ghost events: seq<Event>)
      requires o !in others
      modifies this
      ensures Assigns(State(old(Db()), others[o := Duty(h, Called(reason))]), events, o, reason, expireMinutes, State(Db(), others))
      ensures TasksKnown(old(Db())) ==> Assigned(old(Db()), Db(), h, reason, expireMinutes)
    {
      ghost var db := Db();
      clock := clock + 1;
      ghost var served := ServeTypes(h, TaskTypesFor(reason), rewards, expireMinutes, o, others);
      events := [ReadRewards(o, true)] + served;
      RewardsThenServes(db, others, o, h, reason, served, expireMinutes, State(Db(), others));
      if TasksKnown(db) {
        AssignsComesTo(db, events, others, o, h, reason, expireMinutes, State(Db(), others));
      }
    }

    /** The loop of AssignForHitl over the task types. */
    method ServeTypes(h: Id, types: seq<TaskType>, rewardMap: map<TaskType, int>, expireMinutes: nat,
                      ghost o: Origin, ghost others: map<Origin, Duty>)
      returns (ghost served: seq<Event>)
      requires o !in others
      modifies this
      ensures Serves(State(old(Db()), Serving(others, o, h, types, rewardMap)), served, o, types, expireMinutes, State(Db(), others))
    {
      ghost var start := State(Db(), Serving(others, o, h, types, rewardMap));
      served := [];
      var k := 0;
      while k < |types|
        invariant 0 <= k <= |types|
        invariant InTypes(start, served, o, h, types, k, rewardMap, others, Db(), expireMinutes)
      {
        ghost var db := Db();
        assert types[k..][1..] == types[k + 1..];
        ghost var more := ServeType(h, types[k], rewardMap, expireMinutes, o, others, types[k..]);
        TypesGoOn(start, served, o, h, types, k, rewardMap, others, db, expireMinutes, more, Db());
        served := served + more;
        k := k + 1;
      }
      assert types[..k] == types;
    }

    /** The body of that loop: one task type, for the next reviewer if there is one. */
    method ServeType(h: Id, taskType: TaskType, rewardMap: map<TaskType, int>, expireMinutes: nat,
                     ghost o: Origin, ghost others: map<Origin, Duty>, ghost todo: seq<TaskType>)
      returns (ghost more: seq<Event>)
      requires o !in others && todo != [] && todo[0] == taskType
      modifies this
      ensures ServesOne(State(old(Db()), Serving(others, o, h, todo, rewardMap)), more, o, taskType, expireMinutes,
                        State(Db(), Serving(others, o, h, todo[1..], rewardMap)))
    {
      ghost var db := Db();
      var found, r := NextReviewerRoundRobin(ReviewerTypeFor(taskType));
      if found {
        var expiresAt := clock + expireMinutes;
        OnePicked(db, others, o, h, todo, rewardMap, r, expireMinutes);
        more := [Choose(o, r), Insert(o, expiresAt)];
        var _ := CreateReviewerTaskWithExpiry(h, r, taskType, RewardOf(rewardMap, taskType), expiresAt);
        assert Db() == InsertTask(Tick(Tick(db)), h, r, taskType, RewardOf(rewardMap, taskType), db.clock + 1 + expireMinutes);
      } else {
        OneSkipped(db, others, o, h, todo, rewardMap, expireMinutes);
        more := [SkipType(o)];
      }
    }

    /** The checker's loop body: one expired task, of which the item may need a new assignment. */
    method Reassign(h: Id, expireMinutes: nat, ghost o: Origin, ghost others: map<Origin, Duty>) returns (ghost events: seq<Event>)
      requires o !in others
      modifies this
      ensures Reassigns(State(old(Db()), others[o := Duty(h, Loading)]), events, o, expireMinutes, State(Db(), others))
      ensures TasksKnown(old(Db())) ==> Reassigned(old(Db()), Db(), h, expireMinutes)
    {
      ghost var db := Db();
      LoadDecides(db, others, o, h);
      ghost var more: seq<Event> := [];
      clock := clock + 1;
      if h in hitls && hitls[h].status == Pending {
        more := AssignForHitl(h, hitls[h].reason, expireMinutes, o, others);
      }
      events := [Load(o)] + more;
      assert events[1..] == more;
      if TasksKnown(db) {
        ReassignsComesTo(db, events, others, o, h, expireMinutes, State(Db(), others));
      }
    }

    /** The checker's loop over the expired tasks, in any order. */
    method ReassignAll(expired: map<Id, Id>, expireMinutes: nat, ghost others: map<Origin, Duty>)
      returns (ghost events: seq<Event>, ghost order: seq<Id>)
      requires forall t | t in expired :: ByChecker(t) !in others
      modifies this
      ensures Distinct(order) && Elements(order) == expired.Keys
      ensures ReassignsAll(State(old(Db()), others + Owed(expired)), events, order, expireMinutes, State(Db(), others))
    {
      ghost var start := State(Db(), others + Owed(expired));
      var rest := expired;
      events, order := [], [];
      while rest.Keys != {}
        invariant InLoop(start, events, order, expired, rest, others, Db(), expireMinutes)
        decreases rest.Keys
      {
        var t :| t in rest.Keys;
        ghost var db := Db();
        OwedSplits(rest, t, others);
        ghost var more := Reassign(rest[t], expireMinutes, ByChecker(t), others + Owed(rest - {t}));
        LoopGoesOn(start, events, order, expired, rest, others, db, expireMinutes, t, more, Db());
        events, order := events + more, order + [t];
        rest := rest - {t};
      }
      assert others + Owed(rest) == others;
    }

    /** One tick of the expiry checker, undisturbed: overdue tasks are expired, and each is dealt with once. */
    method ExpireAndReassign(expireMinutes: nat, ghost others: map<Origin, Duty>) returns (ghost events: seq<Event>, ghost order: seq<Id>)
      requires forall t | t in tasks && tasks[t].status == Sent :: ByChecker(t) !in others
      modifies this
      ensures Checks(State(old(Db()), others), events, order, expireMinutes, State(Db(), others))
      ensures TasksKnown(old(Db())) ==> Checked(old(Db()), Db(), expireMinutes)
    {
      ghost var start := State(Db(), others);
      var expired := ExpireOld();
      ExpiryBegins(start, expired);
      ghost var more;
      more, order := ReassignAll(expired, expireMinutes, others);
      events := [ExpireOverdue] + more;
      assert events[1..] == more;
      if TasksKnown(start.db) {
        CheckComesTo(start, events, order, expireMinutes, State(Db(), others));
      }
    }
  }
}
