/** Where the tasks of a reachable state come from, and what becomes of an owed assignment: statements about
    the whole run that led there. */
module ReviewerHistory {
  import opened Records
  import opened ReviewerTables
  import opened ReviewerProtocol
  import opened ReviewerRouting

  /** The state after the first j events. */
  ghost function After(events: seq<Event>, j: nat): State
    requires j <= |events|
  {
    Run(INITIAL, events[..j])
  }

  // ---------- Picks and rewards ----------

  /** At some point of the run duty o picked r, who was next for this type of task at that moment. */
  ghost predicate Picked(events: seq<Event>, o: Origin, kind: TaskType, r: Id) {
    exists j: nat | j < |events| ::
      events[j] == Choose(o, r) && IsNextReviewer(Tick(After(events, j).db), ReviewerTypeFor(kind), r)
  }

  /** These are the rewards configured at some point of the run, or the empty map of a query that failed. */
  ghost predicate Configured(events: seq<Event>, rewards: map<TaskType, int>) {
    rewards == map[] || exists j: nat | j <= |events| :: After(events, j).db.rewards == rewards
  }

  ghost predicate DutyKnown(events: seq<Event>, o: Origin, g: Stage) {
    match g
    case Loading => true
    case Called(_) => true
    case Assigning(_, rewards) => Configured(events, rewards)
    case Chosen(todo, rewards, r) => Configured(events, rewards) && todo != [] && Picked(events, o, todo[0], r)
  }

  /** The reviewer was picked while next in line, and the reward was configured, at some point of the run. */
  ghost predicate TaskKnown(events: seq<Event>, t: Task) {
    && (exists o :: Picked(events, o, t.kind, t.reviewer))
    && (exists rewards :: Configured(events, rewards) && t.reward == RewardOf(rewards, t.kind))
  }

  ghost predicate HistoryOk(events: seq<Event>) {
    var s := Run(INITIAL, events);
    && (forall o | o in s.duties :: DutyKnown(events, o, s.duties[o].stage))
    && (forall t | t in s.db.tasks :: TaskKnown(events, s.db.tasks[t]))
  }

  lemma PickedStays(events: seq<Event>, e: Event, o: Origin, kind: TaskType, r: Id)
    requires Picked(events, o, kind, r)
    ensures Picked(events + [e], o, kind, r)
  {
    var j: nat :| j < |events| && events[j] == Choose(o, r) && IsNextReviewer(Tick(After(events, j).db), ReviewerTypeFor(kind), r);
    assert (events + [e])[j] == events[j] && (events + [e])[..j] == events[..j];
    assert After(events + [e], j) == After(events, j);
  }

  lemma ConfiguredStays(events: seq<Event>, e: Event, rewards: map<TaskType, int>)
    requires Configured(events, rewards)
    ensures Configured(events + [e], rewards)
  {
    if rewards != map[] {
      var j: nat :| j <= |events| && After(events, j).db.rewards == rewards;
      assert (events + [e])[..j] == events[..j];
      assert After(events + [e], j).db.rewards == rewards;
    }
  }

  lemma DutyKnownStays(events: seq<Event>, e: Event, o: Origin, g: Stage)
    requires DutyKnown(events, o, g)
    ensures DutyKnown(events + [e], o, g)
  {
    match g
    case Assigning(_, rewards) => ConfiguredStays(events, e, rewards);
    case Chosen(todo, rewards, r) =>
      ConfiguredStays(events, e, rewards);
      PickedStays(events, e, o, todo[0], r);
    case _ =>
  }

  lemma TaskKnownStays(events: seq<Event>, e: Event, t: Task)
    requires TaskKnown(events, t)
    ensures TaskKnown(events + [e], t)
  {
    var o :| Picked(events, o, t.kind, t.reviewer);
    PickedStays(events, e, o, t.kind, t.reviewer);
    var rewards :| Configured(events, rewards) && t.reward == RewardOf(rewards, t.kind);
    ConfiguredStays(events, e, rewards);
  }

  /** The rewards read now are those configured now, and who is picked now is next now. */
  lemma JustNow(events: seq<Event>, e: Event)
    ensures Configured(events + [e], Run(INITIAL, events).db.rewards)
    ensures forall kind | e.Choose? && IsNextReviewer(Tick(Run(INITIAL, events).db), ReviewerTypeFor(kind), e.reviewer) ::
              Picked(events + [e], e.origin, kind, e.reviewer)
  {
    var all := events + [e];
    assert all[..|events|] == events && all[|events|] == e;
    assert After(all, |events|) == Run(INITIAL, events);
    if e.Choose? {
      forall kind | IsNextReviewer(Tick(Run(INITIAL, events).db), ReviewerTypeFor(kind), e.reviewer)
        ensures Picked(all, e.origin, kind, e.reviewer)
      {
        assert all[|events|] == Choose(e.origin, e.reviewer);
      }
    }
  }

  /** What a step can make of the stage of a duty. */
  lemma DutyComesFrom(s: State, e: Event, o: Origin)
    requires o in Apply(s, e).duties
    ensures var g := Apply(s, e).duties[o].stage;
      || (o in s.duties && s.duties[o].stage == g)
      || g.Loading? || g.Called?
      || (e == ReadRewards(o, true) && g.Assigning? && g.rewards == s.db.rewards)
      || (e == ReadRewards(o, false) && g.Assigning? && g.rewards == map[])
      || (o in s.duties && (s.duties[o].stage.Assigning? || s.duties[o].stage.Chosen?) && g.Assigning? && g.rewards == s.duties[o].stage.rewards)
      || (e.Choose? && e.origin == o && o in s.duties && s.duties[o].stage.Assigning? && s.duties[o].stage.todo != []
          && g == Chosen(s.duties[o].stage.todo, s.duties[o].stage.rewards, e.reviewer)
          && IsNextReviewer(Tick(s.db), ReviewerTypeFor(g.todo[0]), e.reviewer))
  {
  }

  lemma StepKnowsDuty(events: seq<Event>, e: Event, o: Origin)
    requires HistoryOk(events) && o in Apply(Run(INITIAL, events), e).duties
    ensures DutyKnown(events + [e], o, Apply(Run(INITIAL, events), e).duties[o].stage)
  {
    var s := Run(INITIAL, events);
    DutyComesFrom(s, e, o);
    JustNow(events, e);
    if o in s.duties {
      DutyKnownStays(events, e, o, s.duties[o].stage);
    }
  }

  lemma StepKnowsTask(events: seq<Event>, e: Event, t: Id)
    requires HistoryOk(events) && IdsFresh(Run(INITIAL, events).db) && t in Apply(Run(INITIAL, events), e).db.tasks
    ensures TaskKnown(events + [e], Apply(Run(INITIAL, events), e).db.tasks[t])
  {
    var s := Run(INITIAL, events);
    if t in s.db.tasks {
      TaskMoves(s, e, t);
      TaskKnownStays(events, e, s.db.tasks[t]);
    } else {
      NewTaskRow(s, e, t);
      DutyKnownStays(events, e, e.origin, s.duties[e.origin].stage);
    }
  }

  lemma {:induction false} RunHasHistory(events: seq<Event>)
    ensures HistoryOk(events) && IdsFresh(Run(INITIAL, events).db)
    decreases |events|
  {
    if events != [] {
      var before, e := events[..|events| - 1], events[|events| - 1];
      assert events == before + [e];
      RunHasHistory(before);
      RunOneMore(INITIAL, before, e);
      StepKeepsFresh(Run(INITIAL, before), e);
      forall o | o in Run(INITIAL, events).duties ensures DutyKnown(events, o, Run(INITIAL, events).duties[o].stage) {
        StepKnowsDuty(before, e, o);
      }
      forall t | t in Run(INITIAL, events).db.tasks ensures TaskKnown(events, Run(INITIAL, events).db.tasks[t]) {
        StepKnowsTask(before, e, t);
      }
    }
  }

  /** In every run each task went to a reviewer whom some duty had picked while he was next in line for its
      type, at a reward that was configured at some point of the run, or at none if the query failed. */
  lemma TasksWerePicked(events: seq<Event>, t: Id)
    requires t in Run(INITIAL, events).db.tasks
    ensures TaskKnown(events, Run(INITIAL, events).db.tasks[t])
    ensures var task := Run(INITIAL, events).db.tasks[t];
      exists j: nat, o :: j < |events| && events[j] == Choose(o, task.reviewer) && WasNext(After(events, j).db, task.kind, task.reviewer)
  {
    RunHasHistory(events);
    var task := Run(INITIAL, events).db.tasks[t];
    var o :| Picked(events, o, task.kind, task.reviewer);
    var j: nat :| j < |events| && events[j] == Choose(o, task.reviewer)
                  && IsNextReviewer(Tick(After(events, j).db), ReviewerTypeFor(task.kind), task.reviewer);
    NextMeansActive(After(events, j).db, task.kind, task.reviewer);
  }

  /** The row of the reviewer is active and of the type for this task, and no task was sent to any other such
      reviewer earlier than the last one to this one. */
  ghost predicate WasNext(db: Tables, kind: TaskType, r: Id) {
    var needed := if kind == TextVerification then TextVerifier else ClassificationVerifier;
    && r in db.reviewers && db.reviewers[r].active && db.reviewers[r].kind == needed
    && forall q | q in db.reviewers && db.reviewers[q].active && db.reviewers[q].kind == needed :: LastSent(db, r) <= LastSent(db, q)
  }

  lemma NextMeansActive(db: Tables, kind: TaskType, r: Id)
    requires IsNextReviewer(Tick(db), ReviewerTypeFor(kind), r)
    ensures WasNext(db, kind, r)
  {
    NextReviewerIff(Tick(db), ReviewerTypeFor(kind), r);
    WhoDoesWhat(OtherReason, kind);
    assert forall q :: SentTimes(Tick(db), q) == SentTimes(db, q);
  }

  // ---------- Reviewers ----------

  lemma {:induction false} ReviewerStays(s: State, events: seq<Event>, r: Id)
    requires (forall q | q in s.db.reviewers :: q < s.db.nextId) && r in s.db.reviewers
    ensures var after := Run(s, events).db.reviewers;
      && r in after
      && ((forall e | e in events :: !(e.ChangeReviewer? && e.reviewer == r)) ==>
            after[r].kind == s.db.reviewers[r].kind && after[r].active == s.db.reviewers[r].active)
    decreases |events|
  {
    if events != [] {
      ReviewerMoves(s, events[0], r);
      StepKeepsReviewers(s, events[0]);
      ReviewerStays(Apply(s, events[0]), events[1..], r);
    }
  }

  lemma StepKeepsReviewers(s: State, e: Event)
    requires forall q | q in s.db.reviewers :: q < s.db.nextId
    ensures forall q | q in Apply(s, e).db.reviewers :: q < Apply(s, e).db.nextId
  {
  }

  lemma {:induction false} ReviewersKnown(s: State, events: seq<Event>)
    requires forall q | q in s.db.reviewers :: q < s.db.nextId
    ensures forall q | q in Run(s, events).db.reviewers :: q < Run(s, events).db.nextId
    decreases |events|
  {
    if events != [] {
      StepKeepsReviewers(s, events[0]);
      ReviewersKnown(Apply(s, events[0]), events[1..]);
    }
  }

  /** From every point of every run on, no reviewer is lost, and type and activity change only by an update of
      that reviewer. */
  lemma ReviewersDevelop(past: seq<Event>, events: seq<Event>, r: Id)
    requires r in Run(INITIAL, past).db.reviewers
    ensures var before, after := Run(INITIAL, past).db.reviewers, Run(INITIAL, past + events).db.reviewers;
      && r in after
      && ((forall e | e in events :: !(e.ChangeReviewer? && e.reviewer == r)) ==>
            after[r].kind == before[r].kind && after[r].active == before[r].active)
  {
    ReviewersKnown(INITIAL, past);
    ReviewerStays(Run(INITIAL, past), events, r);
    RunAppend(INITIAL, past, events);
  }

  // ---------- Owed assignments ----------

  /** A step of this duty. */
  predicate StepOf(e: Event, o: Origin) {
    (e.Load? || e.ReadRewards? || e.Choose? || e.SkipType? || e.Insert? || e.Abandon?) && e.origin == o
  }

  /** The task will not expire again, and its id will not be given to anything else. */
  ghost predicate ExpiredOnce(db: Tables, t: Id) {
    IdsFresh(db) && t < db.nextId && (t in db.tasks ==> db.tasks[t].status == Expired)
  }

  lemma StepLeavesOwed(s: State, e: Event, t: Id)
    requires ExpiredOnce(s.db, t) && ByChecker(t) in s.duties && !StepOf(e, ByChecker(t))
    ensures ByChecker(t) in Apply(s, e).duties && Apply(s, e).duties[ByChecker(t)] == s.duties[ByChecker(t)]
  {
  }

  lemma StepKeepsExpired(s: State, e: Event, t: Id)
    requires ExpiredOnce(s.db, t)
    ensures ExpiredOnce(Apply(s, e).db, t)
  {
    StepKeepsFresh(s, e);
    StepDevelopsTask(s, e, t);
  }

  lemma {:induction false} StaysOwed(s: State, events: seq<Event>, t: Id)
    requires ExpiredOnce(s.db, t) && ByChecker(t) in s.duties && forall e | e in events :: !StepOf(e, ByChecker(t))
    ensures ByChecker(t) in Run(s, events).duties && Run(s, events).duties[ByChecker(t)] == s.duties[ByChecker(t)]
    decreases |events|
  {
    if events != [] {
      StepLeavesOwed(s, events[0], t);
      StepKeepsExpired(s, events[0], t);
      StaysOwed(Apply(s, events[0]), events[1..], t);
    }
  }

  /** Expiry forgets nobody: in every run the item of every expired task is owed a new assignment, and stays
      so through everything else, until a step of that very duty. */
  lemma OwedUntilTaken(past: seq<Event>, events: seq<Event>, t: Id)
    requires t in OverdueTasks(Tick(Run(INITIAL, past).db)) && forall e | e in events :: !StepOf(e, ByChecker(t))
    ensures var s := Run(INITIAL, past);
      var end := Run(INITIAL, past + [ExpireOverdue] + events);
      ByChecker(t) in end.duties && end.duties[ByChecker(t)] == Duty(s.db.tasks[t].hitl, Loading)
  {
    var s := Run(INITIAL, past);
    RunHasHistory(past);
    ExpiryOwesAssignment(s, t);
    ExpiryExpires(s, t);
    StaysOwed(Apply(s, ExpireOverdue), events, t);
    RunOneMore(INITIAL, past, ExpireOverdue);
    RunAppend(INITIAL, past + [ExpireOverdue], events);
  }

  lemma ExpiryExpires(s: State, t: Id)
    requires IdsFresh(s.db) && t in OverdueTasks(Tick(s.db))
    ensures ExpiredOnce(Apply(s, ExpireOverdue).db, t)
  {
    StepKeepsFresh(s, ExpireOverdue);
  }

  /** What is abandoned is owed no more, and nothing else changes. */
  lemma AbandonedIsOver(s: State, o: Origin)
    ensures Apply(s, Abandon(o)) == State(Tick(s.db), s.duties - {o})
  {
  }
}
