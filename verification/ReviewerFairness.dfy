/** Fairness of the round robin, event by event: while the pool of active reviewers of one type stays the
    same and no task rows are deleted, the turns are fair exactly if every insert meets one condition:
    its reviewer is still the one the round-robin query would return. Picks and inserts of different
    duties interleave freely, which is why that can fail. */
module ReviewerFairness {
  import opened Records
  import opened ReviewerTables
  import opened ReviewerProtocol
  import opened Ids
  import opened RoundRobin

  /** The member of the pool to whom the event sends a task, if it does. */
  function Turn(s: State, e: Event, pool: set<Id>): seq<Id> {
    if e.Insert? && e.origin in s.duties && s.duties[e.origin].stage.Chosen? then
      var d := s.duties[e.origin];
      var r := d.stage.reviewer;
      if d.stage.todo != [] && d.hitl in s.db.hitls && r in s.db.reviewers && r in pool then [r] else []
    else []
  }

  /** The members of the pool who get tasks in the run, in order. */
  ghost function Turns(s: State, events: seq<Event>, pool: set<Id>): seq<Id>
    decreases |events|
  {
    if events == [] then [] else Turn(s, events[0], pool) + Turns(Apply(s, events[0]), events[1..], pool)
  }

  /** The pool stays the same and no task rows are deleted. */
  ghost predicate Steady(s: State, events: seq<Event>, kind: ReviewerType, pool: set<Id>)
    decreases |events|
  {
    && Pool(s.db, kind) == pool
    && (events == [] || (!events[0].DeleteInvoiceItems? && Steady(Apply(s, events[0]), events[1..], kind, pool)))
  }

  /** The condition on an insert: its reviewer is still next. */
  ghost predicate FairStep(s: State, e: Event, kind: ReviewerType, pool: set<Id>) {
    Turn(s, e, pool) != [] ==> IsNextReviewer(s.db, kind, Turn(s, e, pool)[0])
  }

  ghost predicate Fair(s: State, events: seq<Event>, kind: ReviewerType, pool: set<Id>)
    decreases |events|
  {
    events == [] || (FairStep(s, events[0], kind, pool) && Fair(Apply(s, events[0]), events[1..], kind, pool))
  }

  /** No task was sent in the future, and no row id is taken before it is given out. */
  ghost predicate Settled(db: Tables) {
    forall t | t in db.tasks :: db.tasks[t].sentAt <= db.clock && t < db.nextId
  }

  // ---------- One event ----------

  lemma SameSentTimes(db: Tables, db': Tables, r: Id)
    requires forall t | t in db.tasks && db.tasks[t].reviewer == r ::
               t in db'.tasks && db'.tasks[t].reviewer == r && db'.tasks[t].sentAt == db.tasks[t].sentAt
    requires forall t | t in db'.tasks && db'.tasks[t].reviewer == r :: t in db.tasks && db.tasks[t].reviewer == r
    ensures LastSent(db', r) == LastSent(db, r)
  {
    assert SentTimes(db', r) == SentTimes(db, r);
  }

  lemma SettledStays(s: State, e: Event)
    requires Settled(s.db)
    ensures Settled(Apply(s, e).db)
    ensures Apply(s, e).db.clock == s.db.clock + 1
  {
  }

  lemma TurnEffect(s: State, e: Event, pool: set<Id>)
    requires Turn(s, e, pool) != []
    ensures LastSent(Apply(s, e).db, Turn(s, e, pool)[0]) > s.db.clock
  {
    var db', r := Apply(s, e).db, Turn(s, e, pool)[0];
    var n := s.db.nextId;
    assert n in db'.tasks && db'.tasks[n].reviewer == r && db'.tasks[n].sentAt == s.db.clock + 1;
    assert s.db.clock + 1 in SentTimes(db', r);
  }

  lemma NoTurnEffect(s: State, e: Event, pool: set<Id>, q: Id)
    requires Settled(s.db) && !e.DeleteInvoiceItems? && q in pool && q !in Turn(s, e, pool)
    ensures LastSent(Apply(s, e).db, q) == LastSent(s.db, q)
  {
    SameSentTimes(s.db, Apply(s, e).db, q);
  }

  lemma NotInTheFuture(db: Tables, q: Id)
    requires Settled(db)
    ensures LastSent(db, q) <= db.clock
  {
  }

  /** The reviewer whose turn it is becomes the one sent to last; nobody else is touched. */
  lemma EventEffect(s: State, e: Event, pool: set<Id>, q: Id)
    requires Settled(s.db) && !e.DeleteInvoiceItems? && q in pool
    ensures Settled(Apply(s, e).db) && Apply(s, e).db.clock == s.db.clock + 1
    ensures q in Turn(s, e, pool) ==> LastSent(Apply(s, e).db, q) > s.db.clock >= LastSent(s.db, q)
    ensures q !in Turn(s, e, pool) ==> LastSent(Apply(s, e).db, q) == LastSent(s.db, q)
  {
    SettledStays(s, e);
    NotInTheFuture(s.db, q);
    if q in Turn(s, e, pool) {
      TurnEffect(s, e, pool);
    } else {
      NoTurnEffect(s, e, pool, q);
    }
  }

  // ---------- Runs ----------

  lemma {:induction false} RunEffect(s: State, events: seq<Event>, kind: ReviewerType, pool: set<Id>, q: Id)
    requires Settled(s.db) && Steady(s, events, kind, pool) && q in pool
    ensures Settled(Run(s, events).db) && Run(s, events).db.clock == s.db.clock + |events|
    ensures q in Turns(s, events, pool) ==> LastSent(Run(s, events).db, q) > s.db.clock
    ensures q !in Turns(s, events, pool) ==> LastSent(Run(s, events).db, q) == LastSent(s.db, q)
    ensures LastSent(Run(s, events).db, q) >= LastSent(s.db, q)
    decreases |events|
  {
    if events != [] {
      EventEffect(s, events[0], pool, q);
      RunEffect(Apply(s, events[0]), events[1..], kind, pool, q);
    }
  }

  /** Among those who had a turn in the run, the order of the last turns is the order of the times. */
  lemma {:induction false} TurnsOrderTimes(s: State, events: seq<Event>, kind: ReviewerType, pool: set<Id>, r: Id, q: Id)
    requires Settled(s.db) && Steady(s, events, kind, pool) && q in pool && r in pool && q != r
    requires r in Turns(s, events, pool)
    ensures LastSent(Run(s, events).db, r) <= LastSent(Run(s, events).db, q) <==> q in AfterLast(Turns(s, events, pool), r)
    decreases |events|
  {
    var u, rest := Apply(s, events[0]), events[1..];
    var head, later := Turn(s, events[0], pool), Turns(u, rest, pool);
    EventEffect(s, events[0], pool, q);
    EventEffect(s, events[0], pool, r);
    AfterLastSkips(head, later, r);
    if r in later {
      TurnsOrderTimes(u, rest, kind, pool, r, q);
    } else {
      RunEffect(u, rest, kind, pool, q);
      RunEffect(u, rest, kind, pool, r);
      NotInTheFuture(u.db, r);
    }
  }

  lemma AfterLastSkips(head: seq<Id>, later: seq<Id>, r: Id)
    requires |head| <= 1 && r in head + later
    ensures AfterLast(head + later, r) == if r in later then AfterLast(later, r) else later
  {
    if head == [] {
      assert head + later == later;
    } else {
      assert (head + later)[1..] == later;
    }
  }

  lemma {:induction false} PoolAtEnd(s: State, events: seq<Event>, kind: ReviewerType, pool: set<Id>)
    requires Steady(s, events, kind, pool)
    ensures Pool(Run(s, events).db, kind) == pool
    decreases |events|
  {
    if events != [] {
      PoolAtEnd(Apply(s, events[0]), events[1..], kind, pool);
    }
  }

  /** When a pick is still good: the reviewer who was next is next again exactly if he got no task since,
      or everybody else in the pool got one after his latest. */
  lemma StillNextIff(s: State, events: seq<Event>, kind: ReviewerType, pool: set<Id>, r: Id)
    requires Settled(s.db) && Steady(s, events, kind, pool) && IsNextReviewer(s.db, kind, r)
    ensures var turns := Turns(s, events, pool);
      IsNextReviewer(Run(s, events).db, kind, r) <==>
      r !in turns || forall q | q in pool && q != r :: q in AfterLast(turns, r)
  {
    PoolAtEnd(s, events, kind, pool);
    var turns, end := Turns(s, events, pool), Run(s, events).db;
    forall q | q in pool && q != r
      ensures LastSent(end, r) <= LastSent(end, q) <==> r !in turns || q in AfterLast(turns, r)
    {
      if r in turns {
        TurnsOrderTimes(s, events, kind, pool, r, q);
      } else {
        RunEffect(s, events, kind, pool, q);
        RunEffect(s, events, kind, pool, r);
      }
    }
  }

  /** A duty has picked the next reviewer, other steps came in between, and now it inserts: the condition on
      this insert holds exactly if r got no task since the pick, or everybody else got one after r's latest. */
  lemma PickStillGoodIff(s: State, o: Origin, r: Id, between: seq<Event>, expiresAt: int, kind: ReviewerType, pool: set<Id>)
    requires Settled(s.db) && o in s.duties && s.duties[o].stage.Assigning? && s.duties[o].stage.todo != []
    requires ReviewerTypeFor(s.duties[o].stage.todo[0]) == kind && IsNextReviewer(Tick(s.db), kind, r)
    requires Steady(Apply(s, Choose(o, r)), between, kind, pool)
    requires var v := Run(Apply(s, Choose(o, r)), between);
             o in v.duties && v.duties[o] == Apply(s, Choose(o, r)).duties[o] && v.duties[o].hitl in v.db.hitls
    ensures var turns := Turns(Apply(s, Choose(o, r)), between, pool);
      FairStep(Run(Apply(s, Choose(o, r)), between), Insert(o, expiresAt), kind, pool) <==>
      r !in turns || forall q | q in pool && q != r :: q in AfterLast(turns, r)
  {
    var u := Apply(s, Choose(o, r));
    assert u.db == Tick(s.db) && u.duties[o].stage.reviewer == r && u.duties[o].stage.todo == s.duties[o].stage.todo;
    PoolAtEnd(u, between, kind, pool);
    StillNextIff(u, between, kind, pool, r);
    assert Turn(Run(u, between), Insert(o, expiresAt), pool) == [r];
  }

  // ---------- Fair inserts give spread turns ----------

  lemma {:induction false} TurnsArePool(s: State, events: seq<Event>, pool: set<Id>)
    ensures Elements(Turns(s, events, pool)) <= pool
    decreases |events|
  {
    if events != [] {
      TurnsArePool(Apply(s, events[0]), events[1..], pool);
      var head, later := Turn(s, events[0], pool), Turns(Apply(s, events[0]), events[1..], pool);
      assert Elements(head + later) == Elements(head) + Elements(later);
    }
  }

  /** The event that gave turn number j, and the run before it. */
  lemma {:induction false} TurnAt(s: State, events: seq<Event>, kind: ReviewerType, pool: set<Id>, j: nat) returns (k: nat)
    requires Steady(s, events, kind, pool) && Fair(s, events, kind, pool) && j < |Turns(s, events, pool)|
    ensures k < |events| && Steady(s, events[..k], kind, pool)
    ensures Turns(s, events[..k], pool) == Turns(s, events, pool)[..j]
    ensures IsNextReviewer(Run(s, events[..k]).db, kind, Turns(s, events, pool)[j])
    decreases |events|
  {
    var head := Turn(s, events[0], pool);
    if j < |head| {
      k := 0;
      assert events[..0] == [];
    } else {
      var u, rest := Apply(s, events[0]), events[1..];
      var i := TurnAt(u, rest, kind, pool, j - |head|);
      k := i + 1;
      TurnLater(s, events, kind, pool, j, i);
    }
  }

  lemma TurnLater(s: State, events: seq<Event>, kind: ReviewerType, pool: set<Id>, j: nat, i: nat)
    requires events != [] && i < |events| - 1 && Pool(s.db, kind) == pool && !events[0].DeleteInvoiceItems?
    requires var head, later := Turn(s, events[0], pool), Turns(Apply(s, events[0]), events[1..], pool);
      && |head| <= j < |head| + |later|
      && Steady(Apply(s, events[0]), events[1..][..i], kind, pool)
      && Turns(Apply(s, events[0]), events[1..][..i], pool) == later[..j - |head|]
      && IsNextReviewer(Run(Apply(s, events[0]), events[1..][..i]).db, kind, later[j - |head|])
    ensures Steady(s, events[..i + 1], kind, pool)
    ensures Turns(s, events[..i + 1], pool) == Turns(s, events, pool)[..j]
    ensures IsNextReviewer(Run(s, events[..i + 1]).db, kind, Turns(s, events, pool)[j])
  {
    var u, rest := Apply(s, events[0]), events[1..];
    assert events[..i + 1] == [events[0]] + rest[..i];
    FirstThen(s, events[0], rest[..i], kind, pool);
    TakeBeyond(Turn(s, events[0], pool), Turns(u, rest, pool), j);
  }

  lemma TakeBeyond(head: seq<Id>, later: seq<Id>, j: nat)
    requires |head| <= j < |head| + |later|
    ensures (head + later)[..j] == head + later[..j - |head|] && (head + later)[j] == later[j - |head|]
  {
  }

  lemma FirstThen(s: State, e: Event, rest: seq<Event>, kind: ReviewerType, pool: set<Id>)
    requires Pool(s.db, kind) == pool && !e.DeleteInvoiceItems? && Steady(Apply(s, e), rest, kind, pool)
    ensures Steady(s, [e] + rest, kind, pool) && Run(s, [e] + rest) == Run(Apply(s, e), rest)
    ensures Turns(s, [e] + rest, pool) == Turn(s, e, pool) + Turns(Apply(s, e), rest, pool)
  {
    assert ([e] + rest)[1..] == rest;
  }

  /** Between two turns of one reviewer, everybody else of the pool has had a turn. */
  lemma NoEarlyTurn(s: State, events: seq<Event>, kind: ReviewerType, pool: set<Id>, i: nat, j: nat, q: Id)
    requires Settled(s.db) && Steady(s, events, kind, pool) && Fair(s, events, kind, pool)
    requires i < j < |Turns(s, events, pool)| && Turns(s, events, pool)[i] == Turns(s, events, pool)[j] && q in pool
    ensures q in Turns(s, events, pool)[i..j]
  {
    var turns := Turns(s, events, pool);
    var k := TurnAt(s, events, kind, pool, j);
    var before, r := turns[..j], turns[j];
    assert before[i] == r && turns[i..j] == before[i..];
    if q == r {
      assert turns[i..j][0] == q;
    } else {
      PoolAtEnd(s, events[..k], kind, pool);
      TurnsOrderTimes(s, events[..k], kind, pool, r, q);
      AfterLastSpreads(before, i, q);
    }
  }

  lemma FairIsSpread(s: State, events: seq<Event>, kind: ReviewerType, pool: set<Id>)
    requires Settled(s.db) && Steady(s, events, kind, pool) && Fair(s, events, kind, pool)
    ensures Spread(Turns(s, events, pool), pool)
  {
    var turns := Turns(s, events, pool);
    forall i, j, q | 0 <= i < j < |turns| && turns[i] == turns[j] && q in pool ensures q in turns[i..j] {
      NoEarlyTurn(s, events, kind, pool, i, j, q);
    }
  }

  /** In a fair run no stretch of |pool| consecutive turns gives anybody two, so a full one gives everybody
      exactly one. */
  lemma EveryoneOnce(s: State, events: seq<Event>, kind: ReviewerType, pool: set<Id>, i: nat)
    requires Settled(s.db) && Steady(s, events, kind, pool) && Fair(s, events, kind, pool)
    requires i + |pool| <= |Turns(s, events, pool)|
    ensures var round := Turns(s, events, pool)[i..i + |pool|];
      Distinct(round) && Elements(round) == pool
  {
    FairIsSpread(s, events, kind, pool);
    TurnsArePool(s, events, pool);
    SpreadIff(Turns(s, events, pool), pool);
    var round := Turns(s, events, pool)[i..i + |pool|];
    assert Elements(round) <= Elements(Turns(s, events, pool));
    FullRound(round, pool);
  }

  /** From any point on, the turns of two reviewers of the pool never differ by more than one. */
  lemma TurnsDifferByAtMostOne(s: State, events: seq<Event>, kind: ReviewerType, pool: set<Id>, q: Id, r: Id)
    requires Settled(s.db) && Steady(s, events, kind, pool) && Fair(s, events, kind, pool) && r in pool
    ensures Count(Turns(s, events, pool), q) <= Count(Turns(s, events, pool), r) + 1
  {
    FairIsSpread(s, events, kind, pool);
    SpreadCounts(Turns(s, events, pool), pool, q, r);
  }

  // ---------- Spread turns come from fair inserts ----------

  /** No duty has chosen a member of the pool yet. */
  ghost predicate NoPicks(s: State, pool: set<Id>) {
    forall o | o in s.duties && s.duties[o].stage.Chosen? :: s.duties[o].stage.reviewer !in pool
  }

  /** Whoever has been chosen and has had no turn was next, and still is. */
  ghost predicate PicksOk(s: State, turns: seq<Id>, pool: set<Id>) {
    forall o, q | o in s.duties && s.duties[o].stage.Chosen? && s.duties[o].stage.reviewer in pool && q in pool ::
      s.duties[o].stage.reviewer !in turns ==> LastSent(s.db, s.duties[o].stage.reviewer) <= LastSent(s.db, q)
  }

  lemma PoolsAreDisjoint(db: Tables, kind: ReviewerType, other: ReviewerType, r: Id)
    requires r in Pool(db, kind) && r in Pool(db, other)
    ensures kind == other
  {
  }

  lemma NewPick(s: State, e: Event, o: Origin, kind: ReviewerType, q: Id)
    requires o in Apply(s, e).duties && Apply(s, e).duties[o].stage.Chosen?
    requires !(o in s.duties && s.duties[o] == Apply(s, e).duties[o])
    requires Apply(s, e).duties[o].stage.reviewer in Pool(s.db, kind) && q in Pool(s.db, kind)
    ensures LastSent(Apply(s, e).db, Apply(s, e).duties[o].stage.reviewer) <= LastSent(Apply(s, e).db, q)
  {
    assert e.Choose? && e.origin == o;
    var r := Apply(s, e).duties[o].stage.reviewer;
    PoolsAreDisjoint(Tick(s.db), kind, ReviewerTypeFor(s.duties[o].stage.todo[0]), r);
    assert Apply(s, e).db == Tick(s.db);
  }

  lemma PicksStayOk(s: State, e: Event, turns: seq<Id>, kind: ReviewerType, pool: set<Id>)
    requires Settled(s.db) && !e.DeleteInvoiceItems? && Pool(s.db, kind) == pool && PicksOk(s, turns, pool)
    ensures PicksOk(Apply(s, e), turns + Turn(s, e, pool), pool)
  {
    var u, more := Apply(s, e), turns + Turn(s, e, pool);
    forall o, q | o in u.duties && u.duties[o].stage.Chosen? && u.duties[o].stage.reviewer in pool && q in pool
      ensures u.duties[o].stage.reviewer !in more ==> LastSent(u.db, u.duties[o].stage.reviewer) <= LastSent(u.db, q)
    {
      if o in s.duties && s.duties[o] == u.duties[o] {
        EventEffect(s, e, pool, q);
        EventEffect(s, e, pool, u.duties[o].stage.reviewer);
      } else {
        NewPick(s, e, o, kind, q);
      }
    }
  }

  /** A turn that keeps the turns spread goes to a reviewer who is still next. */
  lemma SpreadTurnIsFair(s: State, past: seq<Event>, e: Event, kind: ReviewerType, pool: set<Id>)
    requires Settled(s.db) && Steady(s, past, kind, pool)
    requires PicksOk(Run(s, past), Turns(s, past, pool), pool)
    requires Spread(Turns(s, past, pool) + Turn(Run(s, past), e, pool), pool)
    ensures FairStep(Run(s, past), e, kind, pool)
  {
    var v, turns := Run(s, past), Turns(s, past, pool);
    PoolAtEnd(s, past, kind, pool);
    if Turn(v, e, pool) != [] {
      var r := Turn(v, e, pool)[0];
      forall q | q in pool ensures LastSent(v.db, r) <= LastSent(v.db, q) {
        if r in turns && q != r {
          SpreadNext(turns, pool, r, q);
          TurnsOrderTimes(s, past, kind, pool, r, q);
        }
      }
    }
  }

  lemma {:induction false} TurnsSplit(s: State, xs: seq<Event>, ys: seq<Event>, pool: set<Id>)
    ensures Turns(s, xs + ys, pool) == Turns(s, xs, pool) + Turns(Run(s, xs), ys, pool)
    decreases |xs|
  {
    if xs == [] {
      assert xs + ys == ys;
    } else {
      assert (xs + ys)[1..] == xs[1..] + ys;
      TurnsSplit(Apply(s, xs[0]), xs[1..], ys, pool);
    }
  }

  lemma {:induction false} SteadyOneMore(s: State, past: seq<Event>, e: Event, kind: ReviewerType, pool: set<Id>)
    requires Steady(s, past, kind, pool) && Steady(Run(s, past), [e], kind, pool)
    ensures Steady(s, past + [e], kind, pool)
    decreases |past|
  {
    if past == [] {
      assert past + [e] == [e];
    } else {
      assert (past + [e])[1..] == past[1..] + [e];
      SteadyOneMore(Apply(s, past[0]), past[1..], e, kind, pool);
    }
  }

  lemma {:induction false} SpreadRestIsFair(s: State, past: seq<Event>, events: seq<Event>, kind: ReviewerType, pool: set<Id>)
    requires Settled(s.db) && Steady(s, past, kind, pool) && Steady(Run(s, past), events, kind, pool)
    requires PicksOk(Run(s, past), Turns(s, past, pool), pool)
    requires Spread(Turns(s, past, pool) + Turns(Run(s, past), events, pool), pool)
    ensures Fair(Run(s, past), events, kind, pool)
    decreases |events|
  {
    if events != [] {
      var v, e, rest := Run(s, past), events[0], events[1..];
      var turns, turn, later := Turns(s, past, pool), Turn(v, e, pool), Turns(Apply(v, e), rest, pool);
      OneMore(s, past, e, kind, pool);
      assert turns + Turns(v, events, pool) == (turns + turn) + later;
      assert turns + turn == ((turns + turn) + later)[0..|turns + turn|];
      SpreadWindow((turns + turn) + later, pool, 0, |turns + turn|);
      SpreadTurnIsFair(s, past, e, kind, pool);
      SpreadRestIsFair(s, past + [e], rest, kind, pool);
    }
  }

  lemma OneMore(s: State, past: seq<Event>, e: Event, kind: ReviewerType, pool: set<Id>)
    requires Settled(s.db) && Steady(s, past, kind, pool) && !e.DeleteInvoiceItems?
    requires Pool(Apply(Run(s, past), e).db, kind) == pool
    requires PicksOk(Run(s, past), Turns(s, past, pool), pool)
    ensures Run(s, past + [e]) == Apply(Run(s, past), e) && Steady(s, past + [e], kind, pool)
    ensures Turns(s, past + [e], pool) == Turns(s, past, pool) + Turn(Run(s, past), e, pool)
    ensures PicksOk(Run(s, past + [e]), Turns(s, past + [e], pool), pool)
  {
    RunOneMore(s, past, e);
    PoolAtEnd(s, past, kind, pool);
    assert [e][1..] == [];
    SteadyOneMore(s, past, e, kind, pool);
    TurnsSplit(s, past, [e], pool);
    SettledRun(s, past);
    PicksStayOk(Run(s, past), e, Turns(s, past, pool), kind, pool);
  }

  lemma {:induction false} SettledRun(s: State, events: seq<Event>)
    requires Settled(s.db)
    ensures Settled(Run(s, events).db)
    decreases |events|
  {
    if events != [] {
      SettledStays(s, events[0]);
      SettledRun(Apply(s, events[0]), events[1..]);
    }
  }

  /** Exactly when round robin is fair: nobody gets two turns in any stretch of |pool| turns if and only if
      every insert finds its reviewer still next. */
  lemma FairIff(s: State, events: seq<Event>, kind: ReviewerType, pool: set<Id>)
    requires Settled(s.db) && Steady(s, events, kind, pool) && NoPicks(s, pool)
    ensures NobodyTwiceInAWindow(Turns(s, events, pool), pool) <==> Fair(s, events, kind, pool)
  {
    var turns := Turns(s, events, pool);
    TurnsArePool(s, events, pool);
    SpreadIff(turns, pool);
    if Fair(s, events, kind, pool) {
      FairIsSpread(s, events, kind, pool);
    }
    if Spread(turns, pool) {
      assert [] + turns == turns;
      SpreadRestIsFair(s, [], events, kind, pool);
    }
  }

  /** One insert that misses the condition shows: some |pool| consecutive turns leave somebody out and give
      somebody else two, once the run has that many turns. */
  lemma UnfairShows(s: State, events: seq<Event>, kind: ReviewerType, pool: set<Id>) returns (i: nat)
    requires Settled(s.db) && Steady(s, events, kind, pool) && NoPicks(s, pool)
    requires !Fair(s, events, kind, pool) && |pool| <= |Turns(s, events, pool)|
    ensures i + |pool| <= |Turns(s, events, pool)|
    ensures var round := Turns(s, events, pool)[i..i + |pool|];
      !Distinct(round) && Elements(round) < pool
  {
    FairIff(s, events, kind, pool);
    TurnsArePool(s, events, pool);
    var turns := Turns(s, events, pool);
    i := WideWindow(turns, pool);
    assert Elements(turns[i..i + |pool|]) <= Elements(turns);
  }

  // ---------- Picks that are not serialised ----------

  /** Two items about to be assigned, and two active reviewers who have had no task yet. */
  function TwoWaiting(): State {
    State(Tables(map[2 := Hitl(7, OcrMismatch, Pending), 3 := Hitl(8, OcrMismatch, Pending)], map[],
                 map[0 := Reviewer(TextVerifier, true, 0, 0), 1 := Reviewer(TextVerifier, true, 0, 0)],
                 SEEDED, 6, 4, []),
          map[ByWorker(2) := Duty(2, Assigning([TextVerification], SEEDED)),
              ByWorker(3) := Duty(3, Assigning([TextVerification], SEEDED))])
  }

  function BothPicked(): State {
    State(TwoWaiting().db.(clock := 8),
          map[ByWorker(2) := Duty(2, Chosen([TextVerification], SEEDED, 0)),
              ByWorker(3) := Duty(3, Chosen([TextVerification], SEEDED, 0))])
  }

  lemma BothCanPickTheSame()
    ensures Apply(Apply(TwoWaiting(), Choose(ByWorker(2), 0)), Choose(ByWorker(3), 0)) == BothPicked()
  {
    var s := TwoWaiting();
    assert SentTimes(Tick(s.db), 0) == {} && SentTimes(Tick(s.db), 1) == {};
    var s1 := Apply(s, Choose(ByWorker(2), 0));
    assert SentTimes(Tick(s1.db), 0) == {} && SentTimes(Tick(s1.db), 1) == {};
  }

  /** When both duties have picked before either inserts, one reviewer can get both tasks. */
  lemma OverlappingPicksCanRepeat()
    ensures var db := Apply(Apply(BothPicked(), Insert(ByWorker(2), 100)), Insert(ByWorker(3), 100)).db;
            db.tasks.Keys == {4, 5} && db.tasks[4].reviewer == 0 && db.tasks[5].reviewer == 0
  {
    var s := Apply(BothPicked(), Insert(ByWorker(2), 100));
    assert s.db.tasks == map[4 := Task(2, 0, TextVerification, Sent, 500, 9, 100)];
    assert s.duties == map[ByWorker(3) := Duty(3, Chosen([TextVerification], SEEDED, 0))];
  }

  /** The run that leads there: two reviewers, two items, and the rewards read for both. */
  function UntilTwoWaiting(): seq<Event> {
    [CreateReviewer(TextVerifier), CreateReviewer(TextVerifier)]
    + ([CreateHitl(7, OcrMismatch), CreateHitl(8, OcrMismatch)]
       + [ReadRewards(ByWorker(2), true), ReadRewards(ByWorker(3), true)])
  }

  lemma TwoWaitingReachable()
    ensures Run(INITIAL, UntilTwoWaiting()) == TwoWaiting()
  {
    var reviewers := [CreateReviewer(TextVerifier), CreateReviewer(TextVerifier)];
    var items := [CreateHitl(7, OcrMismatch), CreateHitl(8, OcrMismatch)];
    var rewards := [ReadRewards(ByWorker(2), true), ReadRewards(ByWorker(3), true)];
    RunTwo(INITIAL, reviewers[0], reviewers[1]);
    RunTwo(BothActive(), items[0], items[1]);
    RunTwo(BothCalled(), rewards[0], rewards[1]);
    BothCreated();
    BothItems();
    BothRead();
    RunAppend(INITIAL, reviewers, items + rewards);
    RunAppend(BothActive(), items, rewards);
  }

  function BothActive(): State {
    State(TwoWaiting().db.(hitls := map[], clock := 2, nextId := 2), map[])
  }

  function BothCalled(): State {
    State(TwoWaiting().db.(clock := 4), map[ByWorker(2) := Duty(2, Called(OcrMismatch)), ByWorker(3) := Duty(3, Called(OcrMismatch))])
  }

  lemma BothCreated()
    ensures Apply(Apply(INITIAL, CreateReviewer(TextVerifier)), CreateReviewer(TextVerifier)) == BothActive()
  {
    var s := Apply(Apply(INITIAL, CreateReviewer(TextVerifier)), CreateReviewer(TextVerifier));
    assert s.db.reviewers == BothActive().db.reviewers;
  }

  lemma BothItems()
    ensures Apply(Apply(BothActive(), CreateHitl(7, OcrMismatch)), CreateHitl(8, OcrMismatch)) == BothCalled()
  {
    var s := Apply(Apply(BothActive(), CreateHitl(7, OcrMismatch)), CreateHitl(8, OcrMismatch));
    assert s.db.hitls == BothCalled().db.hitls && s.duties == BothCalled().duties;
  }

  lemma BothRead()
    ensures Apply(Apply(BothCalled(), ReadRewards(ByWorker(2), true)), ReadRewards(ByWorker(3), true)) == TwoWaiting()
  {
    var s := Apply(Apply(BothCalled(), ReadRewards(ByWorker(2), true)), ReadRewards(ByWorker(3), true));
    assert s.duties == TwoWaiting().duties;
  }
}
