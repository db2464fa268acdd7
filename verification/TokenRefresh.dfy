/** The admin client's token refresh: the first request that finds its token expired asks for a new one,
    and requests that fail meanwhile wait for that answer. A handler runs to its next await without
    interruption, so one step is one handler segment. */
module TokenRefresh {
  import opened Records

  /** How the refresh call ends: with a token; with an error before the queue was served (a refused or
      malformed answer, or a token that could not be stored); or with an error after it. */
  datatype Reply = Succeeds(token: string) | Fails | FailsLate(token: string)

  /** What becomes of a request: sent again with a token, rejected, or rejected with the session ended. */
  datatype Outcome = Resumed(token: string) | Rejected | SessionEnded

  datatype Settled = Settled(id: Id, outcome: Outcome)

  /** A refresh call under way, and the request that started it. */
  datatype Call = Call(no: nat, leader: Id)

  /** The module's two variables and the stored refresh token, the calls under way, and the history: which
      call each request waits for or leads, how the calls ended, and every settlement in order. */
  datatype State = State(isRefreshing: bool, queue: seq<Id>, hasRefreshToken: bool, inFlight: seq<Call>,
                         nextId: Id, nextCall: nat, awaits: map<Id, nat>, leads: set<Id>,
                         replies: map<nat, Reply>, log: seq<Settled>)

  const INITIAL := State(false, [], true, [], 0, 0, map[], {}, map[], [])

  function ForQueue(r: Reply): Outcome {
    if r.Fails? then Rejected else Resumed(r.token)
  }

  function ForLeader(r: Reply): Outcome {
    if r.Succeeds? then Resumed(r.token) else SessionEnded
  }

  function SettleAll(queue: seq<Id>, outcome: Outcome): seq<Settled> {
    seq(|queue|, i requires 0 <= i < |queue| => Settled(queue[i], outcome))
  }

  /** A response 401 arrives; `retried` is the request's _retry mark. */
  function OnUnauthorized(s: State, retried: bool): State {
    var id := s.nextId;
    var t := s.(nextId := id + 1);
    if retried || !s.hasRefreshToken then t.(log := t.log + [Settled(id, Rejected)])
    else if s.isRefreshing then t.(queue := t.queue + [id], awaits := t.awaits[id := if t.nextCall > 0 then t.nextCall - 1 else 0])
    else t.(isRefreshing := true, inFlight := t.inFlight + [Call(t.nextCall, id)], nextCall := t.nextCall + 1,
            awaits := t.awaits[id := t.nextCall], leads := t.leads + {id})
  }

  /** Call k of those under way ends. */
  function OnReply(s: State, k: nat, r: Reply): State {
    if k >= |s.inFlight| then s else
    var call := s.inFlight[k];
    s.(inFlight := s.inFlight[..k] + s.inFlight[k + 1..], isRefreshing := false, queue := [],
       hasRefreshToken := s.hasRefreshToken && r.Succeeds?,
       replies := s.replies[call.no := r],
       log := s.log + SettleAll(s.queue, ForQueue(r)) + [Settled(call.leader, ForLeader(r))])
  }

  class Client {
    var isRefreshing: bool
    var refreshQueue: seq<Id>
    var hasRefreshToken: bool
    ghost var inFlight: seq<Call>
    var nextId: Id
    ghost var nextCall: nat
    ghost var awaits: map<Id, nat>
    ghost var leads: set<Id>
    ghost var replies: map<nat, Reply>
    var log: seq<Settled>

    ghost function Now(): State
      reads this
    {
      State(isRefreshing, refreshQueue, hasRefreshToken, inFlight, nextId, nextCall, awaits, leads, replies, log)
    }

    constructor ()
      ensures Now() == INITIAL
    {
      isRefreshing, refreshQueue, hasRefreshToken, nextId, log := false, [], true, 0, [];
      inFlight, nextCall, awaits, leads, replies := [], 0, map[], {}, map[];
    }

    method ProcessQueue(outcome: Outcome)
      modifies this`refreshQueue, this`log
      ensures |log| == |old(log)| + |old(refreshQueue)| && log[..|old(log)|] == old(log)
      ensures forall i | 0 <= i < |old(refreshQueue)| :: log[|old(log)| + i] == Settled(old(refreshQueue)[i], outcome)
      ensures refreshQueue == [] && log == old(log) + SettleAll(old(refreshQueue), outcome)
    {
      for i := 0 to |refreshQueue|
        invariant refreshQueue == old(refreshQueue)
        invariant log == old(log) + SettleAll(refreshQueue[..i], outcome)
      {
        log := log + [Settled(refreshQueue[i], outcome)];
        assert SettleAll(refreshQueue[..i + 1], outcome)
            == SettleAll(refreshQueue[..i], outcome) + [Settled(refreshQueue[i], outcome)];
      }
      assert refreshQueue[..|refreshQueue|] == refreshQueue;
      refreshQueue := [];
    }

    /** A request that was already sent again, or that finds no refresh token, is rejected at once; any other
        waits if a refresh is under way, and starts one if not. */
    method HandleUnauthorized(retried: bool) returns (asks: bool)
      modifies this
      ensures Now() == OnUnauthorized(old(Now()), retried)
      ensures log == (if retried || !old(hasRefreshToken) then old(log) + [Settled(old(nextId), Rejected)] else old(log))
      ensures refreshQueue == if !retried && old(hasRefreshToken) && old(isRefreshing) then old(refreshQueue) + [old(nextId)] else old(refreshQueue)
      ensures asks <==> !retried && old(hasRefreshToken) && !old(isRefreshing)
      ensures isRefreshing <==> old(isRefreshing) || asks
      ensures asks <==> |inFlight| > old(|inFlight|)
    {
      asks := false;
      var id := nextId;
      nextId := nextId + 1;
      if !retried && hasRefreshToken {
        if isRefreshing {
          refreshQueue := refreshQueue + [id];
          awaits := awaits[id := if nextCall > 0 then nextCall - 1 else 0];
        } else {
          isRefreshing := true;
          asks := true;
          inFlight, awaits, leads := inFlight + [Call(nextCall, id)], awaits[id := nextCall], leads + {id};
          nextCall := nextCall + 1;
        }
      } else {
        log := log + [Settled(id, Rejected)];
      }
    }

    /** The code after the await: try, catch and finally. */
    method HandleReply(leader: Id, reply: Reply, ghost k: nat)
      requires k < |inFlight| && inFlight[k].leader == leader
      modifies this
      ensures Now() == OnReply(old(Now()), k, reply)
      ensures match reply
        case Succeeds(token) =>
          log == old(log) + SettleAll(old(refreshQueue), Resumed(token)) + [Settled(leader, Resumed(token))]
          && hasRefreshToken == old(hasRefreshToken)
        case Fails =>
          log == old(log) + SettleAll(old(refreshQueue), Rejected) + [Settled(leader, SessionEnded)] && !hasRefreshToken
        case FailsLate(token) =>
          log == old(log) + SettleAll(old(refreshQueue), Resumed(token)) + [Settled(leader, SessionEnded)] && !hasRefreshToken
      ensures refreshQueue == [] && !isRefreshing
    {
      replies := replies[inFlight[k].no := reply];
      inFlight := inFlight[..k] + inFlight[k + 1..];
      var outcome := SessionEnded;
      if !reply.Fails? {
        ProcessQueue(Resumed(reply.token));
        outcome := Resumed(reply.token);
      }
      if !reply.Succeeds? {
        ProcessQueue(Rejected);
        hasRefreshToken := false;
        outcome := SessionEnded;
      }
      log := log + [Settled(leader, outcome)];
      isRefreshing := false;
    }
  }

  // ---------- Runs ----------

  datatype Event = Unauthorized(retried: bool) | Replied(k: nat, reply: Reply) | Login | Logout

  function Apply(s: State, e: Event): State {
    match e
    case Unauthorized(retried) => OnUnauthorized(s, retried)
    case Replied(k, reply) => OnReply(s, k, reply)
    case Login => s.(hasRefreshToken := true)
    case Logout => s.(hasRefreshToken := false)
  }

  function Run(s: State, events: seq<Event>): State
    decreases |events|
  {
    if events == [] then s else Run(Apply(s, events[0]), events[1..])
  }

  /** At most one call is under way, exactly while the flag says so; nobody waits otherwise; and whoever
      waits, waits for that call. */
  ghost predicate SingleFlight(s: State) {
    && |s.inFlight| == (if s.isRefreshing then 1 else 0)
    && (!s.isRefreshing ==> s.queue == [])
    && (s.isRefreshing ==> s.nextCall > 0 && s.inFlight[0].no == s.nextCall - 1)
    && (forall i | 0 <= i < |s.queue| :: s.queue[i] in s.awaits && s.awaits[s.queue[i]] == s.nextCall - 1 && s.queue[i] !in s.leads)
    && (s.isRefreshing ==> s.inFlight[0].leader in s.leads && s.inFlight[0].leader in s.awaits
                           && s.awaits[s.inFlight[0].leader] == s.nextCall - 1)
    && (forall no | no in s.replies :: no < s.nextCall && (s.isRefreshing ==> no != s.nextCall - 1))
  }

  /** Whether the request is still open: waiting, or leading a call under way. */
  ghost predicate Open(s: State, id: Id) {
    id in s.queue || exists k :: 0 <= k < |s.inFlight| && s.inFlight[k].leader == id
  }

  ghost predicate Logged(s: State, id: Id) {
    exists i :: 0 <= i < |s.log| && s.log[i].id == id
  }

  /** Every request is either open or settled; no request is settled twice, or queued twice. */
  ghost predicate SettledOnce(s: State) {
    && (forall i, j | 0 <= i < j < |s.log| :: s.log[i].id != s.log[j].id)
    && (forall i, j | 0 <= i < j < |s.queue| :: s.queue[i] != s.queue[j])
    && (forall id: Id | Open(s, id) :: !Logged(s, id))
    && (forall id: Id :: id < s.nextId <==> Open(s, id) || Logged(s, id))
    && (forall id | id in s.awaits :: id < s.nextId)
    && s.leads <= s.awaits.Keys
  }

  /** A request that waited for a call, or led it, was settled with that call's outcome, any other rejected. */
  ghost predicate OutcomesMatch(s: State) {
    && (forall i | 0 <= i < |s.log| && s.log[i].id !in s.awaits :: s.log[i].outcome == Rejected)
    && forall i | 0 <= i < |s.log| && s.log[i].id in s.awaits ::
      && s.awaits[s.log[i].id] in s.replies
      && s.log[i].outcome == if s.log[i].id in s.leads then ForLeader(s.replies[s.awaits[s.log[i].id]])
                             else ForQueue(s.replies[s.awaits[s.log[i].id]])
  }

  ghost predicate Inv(s: State) {
    SingleFlight(s) && SettledOnce(s) && OutcomesMatch(s)
  }

  lemma UnauthorizedBookkeeping(s: State, retried: bool)
    requires Inv(s)
    ensures var t := OnUnauthorized(s, retried);
            forall id: Id :: && (Open(t, id) <==> Open(s, id) || (id == s.nextId && t.log == s.log))
                             && (Logged(t, id) <==> Logged(s, id) || (id == s.nextId && t.log != s.log))
  {
    var t, n := OnUnauthorized(s, retried), s.nextId;
    forall id: Id
      ensures Open(t, id) <==> Open(s, id) || (id == n && t.log == s.log)
      ensures Logged(t, id) <==> Logged(s, id) || (id == n && t.log != s.log)
    {
      if t.queue != s.queue {
        assert t.queue[|s.queue|] == n;
      }
      if t.inFlight != s.inFlight {
        assert t.inFlight[|s.inFlight|].leader == n;
      }
      if t.log != s.log {
        assert t.log[|s.log|].id == n;
        assert forall i | 0 <= i < |s.log| :: t.log[i] == s.log[i];
      }
    }
  }

  lemma UnauthorizedSettlesOnce(s: State, retried: bool)
    requires Inv(s)
    ensures SettledOnce(OnUnauthorized(s, retried))
  {
    UnauthorizedBookkeeping(s, retried);
    assert !Open(s, s.nextId) && !Logged(s, s.nextId);
    assert forall i | 0 <= i < |s.log| :: Logged(s, s.log[i].id);
    assert forall i | 0 <= i < |s.queue| :: Open(s, s.queue[i]);
  }

  lemma UnauthorizedMatches(s: State, retried: bool)
    requires Inv(s)
    ensures OutcomesMatch(OnUnauthorized(s, retried)) && SingleFlight(OnUnauthorized(s, retried))
  {
    assert !Open(s, s.nextId) && !Logged(s, s.nextId);
    assert forall i | 0 <= i < |s.log| :: Logged(s, s.log[i].id);
    assert forall i | 0 <= i < |s.queue| :: Open(s, s.queue[i]);
  }

  lemma UnauthorizedKeepsInv(s: State, retried: bool)
    requires Inv(s)
    ensures Inv(OnUnauthorized(s, retried))
  {
    UnauthorizedSettlesOnce(s, retried);
    UnauthorizedMatches(s, retried);
  }

  /** What an answer adds to the log: the waiting requests in order, then the leader. */
  lemma ReplyLog(s: State, r: Reply)
    requires Inv(s) && s.isRefreshing
    ensures var t := OnReply(s, 0, r); var n := |s.log|; var q := |s.queue|;
            && |t.log| == n + q + 1
            && (forall i | 0 <= i < n :: t.log[i] == s.log[i])
            && (forall i | n <= i < n + q :: t.log[i] == Settled(s.queue[i - n], ForQueue(r)))
            && t.log[n + q] == Settled(s.inFlight[0].leader, ForLeader(r))
  {
  }

  lemma ReplyLogsDifferent(s: State, r: Reply)
    requires Inv(s) && s.isRefreshing
    ensures var t := OnReply(s, 0, r); forall i, j | 0 <= i < j < |t.log| :: t.log[i].id != t.log[j].id
  {
    ReplyLog(s, r);
    assert forall i | 0 <= i < |s.log| :: Logged(s, s.log[i].id);
    assert forall i | 0 <= i < |s.queue| :: Open(s, s.queue[i]);
    assert Open(s, s.inFlight[0].leader);
  }

  lemma ReplyLogsAll(s: State, r: Reply, id: Id)
    requires Inv(s) && s.isRefreshing
    ensures Logged(OnReply(s, 0, r), id) <==> Logged(s, id) || Open(s, id)
    ensures !Open(OnReply(s, 0, r), id)
  {
    var t, n, q := OnReply(s, 0, r), |s.log|, |s.queue|;
    ReplyLog(s, r);
    if Logged(s, id) {
      var i :| 0 <= i < n && s.log[i].id == id;
      assert t.log[i].id == id;
    } else if id in s.queue {
      var i :| 0 <= i < q && s.queue[i] == id;
      assert t.log[n + i].id == id;
    } else if Open(s, id) {
      assert t.log[n + q].id == id;
    }
  }

  lemma ReplySettlesOnce(s: State, r: Reply)
    requires Inv(s) && s.isRefreshing
    ensures SettledOnce(OnReply(s, 0, r))
  {
    ReplyLogsDifferent(s, r);
    forall id: Id
      ensures Logged(OnReply(s, 0, r), id) <==> Logged(s, id) || Open(s, id)
      ensures !Open(OnReply(s, 0, r), id)
    {
      ReplyLogsAll(s, r, id);
    }
  }

  /** What is settled by an answer gets that answer. */
  lemma ReplyMatchesNew(s: State, r: Reply, i: nat)
    requires Inv(s) && s.isRefreshing && |s.log| <= i < |OnReply(s, 0, r).log|
    ensures var t := OnReply(s, 0, r);
      && t.log[i].id in t.awaits && t.awaits[t.log[i].id] == s.nextCall - 1 && t.replies[s.nextCall - 1] == r
      && t.log[i].outcome == if t.log[i].id in t.leads then ForLeader(r) else ForQueue(r)
  {
    ReplyLog(s, r);
    if i < |s.log| + |s.queue| {
      assert s.queue[i - |s.log|] in s.awaits;
    }
  }

  lemma ReplyMatchesOld(s: State, r: Reply, i: nat)
    requires Inv(s) && s.isRefreshing && i < |s.log|
    ensures var t := OnReply(s, 0, r);
      && t.log[i] == s.log[i]
      && (s.log[i].id in s.awaits ==> s.awaits[s.log[i].id] in s.replies
                                      && t.replies[s.awaits[s.log[i].id]] == s.replies[s.awaits[s.log[i].id]])
  {
    ReplyLog(s, r);
  }

  lemma ReplyMatches(s: State, r: Reply)
    requires Inv(s) && s.isRefreshing
    ensures OutcomesMatch(OnReply(s, 0, r))
  {
    var t := OnReply(s, 0, r);
    forall i | 0 <= i < |t.log|
      ensures t.log[i].id !in t.awaits ==> t.log[i].outcome == Rejected
      ensures t.log[i].id in t.awaits ==>
                && t.awaits[t.log[i].id] in t.replies
                && t.log[i].outcome == if t.log[i].id in t.leads then ForLeader(t.replies[t.awaits[t.log[i].id]])
                                       else ForQueue(t.replies[t.awaits[t.log[i].id]])
    {
      if i < |s.log| {
        ReplyMatchesOld(s, r, i);
      } else {
        ReplyMatchesNew(s, r, i);
      }
    }
  }

  lemma ReplyKeepsInv(s: State, r: Reply)
    requires Inv(s) && s.isRefreshing
    ensures Inv(OnReply(s, 0, r))
  {
    ReplySettlesOnce(s, r);
    ReplyMatches(s, r);
  }

  lemma {:induction false} RunKeepsInv(s: State, events: seq<Event>)
    requires Inv(s)
    ensures Inv(Run(s, events))
    decreases |events|
  {
    if events != [] {
      match events[0] {
        case Unauthorized(retried) =>
          UnauthorizedKeepsInv(s, retried);
        case Replied(k, reply) =>
          if k < |s.inFlight| {
            ReplyKeepsInv(s, reply);
          }
        case _ =>
          var t := Apply(s, events[0]);
          assert forall id: Id :: Open(t, id) == Open(s, id) && Logged(t, id) == Logged(s, id);
      }
      RunKeepsInv(Apply(s, events[0]), events[1..]);
    }
  }

  /** In every run at most one refresh call is under way, and nobody waits when there is none. */
  lemma OneRefreshAtATime(events: seq<Event>)
    ensures var s := Run(INITIAL, events);
            |s.inFlight| <= 1 && (s.isRefreshing <==> s.inFlight != []) && (s.inFlight == [] ==> s.queue == [])
  {
    InitiallyInv();
    RunKeepsInv(INITIAL, events);
  }

  lemma InitiallyInv()
    ensures Inv(INITIAL)
  {
  }

  /** After a logout a request that is refused is rejected at once, whatever is under way; after a login the first
      one to be refused starts a refresh, if none is under way. */
  lemma LogoutAndLogin(s: State)
    requires Inv(s)
    ensures var t := OnUnauthorized(Apply(s, Logout), false);
      t.log == s.log + [Settled(s.nextId, Rejected)] && t.inFlight == s.inFlight && t.queue == s.queue
    ensures !s.isRefreshing ==>
              var t := OnUnauthorized(Apply(s, Login), false);
              t.log == s.log && t.isRefreshing && |t.inFlight| == 1 && t.inFlight[0].leader == s.nextId
  {
  }

  /** The answer to a refresh, case by case: on success everybody goes on with the new token; on an error before
      the queue was served those who wait are rejected, on one after it they go on; and on either the request
      that asked for the refresh sees its session end. */
  lemma AnswerReachesEveryone(s: State, r: Reply, id: Id)
    requires Inv(s) && s.isRefreshing && id in s.queue
    ensures var t, leader := OnReply(s, 0, r), s.inFlight[0].leader;
      match r
      case Succeeds(token) => Settled(id, Resumed(token)) in t.log && Settled(leader, Resumed(token)) in t.log
      case Fails => Settled(id, Rejected) in t.log && Settled(leader, SessionEnded) in t.log
      case FailsLate(token) => Settled(id, Resumed(token)) in t.log && Settled(leader, SessionEnded) in t.log
    ensures OnReply(s, 0, r).queue == [] && OnReply(s, 0, r).inFlight == []
  {
    var i :| 0 <= i < |s.queue| && s.queue[i] == id;
    ReplyLog(s, r);
    var t := OnReply(s, 0, r);
    assert t.log[|s.log| + i].id == id && t.log[|s.log| + |s.queue|].id == s.inFlight[0].leader;
  }

  /** In every run each request is settled at most once, none is lost while it waits, and a request that
      waited for a refresh, or asked for it, gets that refresh's outcome. */
  lemma SettledByTheirRefresh(events: seq<Event>)
    ensures var s := Run(INITIAL, events);
            && (forall i, j | 0 <= i < j < |s.log| :: s.log[i].id != s.log[j].id)
            && (forall id: Id | id < s.nextId :: Open(s, id) || Logged(s, id))
            && (forall id: Id | Open(s, id) :: !Logged(s, id))
    ensures var s := Run(INITIAL, events);
            forall i | 0 <= i < |s.log| && s.log[i].id in s.awaits ::
              s.awaits[s.log[i].id] in s.replies
              && match s.replies[s.awaits[s.log[i].id]]
                 case Succeeds(token) => s.log[i].outcome == Resumed(token)
                 case Fails => s.log[i].outcome == if s.log[i].id in s.leads then SessionEnded else Rejected
                 case FailsLate(token) => s.log[i].outcome == if s.log[i].id in s.leads then SessionEnded else Resumed(token)
    ensures var s := Run(INITIAL, events);
            forall i | 0 <= i < |s.log| && s.log[i].id !in s.awaits :: s.log[i].outcome == Rejected
  {
    InitiallyInv();
    RunKeepsInv(INITIAL, events);
  }
}
