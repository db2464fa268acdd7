/** The archive schedulers: a pass lists old invoices, and gives each a log row and then the status archived,
    one statement each, any of which may fail; the process may stop between any two. Passes of several
    schedulers interleave, and everything else may change invoices and restore logs at any time. */
module Archive {
  import opened Records
  import opened Wrappers
  import opened Ids

  /** Unprocessed is what the tables call pending. */
  datatype Status = Unprocessed | Verified | Conflict | Invalid | Archived

  /** Which status values the table's check takes. */
  type Check = Status -> bool

  datatype Log = Log(invoice: Id, restored: bool)

  /** A pass under way: the invoices it still has to log, and the one it has logged but not yet marked. */
  datatype Pass = Pass(todo: seq<Id>, logged: Option<Id>)

  /** The two tables, and the passes of the schedulers that are not idle. */
  datatype State = State(status: map<Id, Status>, logs: map<Id, Log>, nextId: Id, passes: map<nat, Pass>)

  const IDLE := Pass([], None)
  const INITIAL := State(map[], map[], 0, map[])

  function PassOf(s: State, k: nat): Pass {
    if k in s.passes then s.passes[k] else IDLE
  }

  function Put(passes: map<nat, Pass>, k: nat, p: Pass): map<nat, Pass> {
    if p == IDLE then passes - {k} else passes[k := p]
  }

  predicate HasActiveLog(logs: map<Id, Log>, x: Id) {
    exists g | g in logs :: logs[g] == Log(x, false)
  }

  predicate HasLog(logs: map<Id, Log>, x: Id) {
    exists g | g in logs :: logs[g].invoice == x
  }

  /** What FindInvoicesToArchive selects, given the invoices of the tenant that are old enough. */
  predicate Eligible(status: map<Id, Status>, logs: map<Id, Log>, aged: set<Id>, x: Id) {
    x in aged && x in status && status[x] != Archived && status[x] != Unprocessed && !HasActiveLog(logs, x)
  }

  /** `ok` says whether the statement gets through to the table at all. */
  datatype Event =
    | Create
    | SetStatus(invoice: Id, status: Status)
    | Delete(invoice: Id)
    | Restore(log: Id)
    | Find(scheduler: nat, listed: seq<Id>, aged: set<Id>)
    | WriteLog(scheduler: nat, ok: bool)
    | Mark(scheduler: nat, ok: bool)
    | Stop(scheduler: nat)

  function InsertLog(logs: map<Id, Log>, id: Id, x: Id): map<Id, Log> {
    logs[id := Log(x, false)]
  }

  /** An UPDATE of the status: the row has to exist, and the check has to take the value. */
  function Write(takes: Check, status: map<Id, Status>, x: Id, value: Status): map<Id, Status> {
    if x in status && takes(value) then status[x := value] else status
  }

  ghost predicate IsListing(s: State, listed: seq<Id>, aged: set<Id>) {
    && Distinct(listed)
    && (forall x :: x in listed <==> Eligible(s.status, s.logs, aged, x))
  }

  ghost function DoFind(s: State, k: nat, listed: seq<Id>, aged: set<Id>): State {
    if PassOf(s, k) == IDLE && IsListing(s, listed, aged) then s.(passes := Put(s.passes, k, Pass(listed, None))) else s
  }

  function DoWriteLog(s: State, k: nat, ok: bool): State {
    var p := PassOf(s, k);
    if p.todo == [] || p.logged.Some? then s
    else if !ok then s.(passes := Put(s.passes, k, Pass(p.todo[1..], None)))
    else State(s.status, InsertLog(s.logs, s.nextId, p.todo[0]), s.nextId + 1,
               Put(s.passes, k, Pass(p.todo[1..], Some(p.todo[0]))))
  }

  function DoMark(takes: Check, s: State, k: nat, ok: bool): State {
    var p := PassOf(s, k);
    if p.logged.None? then s
    else s.(passes := Put(s.passes, k, Pass(p.todo, None)),
            status := if ok then Write(takes, s.status, p.logged.value, Archived) else s.status)
  }

  /** Only a pass writes the status archived. */
  ghost function Apply(takes: Check, s: State, e: Event): State {
    match e
    case Create => if takes(Unprocessed) then s.(status := s.status[s.nextId := Unprocessed], nextId := s.nextId + 1) else s
    case SetStatus(x, status) => if status != Archived then s.(status := Write(takes, s.status, x, status)) else s
    case Delete(x) => s.(status := s.status - {x})
    case Restore(g) => if g in s.logs then s.(logs := s.logs[g := s.logs[g].(restored := true)]) else s
    case Find(k, listed, aged) => DoFind(s, k, listed, aged)
    case WriteLog(k, ok) => DoWriteLog(s, k, ok)
    case Mark(k, ok) => DoMark(takes, s, k, ok)
    case Stop(k) => s.(passes := Put(s.passes, k, IDLE))
  }

  ghost function Run(takes: Check, s: State, events: seq<Event>): State
    decreases |events|
  {
    if events == [] then s else Run(takes, Apply(takes, s, events[0]), events[1..])
  }

  /** Which value a step writes to the status of an invoice, if it writes any. */
  function Written(takes: Check, s: State, e: Event, x: Id): Option<Status> {
    if e.SetStatus? && e.invoice == x && e.status != Archived && takes(e.status) then Some(e.status)
    else if e.Mark? && e.ok && PassOf(s, e.scheduler).logged == Some(x) && takes(Archived) then Some(Archived)
    else None
  }

  /** What a step makes of the status of an invoice that is there. */
  lemma StatusMoves(takes: Check, s: State, e: Event, x: Id)
    requires s.nextId !in s.status && x in s.status
    ensures x in Apply(takes, s, e).status <==> !(e.Delete? && e.invoice == x)
    ensures x in Apply(takes, s, e).status && Written(takes, s, e, x).Some? ==>
              Apply(takes, s, e).status[x] == Written(takes, s, e, x).value
    ensures x in Apply(takes, s, e).status && Written(takes, s, e, x).None? ==> Apply(takes, s, e).status[x] == s.status[x]
  {
  }

  /** A pass begins only when the scheduler has none under way, with exactly the eligible invoices. */
  lemma PassBeginsIff(takes: Check, s: State, k: nat, listed: seq<Id>, aged: set<Id>)
    requires listed != [] && k !in s.passes
    ensures Apply(takes, s, Find(k, listed, aged)) ==
            if IsListing(s, listed, aged) then s.(passes := s.passes[k := Pass(listed, None)]) else s
  {
  }

  lemma PassGoesOn(takes: Check, s: State, k: nat, listed: seq<Id>, aged: set<Id>)
    requires k in s.passes && s.passes[k] != Pass([], None)
    ensures Apply(takes, s, Find(k, listed, aged)) == s
  {
  }

  // ---------- Archived invoices have logs ----------

  /** What every run keeps, however many schedulers there are. */
  ghost predicate LogsOk(s: State) {
    && (forall g | g in s.logs :: g < s.nextId)
    && (forall x | x in s.status && s.status[x] == Archived :: HasLog(s.logs, x))
    && (forall k | k in s.passes && s.passes[k].logged.Some? :: HasLog(s.logs, s.passes[k].logged.value))
  }

  lemma WriteLogAdds(s: State, k: nat, y: Id)
    requires forall g | g in s.logs :: g < s.nextId
    requires PassOf(s, k).todo != [] && PassOf(s, k).logged.None?
    ensures var t := DoWriteLog(s, k, true); var x := PassOf(s, k).todo[0];
      && (HasLog(t.logs, y) <==> HasLog(s.logs, y) || y == x)
      && (HasActiveLog(t.logs, y) <==> HasActiveLog(s.logs, y) || y == x)
  {
    var t := DoWriteLog(s, k, true);
    assert t.logs[s.nextId] == Log(PassOf(s, k).todo[0], false);
    assert forall g | g in s.logs :: t.logs[g] == s.logs[g];
  }

  lemma RestoreRemoves(s: State, g: Id, y: Id)
    requires g in s.logs
    ensures var logs := s.logs[g := s.logs[g].(restored := true)];
      (HasLog(logs, y) <==> HasLog(s.logs, y)) && (HasActiveLog(logs, y) ==> HasActiveLog(s.logs, y))
  {
    var logs := s.logs[g := s.logs[g].(restored := true)];
    assert forall h | h in logs :: logs[h].invoice == s.logs[h].invoice;
  }

  lemma StepKeepsLogs(takes: Check, s: State, e: Event)
    requires LogsOk(s)
    ensures LogsOk(Apply(takes, s, e))
  {
    if e.WriteLog? && e.ok && PassOf(s, e.scheduler).todo != [] && PassOf(s, e.scheduler).logged.None? {
      forall y ensures HasLog(s.logs, y) || y == PassOf(s, e.scheduler).todo[0] ==> HasLog(Apply(takes, s, e).logs, y) {
        WriteLogAdds(s, e.scheduler, y);
      }
    } else if e.Restore? && e.log in s.logs {
      forall y ensures HasLog(s.logs, y) ==> HasLog(Apply(takes, s, e).logs, y) {
        RestoreRemoves(s, e.log, y);
      }
    }
  }

  lemma {:induction false} RunKeepsLogs(takes: Check, s: State, events: seq<Event>)
    requires LogsOk(s)
    ensures LogsOk(Run(takes, s, events))
    decreases |events|
  {
    if events != [] {
      StepKeepsLogs(takes, s, events[0]);
      RunKeepsLogs(takes, Apply(takes, s, events[0]), events[1..]);
    }
  }

  /** In every run, however many schedulers and with stops between any two statements, an archived invoice
      has a log. */
  lemma ArchivedHasLog(takes: Check, events: seq<Event>, x: Id)
    requires var s := Run(takes, INITIAL, events); x in s.status && s.status[x] == Archived
    ensures HasLog(Run(takes, INITIAL, events).logs, x)
  {
    RunKeepsLogs(takes, INITIAL, events);
  }

  // ---------- One active log per invoice ----------

  ghost predicate OneActiveLog(logs: map<Id, Log>) {
    forall g, h | g in logs && h in logs && logs[g] == logs[h] && !logs[g].restored :: g == h
  }

  /** A log row that is written finds no active log of its invoice. */
  ghost predicate FreshLog(s: State, e: Event) {
    e.WriteLog? && e.ok && PassOf(s, e.scheduler).todo != [] && PassOf(s, e.scheduler).logged.None? ==>
      !HasActiveLog(s.logs, PassOf(s, e.scheduler).todo[0])
  }

  ghost predicate AllFresh(takes: Check, s: State, events: seq<Event>)
    decreases |events|
  {
    events == [] || (FreshLog(s, events[0]) && AllFresh(takes, Apply(takes, s, events[0]), events[1..]))
  }

  ghost predicate AlwaysOneActiveLog(takes: Check, s: State, events: seq<Event>)
    decreases |events|
  {
    OneActiveLog(s.logs) && (events == [] || AlwaysOneActiveLog(takes, Apply(takes, s, events[0]), events[1..]))
  }

  lemma StepLogsOnceIff(takes: Check, s: State, e: Event)
    requires LogsOk(s) && OneActiveLog(s.logs)
    ensures OneActiveLog(Apply(takes, s, e).logs) <==> FreshLog(s, e)
  {
    if e.WriteLog? && e.ok && PassOf(s, e.scheduler).todo != [] && PassOf(s, e.scheduler).logged.None? {
      InsertLogsOnceIff(s.logs, s.nextId, PassOf(s, e.scheduler).todo[0]);
    }
  }

  lemma InsertLogsOnceIff(logs: map<Id, Log>, n: Id, x: Id)
    requires OneActiveLog(logs) && n !in logs
    ensures OneActiveLog(InsertLog(logs, n, x)) <==> !HasActiveLog(logs, x)
  {
    var after := InsertLog(logs, n, x);
    if g :| g in logs && logs[g] == Log(x, false) {
      assert after[g] == after[n];
    }
  }

  /** However many schedulers there are: no invoice ever has two active logs exactly if every log row that is
      written finds no active log of its invoice. */
  lemma {:induction false} OneActiveLogIff(takes: Check, s: State, events: seq<Event>)
    requires LogsOk(s) && OneActiveLog(s.logs)
    ensures AlwaysOneActiveLog(takes, s, events) <==> AllFresh(takes, s, events)
    decreases |events|
  {
    if events != [] {
      var u := Apply(takes, s, events[0]);
      StepLogsOnceIff(takes, s, events[0]);
      StepKeepsLogs(takes, s, events[0]);
      if FreshLog(s, events[0]) {
        OneActiveLogIff(takes, u, events[1..]);
      } else {
        assert !AlwaysOneActiveLog(takes, u, events[1..]);
      }
    }
  }

  // ---------- Passes that keep apart ----------

  /** What a pass still has to log has no active log, and no two passes still have to log the same invoice. */
  ghost predicate TodoOk(s: State) {
    && (forall k | k in s.passes :: Distinct(s.passes[k].todo))
    && (forall k, x | k in s.passes && x in s.passes[k].todo :: !HasActiveLog(s.logs, x))
    && (forall j, k, x | j in s.passes && k in s.passes && x in s.passes[j].todo && x in s.passes[k].todo :: j == k)
  }

  ghost predicate Inv(s: State) {
    LogsOk(s) && OneActiveLog(s.logs) && TodoOk(s)
  }

  /** A pass that begins lists nothing that another pass still has to log. */
  ghost predicate Apart(s: State, e: Event) {
    e.Find? ==> forall k, x | k in s.passes && k != e.scheduler && x in s.passes[k].todo :: x !in e.listed
  }

  ghost predicate AllApart(takes: Check, s: State, events: seq<Event>)
    decreases |events|
  {
    events == [] || (Apart(s, events[0]) && AllApart(takes, Apply(takes, s, events[0]), events[1..]))
  }

  lemma WriteLogKeepsTodo(s: State, k: nat)
    requires LogsOk(s) && TodoOk(s) && PassOf(s, k).todo != [] && PassOf(s, k).logged.None?
    ensures TodoOk(DoWriteLog(s, k, true)) && !HasActiveLog(s.logs, PassOf(s, k).todo[0])
  {
    var t, p := DoWriteLog(s, k, true), s.passes[k];
    assert p.todo[0] in p.todo && p.todo[0] !in p.todo[1..];
    assert forall x | x in p.todo[1..] :: x in p.todo;
    forall j, y | j in t.passes && y in t.passes[j].todo ensures !HasActiveLog(t.logs, y) {
      WriteLogAdds(s, k, y);
      assert y in s.passes[j].todo;
    }
  }

  lemma SkipKeepsTodo(s: State, k: nat)
    requires TodoOk(s) && PassOf(s, k).todo != [] && PassOf(s, k).logged.None?
    ensures TodoOk(DoWriteLog(s, k, false))
  {
    var p := s.passes[k];
    assert forall x | x in p.todo[1..] :: x in p.todo;
  }

  lemma RestoreKeepsTodo(takes: Check, s: State, g: Id)
    requires TodoOk(s)
    ensures TodoOk(Apply(takes, s, Restore(g)))
  {
    if g in s.logs {
      forall y ensures HasActiveLog(Apply(takes, s, Restore(g)).logs, y) ==> HasActiveLog(s.logs, y) {
        RestoreRemoves(s, g, y);
      }
    }
  }

  lemma StepKeepsTodo(takes: Check, s: State, e: Event)
    requires LogsOk(s) && TodoOk(s) && Apart(s, e)
    ensures TodoOk(Apply(takes, s, e)) && FreshLog(s, e)
  {
    if e.WriteLog? && PassOf(s, e.scheduler).todo != [] && PassOf(s, e.scheduler).logged.None? {
      if e.ok {
        WriteLogKeepsTodo(s, e.scheduler);
      } else {
        SkipKeepsTodo(s, e.scheduler);
      }
    } else if e.Restore? {
      RestoreKeepsTodo(takes, s, e.log);
    }
  }

  lemma StepKeepsInv(takes: Check, s: State, e: Event)
    requires Inv(s) && Apart(s, e)
    ensures Inv(Apply(takes, s, e)) && FreshLog(s, e)
  {
    StepKeepsTodo(takes, s, e);
    StepLogsOnceIff(takes, s, e);
    StepKeepsLogs(takes, s, e);
  }

  /** Passes that keep apart write only fresh logs. */
  lemma {:induction false} ApartIsFresh(takes: Check, s: State, events: seq<Event>)
    requires Inv(s) && AllApart(takes, s, events)
    ensures AllFresh(takes, s, events) && Inv(Run(takes, s, events))
    decreases |events|
  {
    if events != [] {
      StepKeepsInv(takes, s, events[0]);
      ApartIsFresh(takes, Apply(takes, s, events[0]), events[1..]);
    }
  }

  predicate IsBy(e: Event, k: nat) {
    e.Find? || e.WriteLog? || e.Mark? || e.Stop? ==> e.scheduler == k
  }

  ghost predicate ByOne(events: seq<Event>, k: nat) {
    forall e | e in events :: IsBy(e, k)
  }

  /** A single scheduler keeps apart from itself. */
  lemma {:induction false} OneSchedulerIsApart(takes: Check, s: State, events: seq<Event>, k: nat)
    requires s.passes.Keys <= {k} && ByOne(events, k)
    ensures AllApart(takes, s, events)
    decreases |events|
  {
    if events != [] {
      assert IsBy(events[0], k);
      OneSchedulerIsApart(takes, Apply(takes, s, events[0]), events[1..], k);
    }
  }

  /** With one scheduler, or several whose passes keep apart, no invoice ever has two active logs: stops
      between any two statements, failing statements, restores and status changes included. */
  lemma ArchiveIsSafe(takes: Check, events: seq<Event>)
    requires AllApart(takes, INITIAL, events) || exists k: nat :: ByOne(events, k)
    ensures AlwaysOneActiveLog(takes, INITIAL, events)
  {
    if k: nat :| ByOne(events, k) {
      OneSchedulerIsApart(takes, INITIAL, events, k);
    }
    ApartIsFresh(takes, INITIAL, events);
    OneActiveLogIff(takes, INITIAL, events);
  }

  /** Two schedulers list the same invoice before either logs it. */
  function TwoPasses(): seq<Event> {
    [Create, SetStatus(0, Verified), Find(0, [0], {0}), Find(1, [0], {0}), WriteLog(0, true), WriteLog(1, true)]
  }

  lemma RunFirst(takes: Check, s: State, e: Event, rest: seq<Event>)
    ensures Run(takes, s, [e] + rest) == Run(takes, Apply(takes, s, e), rest)
  {
    assert ([e] + rest)[1..] == rest;
  }

  lemma TwoPassesRun(takes: Check)
    requires takes(Unprocessed) && takes(Verified)
    ensures Run(takes, INITIAL, TwoPasses()[..4]) ==
            State(map[0 := Verified], map[], 1, map[0 := Pass([0], None), 1 := Pass([0], None)])
  {
    var es := TwoPasses();
    var s1 := Apply(takes, INITIAL, Create);
    var s2 := Apply(takes, s1, SetStatus(0, Verified));
    assert s2 == State(map[0 := Verified], map[], 1, map[]);
    assert IsListing(s2, [0], {0});
    var s3 := Apply(takes, s2, Find(0, [0], {0}));
    assert s3.passes == map[0 := Pass([0], None)];
    var s4 := Apply(takes, s3, Find(1, [0], {0}));
    assert s4.passes == map[0 := Pass([0], None), 1 := Pass([0], None)];
    assert es[..4] == [es[0]] + ([es[1]] + ([es[2]] + ([es[3]] + [])));
    RunFirst(takes, INITIAL, es[0], [es[1]] + ([es[2]] + ([es[3]] + [])));
    RunFirst(takes, s1, es[1], [es[2]] + ([es[3]] + []));
    RunFirst(takes, s2, es[2], [es[3]] + []);
    RunFirst(takes, s3, es[3], []);
  }

  lemma {:induction false} RunAppend(takes: Check, s: State, xs: seq<Event>, ys: seq<Event>)
    ensures Run(takes, s, xs + ys) == Run(takes, Run(takes, s, xs), ys)
    decreases |xs|
  {
    if xs == [] {
      assert xs + ys == ys;
    } else {
      assert (xs + ys)[1..] == xs[1..] + ys;
      RunAppend(takes, Apply(takes, s, xs[0]), xs[1..], ys);
    }
  }

  lemma BothLog(takes: Check)
    ensures var s := State(map[0 := Verified], map[], 1, map[0 := Pass([0], None), 1 := Pass([0], None)]);
      Run(takes, s, [WriteLog(0, true), WriteLog(1, true)]).logs == map[1 := Log(0, false), 2 := Log(0, false)]
  {
    var s := State(map[0 := Verified], map[], 1, map[0 := Pass([0], None), 1 := Pass([0], None)]);
    var t := Apply(takes, s, WriteLog(0, true));
    assert t.logs == map[1 := Log(0, false)] && t.nextId == 2 && PassOf(t, 1) == Pass([0], None);
    RunFirst(takes, s, WriteLog(0, true), [WriteLog(1, true)]);
    RunFirst(takes, t, WriteLog(1, true), []);
    assert [WriteLog(0, true)] + [WriteLog(1, true)] == [WriteLog(0, true), WriteLog(1, true)];
    assert [WriteLog(1, true)] + [] == [WriteLog(1, true)];
  }

  /** Then that invoice has two active logs. */
  lemma TwoSchedulersLogTwice(takes: Check)
    requires takes(Unprocessed) && takes(Verified)
    ensures Run(takes, INITIAL, TwoPasses()).logs == map[1 := Log(0, false), 2 := Log(0, false)]
    ensures !OneActiveLog(Run(takes, INITIAL, TwoPasses()).logs)
  {
    var es := TwoPasses();
    TwoPassesRun(takes);
    BothLog(takes);
    RunAppend(takes, INITIAL, es[..4], [WriteLog(0, true), WriteLog(1, true)]);
    assert es == es[..4] + [WriteLog(0, true), WriteLog(1, true)];
    var logs := Run(takes, INITIAL, es).logs;
    assert logs[1] == logs[2];
  }

  // ---------- After a stop ----------

  /** No pass will log or mark the invoice as things stand. */
  ghost predicate NobodyHas(s: State, x: Id) {
    forall k | k in s.passes :: x !in s.passes[k].todo && s.passes[k].logged != Some(x)
  }

  lemma {:induction false} NeverMarked(takes: Check, s: State, events: seq<Event>, g: Id, x: Id)
    requires g < s.nextId && g in s.logs && s.logs[g] == Log(x, false) && NobodyHas(s, x) && Restore(g) !in events
    ensures var t := Run(takes, s, events);
      HasActiveLog(t.logs, x) && (x in t.status && t.status[x] == Archived ==> x in s.status && s.status[x] == Archived)
    decreases |events|
  {
    if events != [] {
      NobodyTakesUp(takes, s, events[0], g, x);
      NeverMarked(takes, Apply(takes, s, events[0]), events[1..], g, x);
    }
  }

  lemma NobodyTakesUp(takes: Check, s: State, e: Event, g: Id, x: Id)
    requires g < s.nextId && g in s.logs && s.logs[g] == Log(x, false) && NobodyHas(s, x) && e != Restore(g)
    ensures var t := Apply(takes, s, e);
      && g < t.nextId && g in t.logs && t.logs[g] == Log(x, false) && NobodyHas(t, x)
      && (x in t.status && t.status[x] == Archived ==> x in s.status && s.status[x] == Archived)
  {
    assert HasActiveLog(s.logs, x);
  }

  /** An invoice logged before a stop, and on no other pass's hands, is never selected and never marked in any
      later run of any schedulers, as long as nobody restores its log: the second half of its archiving never
      comes. */
  lemma StoppedInvoiceIsNotFound(takes: Check, s: State, k: nat, x: Id, events: seq<Event>, aged: set<Id>)
    requires Inv(s) && PassOf(s, k).todo != [] && PassOf(s, k).logged.None? && PassOf(s, k).todo[0] == x
    requires forall j | j in s.passes :: s.passes[j].logged != Some(x)
    requires Restore(s.nextId) !in events
    ensures var t := Run(takes, Apply(takes, Apply(takes, s, WriteLog(k, true)), Stop(k)), events);
      && !Eligible(t.status, t.logs, aged, x)
      && (x in t.status && t.status[x] == Archived ==> x in s.status && s.status[x] == Archived)
  {
    var u := Apply(takes, s, WriteLog(k, true));
    assert u.logs[s.nextId] == Log(x, false);
    NeverMarked(takes, Apply(takes, u, Stop(k)), events, s.nextId, x);
  }

  /** Restoring an active log opens the way again: then the invoice is selected if and only if it is old
      enough and its status allows it. */
  lemma RestoredIsFoundIff(takes: Check, s: State, g: Id, x: Id, aged: set<Id>)
    requires OneActiveLog(s.logs) && g in s.logs && s.logs[g] == Log(x, false)
    ensures var t := Apply(takes, s, Restore(g));
      Eligible(t.status, t.logs, aged, x) <==> x in aged && x in s.status && s.status[x] != Archived && s.status[x] != Unprocessed
  {
    var t := Apply(takes, s, Restore(g));
    assert forall h | h in s.logs && s.logs[h] == s.logs[g] :: h == g;
    assert forall h | h in t.logs && h != g :: t.logs[h] == s.logs[h];
  }

  // ---------- The table's check ----------

  ghost predicate AllTaken(takes: Check, s: State) {
    forall x | x in s.status :: takes(s.status[x])
  }

  lemma {:induction false} RunKeepsCheck(takes: Check, s: State, events: seq<Event>)
    requires AllTaken(takes, s)
    ensures AllTaken(takes, Run(takes, s, events))
    decreases |events|
  {
    if events != [] {
      RunKeepsCheck(takes, Apply(takes, s, events[0]), events[1..]);
    }
  }

  ghost predicate Marks(takes: Check, events: seq<Event>) {
    exists x :: x in Run(takes, INITIAL, events).status && Run(takes, INITIAL, events).status[x] == Archived
  }

  function OnePass(): seq<Event> {
    [Create, SetStatus(0, Verified), Find(0, [0], {0}), WriteLog(0, true), Mark(0, true)]
  }

  lemma OnePassMarks(takes: Check)
    requires takes(Unprocessed) && takes(Verified) && takes(Archived)
    ensures Marks(takes, OnePass())
  {
    var es := OnePass();
    var s1 := Apply(takes, INITIAL, es[0]);
    var s2 := Apply(takes, s1, es[1]);
    assert s2 == State(map[0 := Verified], map[], 1, map[]);
    var s3 := Apply(takes, s2, es[2]);
    assert IsListing(s2, [0], {0});
    assert s3 == State(map[0 := Verified], map[], 1, map[0 := Pass([0], None)]);
    var s4 := Apply(takes, s3, es[3]);
    assert PassOf(s3, 0) == Pass([0], None) && [0][1..] == [];
    assert s4.passes == map[0 := Pass([], Some(0))];
    var s5 := Apply(takes, s4, es[4]);
    RunFirst(takes, INITIAL, es[0], [es[1]] + ([es[2]] + ([es[3]] + ([es[4]] + []))));
    RunFirst(takes, s1, es[1], [es[2]] + ([es[3]] + ([es[4]] + [])));
    RunFirst(takes, s2, es[2], [es[3]] + ([es[4]] + []));
    RunFirst(takes, s3, es[3], [es[4]] + []);
    RunFirst(takes, s4, es[4], []);
    assert es == [es[0]] + ([es[1]] + ([es[2]] + ([es[3]] + ([es[4]] + []))));
    assert s5.status[0] == Archived && Run(takes, INITIAL, es) == s5;
  }

  /** Some run marks an invoice if and only if the table's check takes the value archived. */
  lemma SomeRunMarksIff(takes: Check)
    requires takes(Unprocessed) && takes(Verified)
    ensures (exists events :: Marks(takes, events)) <==> takes(Archived)
  {
    if takes(Archived) {
      OnePassMarks(takes);
    } else {
      forall events ensures !Marks(takes, events) {
        RunKeepsCheck(takes, INITIAL, events);
      }
    }
  }

  /** The status values of migration 006. No later migration changes them. */
  const MIGRATED: Check := status => status == Unprocessed || status == Verified || status == Conflict

  /** So with the migrations as they are no run ever marks an invoice: a pass writes its log rows, and all its
      second statements fail. */
  lemma NothingIsMarked(events: seq<Event>)
    ensures !Marks(MIGRATED, events)
  {
    SomeRunMarksIff(MIGRATED);
  }

  // ---------- The program ----------

  /** Which invoices a pass ends up marking, given what gets through to the tables. */
  predicate GetsMarked(takes: Check, logs: Id -> bool, marks: Id -> bool, x: Id) {
    logs(x) && marks(x) && takes(Archived)
  }

  /** The events of one invoice in a pass: a log row that fails is passed over. */
  function EventsOf(k: nat, logs: bool, marks: bool): seq<Event> {
    if logs then [WriteLog(k, true), Mark(k, marks)] else [WriteLog(k, false)]
  }

  class Scheduler {
    var status: map<Id, Status>
    var logs: map<Id, Log>
    var nextId: Id
    const takes: Check

    /** The tables, while scheduler k is the only one with a pass under way. */
    ghost function At(k: nat, todo: seq<Id>): State
      reads this
    {
      State(status, logs, nextId, Put(map[], k, Pass(todo, None)))
    }

    constructor (takes: Check)
      ensures this.takes == takes && forall k :: At(k, []) == INITIAL
    {
      this.takes := takes;
      status, logs, nextId := map[], map[], 0;
    }

    method FindInvoicesToArchive(aged: set<Id>) returns (found: seq<Id>)
      ensures Distinct(found) && forall x :: x in found <==> Eligible(status, logs, aged, x)
    {
      found := [];
      var rest := aged;
      while rest != {}
        invariant rest <= aged && Distinct(found)
        invariant forall x :: x in found <==> x in aged - rest && Eligible(status, logs, aged, x)
      {
        var x :| x in rest;
        if Eligible(status, logs, aged, x) {
          found := found + [x];
        }
        rest := rest - {x};
      }
    }

    /** The loop body: log the invoice, then mark it. A log row that fails leaves the invoice to the next pass. */
    method ArchiveOne(x: Id, logOk: bool, markOk: bool, ghost k: nat, ghost rest: seq<Id>) returns (marked: bool)
      requires x in status && forall g | g in logs :: g < nextId
      modifies this
      ensures forall g | g in logs :: g < nextId
      ensures At(k, rest) == Run(takes, old(At(k, [x] + rest)), EventsOf(k, logOk, markOk))
      ensures marked <==> logOk && markOk && takes(Archived)
      ensures status == if marked then old(status)[x := Archived] else old(status)
      ensures forall y :: HasActiveLog(logs, y) <==> HasActiveLog(old(logs), y) || (y == x && logOk)
    {
      ghost var before := At(k, [x] + rest);
      OneInvoice(takes, before, k, x, rest, logOk, markOk);
      marked := false;
      if !logOk {
        return;
      }
      forall y ensures HasActiveLog(InsertLog(logs, nextId, x), y) <==> HasActiveLog(logs, y) || y == x {
        WriteLogAdds(before, k, y);
      }
      logs := InsertLog(logs, nextId, x);
      nextId := nextId + 1;
      if markOk && takes(Archived) {
        status := status[x := Archived];
        marked := true;
      }
    }

    /** One pass over a tenant, undisturbed: every eligible invoice whose log row gets through has one active
        log, those whose mark gets through as well are archived and counted, and nothing else changes. The
        pass is a run of the step system. */
    method ArchiveTenant(aged: set<Id>, logOk: Id -> bool, markOk: Id -> bool, ghost k: nat)
      returns (count: nat, ghost events: seq<Event>)
      requires Inv(At(k, []))
      modifies this
      ensures Run(takes, old(At(k, [])), events) == At(k, []) && Inv(At(k, []))
      ensures status.Keys == old(status).Keys
      ensures forall x | x in status :: status[x] ==
                if Eligible(old(status), old(logs), aged, x) && GetsMarked(takes, logOk, markOk, x) then Archived else old(status)[x]
      ensures forall x :: HasActiveLog(logs, x) <==> HasActiveLog(old(logs), x) || (Eligible(old(status), old(logs), aged, x) && logOk(x))
      ensures count == |set x | x in aged && Eligible(old(status), old(logs), aged, x) && GetsMarked(takes, logOk, markOk, x)|
    {
      ghost var start := At(k, []);
      var found := FindInvoicesToArchive(aged);
      events := [Find(k, found, aged)];
      FindStarts(takes, start, k, found, aged);
      count, events := ArchiveAll(found, logOk, markOk, k, start, events);
      assert MarkedOf(takes, found, logOk, markOk)
          == set x | x in aged && Eligible(start.status, start.logs, aged, x) && GetsMarked(takes, logOk, markOk, x);
      PassKeepsInv(takes, start, events, k, At(k, []));
    }

    /** The loop over the invoices found. */
    method ArchiveAll(found: seq<Id>, logOk: Id -> bool, markOk: Id -> bool, ghost k: nat, ghost start: State, ghost before: seq<Event>)
      returns (count: nat, ghost events: seq<Event>)
      requires Distinct(found) && (forall x | x in found :: x in status) && forall g | g in logs :: g < nextId
      requires Run(takes, start, before) == At(k, found) && ByOne(before, k)
      modifies this
      ensures Run(takes, start, events) == At(k, []) && ByOne(events, k)
      ensures status == MarkAll(old(status), MarkedOf(takes, found, logOk, markOk))
      ensures LoggedToo(old(logs), found, logOk, logs)
      ensures count == |MarkedOf(takes, found, logOk, markOk)|
    {
      ghost var status0, logs0 := status, logs;
      events, count := before, 0;
      for i := 0 to |found|
        invariant Run(takes, start, events) == At(k, found[i..]) && ByOne(events, k)
        invariant forall g | g in logs :: g < nextId
        invariant status == MarkAll(status0, MarkedOf(takes, found[..i], logOk, markOk))
        invariant LoggedToo(logs0, found[..i], logOk, logs)
        invariant count == |MarkedOf(takes, found[..i], logOk, markOk)|
      {
        var x := found[i];
        ghost var now, logs1, done := At(k, found[i..]), logs, found[..i];
        NextOf(found, i);
        var marked := ArchiveOne(x, logOk(x), markOk(x), k, found[i + 1..]);
        RunGoesOn(takes, start, events, now, k, logOk(x), markOk(x));
        MarkedGoesOn(takes, status0, done, x, logOk, markOk);
        LoggedGoesOn(logs0, done, x, logOk, logs1, logs);
        events := events + EventsOf(k, logOk(x), markOk(x));
        if marked {
          count := count + 1;
        }
      }
      assert found[..|found|] == found && found[|found|..] == [];
    }
  }

  lemma NextOf(found: seq<Id>, i: nat)
    requires Distinct(found) && i < |found|
    ensures found[i..] == [found[i]] + found[i + 1..] && found[..i + 1] == found[..i] + [found[i]] && found[i] !in found[..i]
  {
  }

  lemma RunGoesOn(takes: Check, start: State, events: seq<Event>, now: State, k: nat, logOk: bool, markOk: bool)
    requires Run(takes, start, events) == now && ByOne(events, k)
    ensures Run(takes, start, events + EventsOf(k, logOk, markOk)) == Run(takes, now, EventsOf(k, logOk, markOk))
    ensures ByOne(events + EventsOf(k, logOk, markOk), k)
  {
    RunAppend(takes, start, events, EventsOf(k, logOk, markOk));
  }

  /** The invoices among these that a pass marks. */
  function MarkedOf(takes: Check, xs: seq<Id>, logOk: Id -> bool, markOk: Id -> bool): set<Id> {
    set x | x in xs && GetsMarked(takes, logOk, markOk, x)
  }

  function MarkAll(status: map<Id, Status>, marked: set<Id>): map<Id, Status> {
    map x | x in status :: if x in marked then Archived else status[x]
  }

  /** The active logs once a pass has dealt with these invoices. */
  ghost predicate LoggedToo(logs: map<Id, Log>, xs: seq<Id>, logOk: Id -> bool, logs': map<Id, Log>) {
    forall x :: HasActiveLog(logs', x) <==> HasActiveLog(logs, x) || (x in xs && logOk(x))
  }

  lemma MarkedGoesOn(takes: Check, status: map<Id, Status>, xs: seq<Id>, x: Id, logOk: Id -> bool, markOk: Id -> bool)
    requires x !in xs && x in status
    ensures var before, after := MarkedOf(takes, xs, logOk, markOk), MarkedOf(takes, xs + [x], logOk, markOk);
      && |after| == |before| + (if GetsMarked(takes, logOk, markOk, x) then 1 else 0)
      && MarkAll(status, after) ==
         if GetsMarked(takes, logOk, markOk, x) then MarkAll(status, before)[x := Archived] else MarkAll(status, before)
  {
    var before, after := MarkedOf(takes, xs, logOk, markOk), MarkedOf(takes, xs + [x], logOk, markOk);
    assert after == before + if GetsMarked(takes, logOk, markOk, x) then {x} else {};
  }

  lemma LoggedGoesOn(logs0: map<Id, Log>, xs: seq<Id>, x: Id, logOk: Id -> bool, logs: map<Id, Log>, logs': map<Id, Log>)
    requires LoggedToo(logs0, xs, logOk, logs)
    requires forall y :: HasActiveLog(logs', y) <==> HasActiveLog(logs, y) || (y == x && logOk(x))
    ensures LoggedToo(logs0, xs + [x], logOk, logs')
  {
    forall y ensures HasActiveLog(logs', y) <==> HasActiveLog(logs0, y) || (y in xs + [x] && logOk(y)) {
      assert HasActiveLog(logs, y) <==> HasActiveLog(logs0, y) || (y in xs && logOk(y));
    }
  }

  /** What the events of one invoice come to. */
  lemma OneInvoice(takes: Check, s: State, k: nat, x: Id, rest: seq<Id>, logOk: bool, markOk: bool)
    requires s.passes == Put(map[], k, Pass([x] + rest, None))
    ensures var t := Run(takes, s, EventsOf(k, logOk, markOk));
      && t.passes == Put(map[], k, Pass(rest, None))
      && t.logs == (if logOk then InsertLog(s.logs, s.nextId, x) else s.logs)
      && t.nextId == (if logOk then s.nextId + 1 else s.nextId)
      && t.status == if logOk && markOk then Write(takes, s.status, x, Archived) else s.status
  {
    assert PassOf(s, k) == Pass([x] + rest, None) && ([x] + rest)[1..] == rest;
    var first := WriteLog(k, logOk);
    var u := Apply(takes, s, first);
    RunFirst(takes, s, first, if logOk then [Mark(k, markOk)] else []);
    if logOk {
      assert u.passes == map[k := Pass(rest, Some(x))];
      RunFirst(takes, u, Mark(k, markOk), []);
      assert [Mark(k, markOk)] + [] == [Mark(k, markOk)] && [first] + [Mark(k, markOk)] == [first, Mark(k, markOk)];
    } else {
      assert [first] + [] == [first];
    }
  }

  lemma FindStarts(takes: Check, s: State, k: nat, found: seq<Id>, aged: set<Id>)
    requires LogsOk(s) && s.passes == map[] && IsListing(s, found, aged)
    ensures Run(takes, s, [Find(k, found, aged)]) == s.(passes := Put(map[], k, Pass(found, None)))
    ensures LogsOk(s.(passes := Put(map[], k, Pass(found, None))))
  {
    RunFirst(takes, s, Find(k, found, aged), []);
    assert [Find(k, found, aged)] + [] == [Find(k, found, aged)];
  }

  lemma PassKeepsInv(takes: Check, s: State, events: seq<Event>, k: nat, end: State)
    requires Inv(s) && s.passes == map[] && Run(takes, s, events) == end && ByOne(events, k)
    ensures Inv(end)
  {
    OneSchedulerIsApart(takes, s, events, k);
    ApartIsFresh(takes, s, events);
  }
}
