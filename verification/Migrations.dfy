/** The migration runner. A schema is any value, a migration file is a partial function on schemas, and
    the table schema_migrations is the set of recorded file names. Any number of runners work on the same
    database, each with the list of applied files it once read, and may crash between transactions. */
module Migrations {
  import opened Wrappers

  /** What executing a file's SQL does to a schema; None when the SQL fails. */
  type Exec<!S> = (S, string) -> Option<S>

  datatype Db<S> = Db(recorded: set<string>, schema: S)

  /** One transaction: run the SQL, record the version, commit. A version that is already recorded
      violates the primary key, and then nothing happens at all. */
  function RunInTx<S>(exec: Exec<S>, db: Db<S>, name: string, commits: bool): (Db<S>, bool) {
    match exec(db.schema, name)
    case None => (db, false)
    case Some(schema) =>
      if name in db.recorded || !commits then (db, false) else (Db(db.recorded + {name}, schema), true)
  }

  // ---------- One clean run, in order ----------

  /** The schema after the first n files, each executed once and in order. */
  function Built<S>(exec: Exec<S>, initial: S, files: seq<string>, n: nat): Option<S>
    requires n <= |files|
  {
    if n == 0 then Some(initial)
    else match Built(exec, initial, files, n - 1)
      case None => None
      case Some(schema) => exec(schema, files[n - 1])
  }

  ghost predicate Distinct(files: seq<string>) {
    forall i, j | 0 <= i < j < |files| :: files[i] != files[j]
  }

  function Names(files: seq<string>): set<string> {
    set f | f in files
  }

  /** The recorded versions are the first n files, and the schema is what those n files build. */
  ghost predicate AtPrefix<S>(exec: Exec<S>, initial: S, files: seq<string>, db: Db<S>, n: nat) {
    n <= |files| && db.recorded == Names(files[..n]) && Built(exec, initial, files, n) == Some(db.schema)
  }

  /** How many files a clean run gets through before one fails. */
  function Reach<S>(exec: Exec<S>, initial: S, files: seq<string>, n: nat): (reach: nat)
    requires n <= |files| && Built(exec, initial, files, n).Some?
    ensures n <= reach <= |files| && Built(exec, initial, files, reach).Some?
    ensures reach < |files| ==> Built(exec, initial, files, reach + 1).None?
    decreases |files| - n
  {
    if n == |files| || Built(exec, initial, files, n + 1).None? then n else Reach(exec, initial, files, n + 1)
  }

  /** Every prefix that can be built at all reaches equally far. */
  lemma {:induction false} ReachIsUnique<S>(exec: Exec<S>, initial: S, files: seq<string>, n: nat)
    requires n <= |files| && Built(exec, initial, files, n).Some?
    ensures Reach(exec, initial, files, n) == Reach(exec, initial, files, 0)
  {
    if n != 0 {
      ReachIsUnique(exec, initial, files, n - 1);
    }
  }

  lemma NextIsNew(files: seq<string>, n: nat)
    requires Distinct(files) && n < |files|
    ensures files[n] !in Names(files[..n])
    ensures Names(files[..n + 1]) == Names(files[..n]) + {files[n]}
  {
    assert files[..n + 1] == files[..n] + [files[n]];
  }

  lemma EarlierIsRecorded(files: seq<string>, i: nat, n: nat)
    requires i < n <= |files|
    ensures files[i] in Names(files[..n])
  {
    assert files[..n][i] == files[i];
  }

  // ---------- Runners, interleaved ----------

  datatype Status = Running | Done | Failed

  /** A runner: the versions it read as applied when it started, and how many files it has passed. */
  datatype Runner = Runner(seen: set<string>, pos: nat, status: Status)

  datatype State<S> = State(db: Db<S>, runners: map<nat, Runner>)

  /** A runner starts with what its query returned, which may be a part of the recorded versions; takes
      the next file; or crashes. `commits` is false when reading the file or the commit itself fails. */
  datatype Event = Start(id: nat, seen: set<string>) | Advance(id: nat, commits: bool) | Crash(id: nat)

  function DoAdvance<S>(exec: Exec<S>, files: seq<string>, s: State<S>, id: nat, commits: bool): State<S> {
    if id !in s.runners || !s.runners[id].status.Running? then s else
    var r := s.runners[id];
    if r.pos >= |files| then s.(runners := s.runners[id := r.(status := Done)])
    else if files[r.pos] in r.seen then s.(runners := s.runners[id := r.(pos := r.pos + 1)])
    else
      var result := RunInTx(exec, s.db, files[r.pos], commits);
      State(result.0, s.runners[id := if result.1 then r.(pos := r.pos + 1) else r.(status := Failed)])
  }

  function Apply<S>(exec: Exec<S>, files: seq<string>, s: State<S>, e: Event): State<S> {
    match e
    case Start(id, seen) =>
      if id in s.runners then s
      else s.(runners := s.runners[id := Runner(seen * s.db.recorded, 0, Running)])
    case Advance(id, commits) => DoAdvance(exec, files, s, id, commits)
    case Crash(id) => s.(runners := s.runners - {id})
  }

  function Run<S>(exec: Exec<S>, files: seq<string>, s: State<S>, events: seq<Event>): State<S>
    decreases |events|
  {
    if events == [] then s else Run(exec, files, Apply(exec, files, s, events[0]), events[1..])
  }

  ghost predicate RunnersOk<S>(files: seq<string>, s: State<S>, n: nat) {
    forall id | id in s.runners ::
      var r := s.runners[id];
      r.seen <= s.db.recorded && r.pos <= n && (r.status.Done? ==> r.pos == |files|)
  }

  ghost predicate Inv<S>(exec: Exec<S>, initial: S, files: seq<string>, s: State<S>, n: nat) {
    AtPrefix(exec, initial, files, s.db, n) && RunnersOk(files, s, n)
  }

  lemma StepKeepsPrefix<S>(exec: Exec<S>, initial: S, files: seq<string>, s: State<S>, e: Event, n: nat) returns (n': nat)
    requires Distinct(files) && Inv(exec, initial, files, s, n)
    ensures n <= n' && Inv(exec, initial, files, Apply(exec, files, s, e), n')
  {
    n' := n;
    if e.Advance? && e.id in s.runners && s.runners[e.id].status.Running? {
      var r := s.runners[e.id];
      if r.pos < |files| {
        if r.pos < n {
          EarlierIsRecorded(files, r.pos, n);
        } else {
          NextIsNew(files, n);
          if RunInTx(exec, s.db, files[r.pos], e.commits).1 {
            n' := n + 1;
          }
        }
      }
    }
  }

  lemma {:induction false} RunKeepsPrefix<S>(exec: Exec<S>, initial: S, files: seq<string>, s: State<S>, events: seq<Event>, n: nat)
    returns (n': nat)
    requires Distinct(files) && Inv(exec, initial, files, s, n)
    ensures n <= n' && Inv(exec, initial, files, Run(exec, files, s, events), n')
    decreases |events|
  {
    if events == [] {
      n' := n;
    } else {
      var mid := StepKeepsPrefix(exec, initial, files, s, events[0], n);
      n' := RunKeepsPrefix(exec, initial, files, Apply(exec, files, s, events[0]), events[1..], mid);
    }
  }

  function Fresh<S>(initial: S): State<S> {
    State(Db({}, initial), map[])
  }

  /** However runners interleave and crash, the recorded versions are a prefix of the files and the schema
      is what that prefix builds; once any runner has returned without an error, the prefix is everything. */
  lemma AlwaysAPrefix<S>(exec: Exec<S>, initial: S, files: seq<string>, events: seq<Event>) returns (n: nat)
    requires Distinct(files)
    ensures var s := Run(exec, files, Fresh(initial), events);
            && AtPrefix(exec, initial, files, s.db, n)
            && ((exists id :: id in s.runners && s.runners[id].status.Done?) ==> n == |files|)
  {
    assert Names(files[..0]) == {};
    n := RunKeepsPrefix(exec, initial, files, Fresh(initial), events, 0);
  }

  /** Once all files are recorded, no runner, stale or new, changes the database again. */
  lemma {:induction false} CompleteIsFinal<S>(exec: Exec<S>, initial: S, files: seq<string>, s: State<S>, events: seq<Event>)
    requires Distinct(files) && Inv(exec, initial, files, s, |files|)
    ensures Run(exec, files, s, events).db == s.db
    decreases |events|
  {
    if events != [] {
      var e := events[0];
      if e.Advance? && e.id in s.runners && s.runners[e.id].pos < |files| {
        EarlierIsRecorded(files, s.runners[e.id].pos, |files|);
      }
      var n := StepKeepsPrefix(exec, initial, files, s, e, |files|);
      assert n == |files|;
      CompleteIsFinal(exec, initial, files, Apply(exec, files, s, e), events[1..]);
    }
  }

  /** The next file either goes through, or is where every run ends. */
  lemma NextApplied<S>(exec: Exec<S>, initial: S, files: seq<string>, db: Db<S>, k: nat)
    requires Distinct(files) && k < |files| && AtPrefix(exec, initial, files, db, k)
    ensures var (after, ok) := RunInTx(exec, db, files[k], true);
      if ok then AtPrefix(exec, initial, files, after, k + 1)
      else after == db && Reach(exec, initial, files, 0) == k
  {
    NextIsNew(files, k);
    ReachIsUnique(exec, initial, files, k);
  }

  /** A transaction takes effect exactly if the SQL works, the version is new, and the commit gets through; then
      the version is recorded with it, and else nothing at all happens. */
  lemma TransactionIff<S>(exec: Exec<S>, db: Db<S>, name: string, commits: bool)
    ensures var (after, ok) := RunInTx(exec, db, name, commits);
      && (ok <==> exec(db.schema, name).Some? && name !in db.recorded && commits)
      && (ok ==> after.recorded == db.recorded + {name} && Some(after.schema) == exec(db.schema, name))
      && (!ok ==> after == db)
  {
  }

  /** A runner left alone does not stop short: it goes on as far as one clean run from the start gets, and then
      returns without an error exactly if that is the last file. */
  lemma {:induction false} SoloRunnerFinishes<S>(exec: Exec<S>, initial: S, files: seq<string>, s: State<S>, id: nat, m: nat)
    returns (steps: seq<Event>)
    requires Distinct(files) && m <= |files| && id in s.runners && s.runners[id].status.Running?
    requires s.runners[id].seen == Names(files[..m]) && s.runners[id].pos <= |files|
    requires AtPrefix(exec, initial, files, s.db, if s.runners[id].pos < m then m else s.runners[id].pos)
    ensures forall e | e in steps :: e == Advance(id, true)
    ensures var t := Run(exec, files, s, steps);
      && AtPrefix(exec, initial, files, t.db, Reach(exec, initial, files, 0))
      && id in t.runners
      && t.runners[id].status == if Reach(exec, initial, files, 0) == |files| then Done else Failed
    decreases |files| - s.runners[id].pos
  {
    var p := s.runners[id].pos;
    var n := if p < m then m else p;
    var u := Apply(exec, files, s, Advance(id, true));
    ReachIsUnique(exec, initial, files, n);
    var rest: seq<Event> := [];
    if p < |files| {
      IsSkippedIff(files, p, m);
      NextIsNew(files, p);
      if p < m || exec(s.db.schema, files[p]).Some? {
        rest := SoloRunnerFinishes(exec, initial, files, u, id, m);
      }
    }
    steps := [Advance(id, true)] + rest;
    assert steps[1..] == rest;
  }

  // ---------- The program ----------

  class Database<S> {
    var recorded: set<string>
    var schema: S
    const exec: Exec<S>

    constructor (initial: S, exec: Exec<S>)
      ensures recorded == {} && schema == initial && this.exec == exec
    {
      recorded, schema, this.exec := {}, initial, exec;
    }

    method ApplyFile(name: string) returns (ok: bool)
      modifies this
      ensures (Db(recorded, schema), ok) == RunInTx(exec, Db(old(recorded), old(schema)), name, true)
    {
      var result := exec(schema, name);
      if result.None? || name in recorded {
        return false;
      }
      schema := result.value;
      recorded := recorded + {name};
      return true;
    }

    /** A run that nobody disturbs, from whatever prefix earlier runs and crashes left behind, ends where
        the one clean run from the start ends, and returns without an error iff that is the last file. */
    method RunMigrations(files: seq<string>, ghost initial: S, ghost n: nat) returns (ok: bool)
      requires Distinct(files) && AtPrefix(exec, initial, files, Db(recorded, schema), n)
      modifies this
      ensures AtPrefix(exec, initial, files, Db(recorded, schema), Reach(exec, initial, files, 0))
      ensures ok <==> Reach(exec, initial, files, 0) == |files|
    {
      var applied := recorded;
      ghost var reach := Reach(exec, initial, files, n);
      ReachIsUnique(exec, initial, files, n);
      ghost var k := n;
      var i := 0;
      while i < |files|
        invariant i <= |files| && k == (if i <= n then n else i)
        invariant applied == Names(files[..n])
        invariant AtPrefix(exec, initial, files, Db(recorded, schema), k)
      {
        var name := files[i];
        IsSkippedIff(files, i, n);
        NextIsNew(files, i);
        if name !in applied {
          NextApplied(exec, initial, files, Db(recorded, schema), k);
          var done := ApplyFile(name);
          if !done {
            return false;
          }
          k := k + 1;
        }
        i := i + 1;
      }
      ReachIsUnique(exec, initial, files, k);
      return true;
    }
  }

  lemma IsSkippedIff(files: seq<string>, i: nat, n: nat)
    requires Distinct(files) && i < |files| && n <= |files|
    ensures files[i] in Names(files[..n]) <==> i < n
  {
    if i < n {
      EarlierIsRecorded(files, i, n);
    } else {
      NotAmongEarlier(files, i, n);
    }
  }

  lemma NotAmongEarlier(files: seq<string>, i: nat, n: nat)
    requires Distinct(files) && n <= i < |files|
    ensures files[i] !in Names(files[..n])
  {
  }
}
