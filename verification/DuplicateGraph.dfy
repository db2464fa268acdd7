/** The graph of duplicate_of links: the rows it leaves as roots have different keys in any run of jobs,
    edits and deletes, however they overlap, and it has no cycles exactly as long as every link that is
    written late is still safe. */
module DuplicateGraph {
  import opened Invoices
  import opened Records
  import opened Wrappers

  // ---------- Paths and ranks ----------

  /** n links lead from x to y. */
  ghost predicate Path(t: Table, x: Id, y: Id, n: nat)
    decreases n
  {
    x in t && if n == 0 then x == y else t[x].duplicateOf.Some? && Path(t, t[x].duplicateOf.value, y, n - 1)
  }

  ghost predicate LeadsTo(t: Table, x: Id, y: Id) {
    exists n: nat :: Path(t, x, y, n)
  }

  ghost predicate Acyclic(t: Table) {
    forall x, n: nat | Path(t, x, x, n) :: n == 0
  }

  /** Every link leads to a smaller rank. */
  ghost predicate RankedBy(t: Table, rank: Id -> nat) {
    forall x | x in t && t[x].duplicateOf.Some? :: rank(t[x].duplicateOf.value) < rank(x)
  }

  ghost predicate Ranked(t: Table) {
    exists rank :: RankedBy(t, rank)
  }

  lemma {:induction false} PathDescends(t: Table, rank: Id -> nat, x: Id, y: Id, n: nat)
    requires RankedBy(t, rank) && Path(t, x, y, n)
    ensures rank(y) + n <= rank(x)
    decreases n
  {
    if n != 0 {
      PathDescends(t, rank, t[x].duplicateOf.value, y, n - 1);
    }
  }

  lemma RankedIsAcyclic(t: Table)
    requires Ranked(t)
    ensures Acyclic(t)
  {
    var rank :| RankedBy(t, rank);
    forall x, n: nat | Path(t, x, x, n) ensures n == 0 {
      PathDescends(t, rank, x, x, n);
    }
  }

  /** Following the links from any row comes to a root. */
  lemma {:induction false} RootBelow(t: Table, rank: Id -> nat, x: Id) returns (root: Id, n: nat)
    requires RankedBy(t, rank) && LinksOk(t) && x in t
    ensures root in t && IsRoot(t[root]) && Path(t, x, root, n)
    decreases rank(x)
  {
    if IsRoot(t[x]) {
      root, n := x, 0;
    } else {
      root, n := RootBelow(t, rank, t[x].duplicateOf.value);
      n := n + 1;
    }
  }

  // ---------- When a new link is safe ----------

  /** A path to id only uses links of other rows, so it survives a new link of id. */
  lemma {:induction false} PathSurvives(t: Table, t': Table, id: Id, x: Id, n: nat)
    requires Ranked(t) && Path(t, x, id, n)
    requires t'.Keys == t.Keys && forall y | y in t && y != id :: t'[y].duplicateOf == t[y].duplicateOf
    ensures Path(t', x, id, n)
    decreases n
  {
    if n != 0 {
      if x == id {
        RankedIsAcyclic(t);
        assert false;
      } else {
        PathSurvives(t, t', id, t[x].duplicateOf.value, n - 1);
      }
    }
  }

  lemma LeadsOn(t: Table, x: Id, id: Id)
    requires x in t && x != id && t[x].duplicateOf.Some?
    ensures LeadsTo(t, x, id) <==> LeadsTo(t, t[x].duplicateOf.value, id)
  {
    var next := t[x].duplicateOf.value;
    if n: nat :| Path(t, x, id, n) {
      assert Path(t, next, id, n - 1);
    }
    if n: nat :| Path(t, next, id, n) {
      assert Path(t, x, id, n + 1);
    }
  }

  lemma RankAfterLink(t: Table, t': Table, id: Id, target: Id, rank: Id -> nat)
    requires RankedBy(t, rank) && id in t && !LeadsTo(t, target, id)
    requires t'.Keys == t.Keys && t'[id].duplicateOf == Some(target)
    requires forall y | y in t && y != id :: t'[y].duplicateOf == t[y].duplicateOf
    ensures Ranked(t')
  {
    var up := y => if LeadsTo(t, y, id) then rank(y) + rank(target) + 1 else rank(y);
    assert Path(t, id, id, 0);
    forall x | x in t' && t'[x].duplicateOf.Some? ensures up(t'[x].duplicateOf.value) < up(x) {
      if x != id {
        LeadsOn(t, x, id);
      }
    }
    assert RankedBy(t', up);
  }

  /** A row may be linked to `target` without closing a cycle exactly when the links of `target` do not
      lead back to the row. */
  lemma LinkSafeIff(t: Table, t': Table, id: Id, target: Id)
    requires Ranked(t) && id in t
    requires t'.Keys == t.Keys && t'[id].duplicateOf == Some(target)
    requires forall y | y in t && y != id :: t'[y].duplicateOf == t[y].duplicateOf
    ensures Acyclic(t') <==> !LeadsTo(t, target, id)
    ensures !LeadsTo(t, target, id) ==> Ranked(t')
  {
    if n: nat :| Path(t, target, id, n) {
      PathSurvives(t, t', id, target, n);
      assert Path(t', id, id, n + 1);
    } else {
      var rank :| RankedBy(t, rank);
      RankAfterLink(t, t', id, target, rank);
      RankedIsAcyclic(t');
    }
  }

  /** A root other than the row itself never leads back to it. */
  lemma RootIsSafe(t: Table, id: Id, target: Id)
    requires target in t && IsRoot(t[target]) && target != id
    ensures !LeadsTo(t, target, id)
  {
  }

  // ---------- Runs ----------

  /** A job's update with whatever its lookup found, however long ago that was. */
  datatype Update = Update(id: Id, vendor: string, docNo: string, found: Option<Id>, others: bool)

  function AfterUpdate(t: Table, u: Update): Table {
    UpdateInvoiceData(t, u.id, u.vendor, u.docNo, u.found, u.others)
  }

  /** `Job` is a lookup directly followed by its update, `Late` an update whose lookup lies back. */
  datatype Event =
    | Create(tenant: Id, vendor: string, docNo: string, others: bool)
    | Job(id: Id, vendor: string, docNo: string, lookupOk: bool, others: bool)
    | Late(update: Update)
    | Edit(id: Id, vendor: string, docNo: string, others: bool)
    | Remove(id: Id)

  datatype State = State(table: Table, nextId: Id, clock: nat)

  /** What a job links its invoice to. A failed lookup counts as no duplicate. */
  ghost function LinkOf(t: Table, id: Id, vendor: string, docNo: string, lookupOk: bool): Option<Id> {
    if lookupOk && id in t then Found(t, t[id].tenant, vendor, docNo, id) else None
  }

  ghost function AfterJob(t: Table, id: Id, vendor: string, docNo: string, lookupOk: bool, others: bool): Table {
    UpdateInvoiceData(t, id, vendor, docNo, LinkOf(t, id, vendor, docNo, lookupOk), others)
  }

  ghost function Apply(s: State, e: Event): State {
    match e
    case Create(tenant, vendor, docNo, others) =>
      State(Write(s.table, s.nextId, Invoice(tenant, NullIfEmpty(vendor), NullIfEmpty(docNo), None, s.clock), others),
            s.nextId + 1, s.clock + 1)
    case Job(id, vendor, docNo, lookupOk, others) => s.(table := AfterJob(s.table, id, vendor, docNo, lookupOk, others))
    case Late(u) => s.(table := AfterUpdate(s.table, u))
    case Edit(id, vendor, docNo, others) => s.(table := FullUpdateInvoice(s.table, id, vendor, docNo, others))
    case Remove(id) => s.(table := DeleteInvoice(s.table, id))
  }

  ghost function Run(s: State, events: seq<Event>): State
    decreases |events|
  {
    if events == [] then s else Run(Apply(s, events[0]), events[1..])
  }

  /** The update is rejected, sets no link, or sets one whose target does not lead back to the row. */
  ghost predicate SafeNow(t: Table, u: Update) {
    AfterUpdate(t, u) == t || u.found.None? || !LeadsTo(t, u.found.value, u.id)
  }

  ghost predicate AllSafe(s: State, events: seq<Event>)
    decreases |events|
  {
    events == [] || ((events[0].Late? ==> SafeNow(s.table, events[0].update)) && AllSafe(Apply(s, events[0]), events[1..]))
  }

  ghost predicate AlwaysAcyclic(s: State, events: seq<Event>)
    decreases |events|
  {
    Acyclic(s.table) && (events == [] || AlwaysAcyclic(Apply(s, events[0]), events[1..]))
  }

  /** The index, the foreign key, and ids that are not handed out yet. */
  ghost predicate TableOk(s: State) {
    IndexOk(s.table) && LinksOk(s.table) && forall x | x in s.table :: x < s.nextId
  }

  ghost predicate Inv(s: State) {
    TableOk(s) && Ranked(s.table)
  }

  lemma FoundIsSafe(t: Table, tenant: Id, vendor: string, docNo: string, id: Id)
    ensures var f := Found(t, tenant, vendor, docNo, id);
            f.Some? ==> f.value in t && IsRoot(t[f.value]) && f.value != id && !LeadsTo(t, f.value, id)
  {
    var f := Found(t, tenant, vendor, docNo, id);
    if f.Some? {
      assert IsFirst(t, tenant, vendor, docNo, id, f.value);
      RootIsSafe(t, id, f.value);
    }
  }

  lemma JobKeepsRanked(t: Table, id: Id, vendor: string, docNo: string, lookupOk: bool, others: bool)
    requires Ranked(t)
    ensures Ranked(AfterJob(t, id, vendor, docNo, lookupOk, others))
  {
    var t' := AfterJob(t, id, vendor, docNo, lookupOk, others);
    if id in t && t' != t {
      FoundIsSafe(t, t[id].tenant, vendor, docNo, id);
      var link := LinkOf(t, id, vendor, docNo, lookupOk);
      if link.Some? {
        LinkSafeIff(t, t', id, link.value);
      } else {
        var rank :| RankedBy(t, rank);
        assert RankedBy(t', rank);
      }
    }
  }

  lemma StepKeepsTable(s: State, e: Event)
    requires TableOk(s)
    ensures TableOk(Apply(s, e))
  {
    if e.Remove? {
      assert !Referenced(s.table, e.id) ==> forall x | x in s.table && x != e.id :: s.table[x].duplicateOf != Some(e.id);
    }
  }

  lemma UpdateSafeIff(t: Table, u: Update)
    requires Ranked(t)
    ensures Acyclic(AfterUpdate(t, u)) <==> SafeNow(t, u)
    ensures SafeNow(t, u) ==> Ranked(AfterUpdate(t, u))
  {
    var t' := AfterUpdate(t, u);
    RankedIsAcyclic(t);
    if t' != t {
      if u.found.Some? {
        LinkSafeIff(t, t', u.id, u.found.value);
      } else {
        var rank :| RankedBy(t, rank);
        assert RankedBy(t', rank);
        RankedIsAcyclic(t');
      }
    }
  }

  lemma StepKeepsInv(s: State, e: Event)
    requires Inv(s) && (e.Late? ==> SafeNow(s.table, e.update))
    ensures Inv(Apply(s, e))
  {
    StepKeepsTable(s, e);
    var t, t' := s.table, Apply(s, e).table;
    if e.Job? {
      JobKeepsRanked(t, e.id, e.vendor, e.docNo, e.lookupOk, e.others);
    } else if e.Late? {
      UpdateSafeIff(t, e.update);
    } else {
      var rank :| RankedBy(t, rank);
      assert RankedBy(t', rank);
    }
  }

  lemma {:induction false} RunKeepsTable(s: State, events: seq<Event>)
    requires TableOk(s)
    ensures TableOk(Run(s, events))
    decreases |events|
  {
    if events != [] {
      StepKeepsTable(s, events[0]);
      RunKeepsTable(Apply(s, events[0]), events[1..]);
    }
  }

  lemma {:induction false} RunKeepsInv(s: State, events: seq<Event>)
    requires Inv(s) && AllSafe(s, events)
    ensures Inv(Run(s, events))
    decreases |events|
  {
    if events != [] {
      StepKeepsInv(s, events[0]);
      RunKeepsInv(Apply(s, events[0]), events[1..]);
    }
  }

  /** However jobs overlap with each other, with edits, creations and deletes: the links stay acyclic throughout
      exactly when every late link is safe at the moment it is written. */
  lemma {:induction false} OverlappingRunsAcyclicIff(s: State, events: seq<Event>)
    requires Inv(s)
    ensures AlwaysAcyclic(s, events) <==> AllSafe(s, events)
    decreases |events|
  {
    RankedIsAcyclic(s.table);
    if events != [] {
      var e, u := events[0], Apply(s, events[0]);
      if e.Late? && !SafeNow(s.table, e.update) {
        UpdateSafeIff(s.table, e.update);
        assert !AlwaysAcyclic(u, events[1..]);
      } else {
        StepKeepsInv(s, e);
        OverlappingRunsAcyclicIff(u, events[1..]);
      }
    }
  }

  /** Jobs that do not overlap are always safe. */
  lemma {:induction false} SerialIsSafe(s: State, events: seq<Event>)
    requires forall e | e in events :: !e.Late?
    ensures AllSafe(s, events)
    decreases |events|
  {
    if events != [] {
      SerialIsSafe(Apply(s, events[0]), events[1..]);
    }
  }

  const INITIAL := State(map[], 0, 0)

  ghost predicate LeadsToRoot(t: Table, x: Id) {
    exists root :: root in t && IsRoot(t[root]) && LeadsTo(t, x, root)
  }

  lemma InitiallyInv()
    ensures Inv(INITIAL)
  {
    assert RankedBy(INITIAL.table, (x: Id) => x);
  }

  /** Whatever the OCR reads and whoever edits: in every run whose late links are safe, so in every run whose
      jobs do not overlap, the links have no cycle and from every invoice they lead to a root. */
  lemma LinksNeverCycle(events: seq<Event>)
    requires (forall e | e in events :: !e.Late?) || AllSafe(INITIAL, events)
    ensures var t := Run(INITIAL, events).table;
            Acyclic(t) && forall x | x in t :: LeadsToRoot(t, x)
  {
    InitiallyInv();
    if forall e | e in events :: !e.Late? {
      SerialIsSafe(INITIAL, events);
    }
    RunKeepsInv(INITIAL, events);
    var t := Run(INITIAL, events).table;
    RankedIsAcyclic(t);
    forall x | x in t ensures LeadsToRoot(t, x) {
      var rank :| RankedBy(t, rank);
      var root, n := RootBelow(t, rank, x);
      assert LeadsTo(t, x, root);
    }
  }

  // ---------- Unique roots ----------

  lemma EarliestExists(t: Table, tenant: Id, vendor: string, docNo: string, id: Id)
    requires exists x :: Matches(t, tenant, vendor, docNo, id, x)
    ensures exists x :: IsFirst(t, tenant, vendor, docNo, id, x)
  {
    var x :| Matches(t, tenant, vendor, docNo, id, x);
    Earliest(t, tenant, vendor, docNo, id, x);
  }

  lemma {:induction false} Earliest(t: Table, tenant: Id, vendor: string, docNo: string, id: Id, x: Id)
    requires Matches(t, tenant, vendor, docNo, id, x)
    ensures exists z :: IsFirst(t, tenant, vendor, docNo, id, z)
    decreases t[x].createdAt
  {
    if y :| y in t && Matches(t, tenant, vendor, docNo, id, y) && t[y].createdAt < t[x].createdAt {
      Earliest(t, tenant, vendor, docNo, id, y);
    } else {
      assert IsFirst(t, tenant, vendor, docNo, id, x);
    }
  }

  /** Whether another root already has the key this row would get. */
  ghost predicate Taken(t: Table, id: Id, row: Invoice) {
    IsRoot(row) && exists x :: x in t && x != id && IsRoot(t[x]) && SameKey(t[x], row)
  }

  /** The partial index turns a write down exactly when the row would be a second root of its key. */
  lemma IndexRejectsIff(t: Table, id: Id, row: Invoice)
    requires IndexOk(t)
    ensures IndexOk(t[id := row]) <==> !Taken(t, id, row)
  {
    var t' := t[id := row];
    if x :| x in t && x != id && IsRoot(t[x]) && SameKey(t[x], row) && IsRoot(row) {
      assert !IndexOk(t') by {
        assert x in t' && id in t' && IsRoot(t'[x]) && IsRoot(t'[id]) && SameKey(t'[x], t'[id]);
      }
    } else {
      forall x, y | x in t' && y in t' && x != y ensures !(IsRoot(t'[x]) && IsRoot(t'[y]) && SameKey(t'[x], t'[y])) {
        if x != id && y != id {
          assert !(IsRoot(t[x]) && IsRoot(t[y]) && SameKey(t[x], t[y]));
        }
      }
    }
  }

  /** A job whose OCR gave both key parts, and whose lookup worked, never trips the index. */
  lemma FullKeyJobNeverTrips(t: Table, id: Id, vendor: string, docNo: string)
    requires IndexOk(t) && id in t && vendor != "" && docNo != ""
    ensures IndexOk(t[id := JobRow(t[id], vendor, docNo, LinkOf(t, id, vendor, docNo, true))])
  {
    var tenant := t[id].tenant;
    var row := JobRow(t[id], vendor, docNo, LinkOf(t, id, vendor, docNo, true));
    IndexRejectsIff(t, id, row);
    if Taken(t, id, row) {
      var x :| x in t && x != id && IsRoot(t[x]) && SameKey(t[x], row);
      assert Matches(t, tenant, vendor, docNo, id, x);
      EarliestExists(t, tenant, vendor, docNo, id);
      assert false;
    }
  }

  /** A job trips the index, and loses everything the OCR read, exactly when the lookup was skipped (a key
      part was not read) or failed, and the merged key belongs to another root while the row is a root. */
  lemma JobTripsIff(t: Table, id: Id, vendor: string, docNo: string, lookupOk: bool)
    requires IndexOk(t) && id in t
    ensures !IndexOk(t[id := JobRow(t[id], vendor, docNo, LinkOf(t, id, vendor, docNo, lookupOk))]) <==>
            (vendor == "" || docNo == "" || !lookupOk) && Taken(t, id, JobRow(t[id], vendor, docNo, None))
  {
    if vendor != "" && docNo != "" && lookupOk {
      FullKeyJobNeverTrips(t, id, vendor, docNo);
    } else {
      assert LinkOf(t, id, vendor, docNo, lookupOk) == None;
      IndexRejectsIff(t, id, JobRow(t[id], vendor, docNo, None));
    }
  }

  /** The same for a lookup of any age: the write trips the index exactly when the row is left a root and another
      root has its merged key. With both key parts read, that is: nothing was found, the row is a root, and by
      the time of the write another root matches. What trips is lost as a whole. */
  lemma UpdateTripsIff(t: Table, u: Update)
    requires IndexOk(t) && u.id in t
    ensures var row := JobRow(t[u.id], u.vendor, u.docNo, u.found);
      && (!IndexOk(t[u.id := row]) <==> Taken(t, u.id, row))
      && (u.vendor != "" && u.docNo != "" ==>
            (!IndexOk(t[u.id := row]) <==>
             u.found.None? && IsRoot(t[u.id]) && exists x: Id :: Matches(t, t[u.id].tenant, u.vendor, u.docNo, u.id, x)))
      && (!IndexOk(t[u.id := row]) ==> AfterUpdate(t, u) == t)
  {
    var row := JobRow(t[u.id], u.vendor, u.docNo, u.found);
    IndexRejectsIff(t, u.id, row);
    if u.vendor != "" && u.docNo != "" {
      assert forall x :: Matches(t, t[u.id].tenant, u.vendor, u.docNo, u.id, x) <==> x in t && x != u.id && IsRoot(t[x]) && SameKey(t[x], row);
    }
  }

  /** Two invoices just uploaded, of which nothing has been read yet. */
  function TwoFresh(): Table {
    map[0 := Invoice(5, None, None, None, 0), 1 := Invoice(5, None, None, None, 1)]
  }

  /** Both show the same document. Processed one after the other the second is linked to the first; if both
      look up before either writes, neither finds anything and all that was read of the second is lost. */
  lemma OverlappingTwinsLoseOne()
    ensures LinkOf(TwoFresh(), 0, "v", "d", true) == None && LinkOf(TwoFresh(), 1, "v", "d", true) == None
    ensures var t1 := AfterUpdate(TwoFresh(), Update(0, "v", "d", None, true));
      && t1 == TwoFresh()[0 := Invoice(5, Some("v"), Some("d"), None, 0)]
      && AfterJob(t1, 1, "v", "d", true, true) == t1[1 := Invoice(5, Some("v"), Some("d"), Some(0), 1)]
      && AfterUpdate(t1, Update(1, "v", "d", None, true)) == t1
  {
    var t1 := TwoFresh()[0 := Invoice(5, Some("v"), Some("d"), None, 0)];
    assert forall x :: !Matches(TwoFresh(), 5, "v", "d", 0, x) && !Matches(TwoFresh(), 5, "v", "d", 1, x);
    assert AfterUpdate(TwoFresh(), Update(0, "v", "d", None, true)) == t1;
    assert Matches(t1, 5, "v", "d", 1, 0);
    UpdateTripsIff(t1, Update(1, "v", "d", None, true));
    OnlyMatchIsFound(t1, 5, "v", "d", 1, 0);
    FullKeyJobNeverTrips(t1, 1, "v", "d");
  }

  /** Such a table exists: the OCR of invoice 1 misses the vendor, and the row keeps its old one. */
  lemma PartialKeyJobCanTrip()
    ensures var t: Table := map[0 := Invoice(5, Some("v"), Some("d"), None, 0), 1 := Invoice(5, Some("v"), None, None, 1)];
            IndexOk(t) && AfterJob(t, 1, "", "d", true, true) == t
  {
    var t: Table := map[0 := Invoice(5, Some("v"), Some("d"), None, 0), 1 := Invoice(5, Some("v"), None, None, 1)];
    assert Taken(t, 1, JobRow(t[1], "", "d", None)) by {
      assert 0 in t && IsRoot(t[0]);
    }
    JobTripsIff(t, 1, "", "d", true);
  }

  /** After an accepted job with both key parts, its key has a root unless the row was a duplicate before
      and no other root has that key: such a row keeps its old link. */
  lemma RootAfterJobIff(t: Table, id: Id, vendor: string, docNo: string)
    requires IndexOk(t) && LinksOk(t) && id in t && vendor != "" && docNo != ""
    ensures var t' := AfterJob(t, id, vendor, docNo, true, true);
            && t' == t[id := t'[id]] && t'[id].vendor == Some(vendor) && t'[id].docNo == Some(docNo)
            && ((exists x :: x in t' && IsRoot(t'[x]) && SameKey(t'[x], t'[id])) <==>
                (IsRoot(t[id]) || exists x: Id :: Matches(t, t[id].tenant, vendor, docNo, id, x)))
  {
    var tenant := t[id].tenant;
    var link := LinkOf(t, id, vendor, docNo, true);
    FullKeyJobNeverTrips(t, id, vendor, docNo);
    FoundIsSafe(t, tenant, vendor, docNo, id);
    var t' := AfterJob(t, id, vendor, docNo, true, true);
    if x: Id :| Matches(t, tenant, vendor, docNo, id, x) {
      assert x in t' && IsRoot(t'[x]) && SameKey(t'[x], t'[id]);
    } else {
      assert link == None;
      if IsRoot(t[id]) {
        assert SameKey(t'[id], t'[id]);
      }
      if x :| x in t' && IsRoot(t'[x]) && SameKey(t'[x], t'[id]) {
        assert x != id ==> Matches(t, tenant, vendor, docNo, id, x);
      }
    }
  }

  // ---------- Jobs that are not serialised ----------

  function Reprocessed(): Table {
    map[0 := Invoice(5, Some("v"), Some("a"), None, 0), 1 := Invoice(5, Some("v"), Some("b"), None, 1)]
  }

  lemma OnlyMatchIsFound(t: Table, tenant: Id, vendor: string, docNo: string, id: Id, x: Id)
    requires vendor != "" && docNo != "" && Matches(t, tenant, vendor, docNo, id, x)
    requires forall y | y in t :: y == x || y == id
    ensures Found(t, tenant, vendor, docNo, id) == Some(x)
  {
    assert IsFirst(t, tenant, vendor, docNo, id, x);
  }

  lemma StaleLookups()
    ensures LinkOf(Reprocessed(), 0, "v", "b", true) == Some(1)
    ensures LinkOf(Reprocessed(), 1, "v", "a", true) == Some(0)
  {
    OnlyMatchIsFound(Reprocessed(), 5, "v", "b", 0, 1);
    OnlyMatchIsFound(Reprocessed(), 5, "v", "a", 1, 0);
  }

  /** The first of the two writes, and then the second. */
  function FirstWritten(): Table {
    Reprocessed()[0 := Invoice(5, Some("v"), Some("b"), Some(1), 0)]
  }

  function BothWritten(): Table {
    FirstWritten()[1 := Invoice(5, Some("v"), Some("a"), Some(0), 1)]
  }

  lemma FirstWrite()
    ensures AfterUpdate(Reprocessed(), Update(0, "v", "b", Some(1), true)) == FirstWritten()
  {
    assert IndexOk(FirstWritten()) && LinksOk(FirstWritten());
  }

  lemma SecondWrite()
    ensures AfterUpdate(FirstWritten(), Update(1, "v", "a", Some(0), true)) == BothWritten()
  {
    assert IndexOk(BothWritten()) && LinksOk(BothWritten());
  }

  /** Two reprocessed invoices whose new readings are each other's old keys: each looks up the other
      before either is written, and the two writes close a cycle that no index forbids. */
  lemma StaleLookupsCanCycle()
    ensures var t1 := AfterUpdate(Reprocessed(), Update(0, "v", "b", LinkOf(Reprocessed(), 0, "v", "b", true), true));
            !Acyclic(AfterUpdate(t1, Update(1, "v", "a", LinkOf(Reprocessed(), 1, "v", "a", true), true)))
  {
    StaleLookups();
    FirstWrite();
    SecondWrite();
    var t := BothWritten();
    assert Path(t, 0, 0, 0) && Path(t, 1, 0, 1) && Path(t, 0, 0, 2);
  }

  /** A manual edit may give a row a new key, but links no row and unlinks none. */
  lemma EditKeepsLinks(t: Table, id: Id, vendor: string, docNo: string, others: bool)
    ensures var t' := FullUpdateInvoice(t, id, vendor, docNo, others);
            && t'.Keys == t.Keys
            && (forall x | x in t :: t'[x].duplicateOf == t[x].duplicateOf && (x != id ==> t'[x] == t[x]))
            && (t' != t ==> t'[id] == t[id].(vendor := if vendor == "" then None else Some(vendor),
                                             docNo := if docNo == "" then None else Some(docNo)))
  {
  }
}
