/** The item step of a processing job, delivered at least once. Every statement of the run may fail on its
    own and be passed over, as may every earlier run; what the run leaves is stated for all of it, and with
    it exactly when the items are what the OCR read. */
module Redelivery {
  import opened Records
  import opened Ids

  /** A line item as the OCR read it. */
  datatype Line = Line(description: string, amounts: seq<int>)

  datatype Item = Item(invoice: Id, line: Line, kind: AssetType)

  /** invoice_items, hitl_queue, and reviewer_tasks (of which only the HITL row matters here). Ids grow
      with the time of creation. */
  datatype Db = Db(items: map<Id, Item>, hitls: map<Id, Hitl>, tasks: map<Id, Id>, nextId: Id)

  /** Foreign keys, and ids that are not handed out yet. */
  ghost predicate Valid(db: Db) {
    && (forall x | x in db.items :: x < db.nextId)
    && (forall h | h in db.hitls :: db.hitls[h].item < h < db.nextId && db.hitls[h].item in db.items)
    && (forall t | t in db.tasks :: db.tasks[t] < t < db.nextId && db.tasks[t] in db.hitls)
  }

  // ---------- Statements ----------

  /** A statement that took effect. One that failed changed nothing and is none. */
  datatype Statement =
    | InsertItem(row: Item)
    | InsertHitl(item: Id, reason: Reason)
    | InsertTask(hitl: Id)
    | DeleteItems(invoice: Id)

  function Delete(db: Db, invoice: Id): Db {
    var items := map x | x in db.items && db.items[x].invoice != invoice :: db.items[x];
    var hitls := map h | h in db.hitls && db.hitls[h].item in items :: db.hitls[h];
    db.(items := items, hitls := hitls, tasks := map t | t in db.tasks && db.tasks[t] in hitls :: db.tasks[t])
  }

  function Execute(db: Db, s: Statement): Db {
    match s
    case InsertItem(row) => db.(items := db.items[db.nextId := row], nextId := db.nextId + 1)
    case InsertHitl(x, reason) =>
      if x in db.items then db.(hitls := db.hitls[db.nextId := Hitl(x, reason, Pending)], nextId := db.nextId + 1) else db
    case InsertTask(h) =>
      if h in db.hitls then db.(tasks := db.tasks[db.nextId := h], nextId := db.nextId + 1) else db
    case DeleteItems(invoice) => Delete(db, invoice)
  }

  function ExecuteAll(db: Db, statements: seq<Statement>): Db
    decreases |statements|
  {
    if statements == [] then db else ExecuteAll(Execute(db, statements[0]), statements[1..])
  }

  const EMPTY := Db(map[], map[], map[], 0)

  /** Earlier runs, cut off anywhere and with any statement failing, are statement sequences like any
      other: they leave the tables valid, and nothing more can be said about them. */
  lemma {:induction false} AnythingLeavesValid(db: Db, statements: seq<Statement>)
    requires Valid(db)
    ensures Valid(ExecuteAll(db, statements))
    decreases |statements|
  {
    if statements != [] {
      AnythingLeavesValid(Execute(db, statements[0]), statements[1..]);
    }
  }

  /** A task is sent exactly if its HITL row is there, and it goes with that row when the items are deleted. */
  lemma TaskComesAndGoes(db: Db, h: Id, invoice: Id)
    requires Valid(db)
    ensures var after := Execute(db, InsertTask(h));
      && (h in db.hitls ==> after.tasks == db.tasks[db.nextId := h])
      && (h !in db.hitls ==> after == db)
      && (h in db.hitls && db.items[db.hitls[h].item].invoice == invoice ==> db.nextId !in Delete(after, invoice).tasks)
  {
  }

  // ---------- What a run should leave ----------

  /** Whether line and type pass the checks that are known; `takes` stands for all others the table makes,
      such as the length of a unit or the size of an amount, and for the statement failing altogether. */
  predicate Saved(line: Line, kind: AssetType, takes: bool) {
    line.description != "" && !kind.Unlisted? && takes
  }

  function NeedsHitl(row: Item, matched: bool): bool {
    row.kind == Unclassified || !matched
  }

  /** What the run reads and meets: the lines with the types they were given, whether the OCR matched, and
      which of its statements take effect. */
  datatype Job = Job(invoice: Id, lines: seq<Line>, kinds: seq<AssetType>, matched: bool,
                     deletes: bool, takes: seq<bool>, routes: seq<bool>)

  ghost predicate JobOk(j: Job) {
    |j.lines| == |j.kinds| == |j.takes| == |j.routes|
  }

  /** The rows a run inserts: the first n lines the table accepts, in order, with the type they were given. */
  ghost function AcceptedRows(j: Job, n: nat): seq<Item>
    requires JobOk(j) && n <= |j.lines|
  {
    if n == 0 then []
    else AcceptedRows(j, n - 1)
         + if Saved(j.lines[n - 1], j.kinds[n - 1], j.takes[n - 1]) then [Item(j.invoice, j.lines[n - 1], j.kinds[n - 1])] else []
  }

  /** Which of these rows get a HITL row: those that need one and whose insert takes effect. */
  ghost function RoutedRows(j: Job, n: nat): (routed: seq<bool>)
    requires JobOk(j) && n <= |j.lines|
    ensures |routed| == |AcceptedRows(j, n)|
  {
    if n == 0 then []
    else RoutedRows(j, n - 1)
         + if Saved(j.lines[n - 1], j.kinds[n - 1], j.takes[n - 1])
           then [NeedsHitl(Item(j.invoice, j.lines[n - 1], j.kinds[n - 1]), j.matched) && j.routes[n - 1]] else []
  }

  ghost function HitlsOf(db: Db, x: Id): set<Id> {
    set h | h in db.hitls && db.hitls[h].item == x
  }

  ghost predicate Increasing(ids: seq<Id>) {
    forall i, j | 0 <= i < j < |ids| :: ids[i] < ids[j]
  }

  /** The items of the invoice with ids from `start` on are exactly `rows`, under the growing ids `ids`. */
  ghost predicate ItemsSince(db: Db, invoice: Id, start: Id, rows: seq<Item>, ids: seq<Id>) {
    && |ids| == |rows| && Increasing(ids)
    && (forall k | 0 <= k < |ids| ::
          start <= ids[k] && ids[k] in db.items && db.items[ids[k]] == rows[k] && rows[k].invoice == invoice)
    && (forall x | x in db.items && db.items[x].invoice == invoice && start <= x :: x in ids)
  }

  /** All items of the invoice are exactly `rows`. */
  ghost predicate ItemsAre(db: Db, invoice: Id, rows: seq<Item>, ids: seq<Id>) {
    ItemsSince(db, invoice, 0, rows, ids)
  }

  ghost predicate Exactly(db: Db, invoice: Id, rows: seq<Item>) {
    exists ids :: ItemsAre(db, invoice, rows, ids)
  }

  /** Item x has one HITL row, with the run's reason, if it was routed, and none otherwise. */
  ghost predicate Routed(db: Db, x: Id, routed: bool, matched: bool) {
    if routed then exists h :: HitlsOf(db, x) == {h} && h in db.hitls && db.hitls[h] == Hitl(x, WorkerReason(matched), Pending)
    else HitlsOf(db, x) == {}
  }

  ghost predicate HitlsAre(db: Db, ids: seq<Id>, routed: seq<bool>, matched: bool)
    requires |ids| == |routed|
  {
    forall k | 0 <= k < |ids| :: Routed(db, ids[k], routed[k], matched)
  }

  predicate IsOld(db: Db, x: Id, invoice: Id, start: Id) {
    x in db.items && db.items[x].invoice == invoice && x < start
  }

  /** The items of the invoice from before `start`, with their HITL rows. */
  ghost function Old(db: Db, invoice: Id, start: Id): (map<Id, Item>, map<Id, Hitl>) {
    (map x | x in db.items && IsOld(db, x, invoice, start) :: db.items[x],
     map h | h in db.hitls && IsOld(db, db.hitls[h].item, invoice, start) :: db.hitls[h])
  }

  ghost predicate Concerns(db: Db, h: Id, invoice: Id) {
    h in db.hitls && db.hitls[h].item in db.items && db.items[db.hitls[h].item].invoice == invoice
  }

  /** All items and HITL rows of the invoice, and all tasks on them, were created from `start` on. */
  ghost predicate NothingOld(db: Db, invoice: Id, start: Id) {
    && (forall x | x in db.items && db.items[x].invoice == invoice :: start <= x)
    && (forall h | Concerns(db, h, invoice) :: start <= h)
    && (forall t | t in db.tasks && Concerns(db, db.tasks[t], invoice) :: start <= t)
  }

  /** The rows of all other invoices. */
  ghost function Elsewhere(db: Db, invoice: Id): (map<Id, Item>, map<Id, Hitl>, map<Id, Id>) {
    (map x | x in db.items && db.items[x].invoice != invoice :: db.items[x],
     map h | h in db.hitls && !Concerns(db, h, invoice) :: db.hitls[h],
     map t | t in db.tasks && !Concerns(db, db.tasks[t], invoice) :: db.tasks[t])
  }

  /** How far the run has come since the tables were `from`: these rows are saved, under these ids, and
      those marked are routed; what was there when it began to insert is as it was. */
  ghost predicate Progress(from: Db, db: Db, invoice: Id, matched: bool, rows: seq<Item>, ids: seq<Id>, routed: seq<bool>) {
    && Valid(db) && from.nextId <= db.nextId && |ids| == |routed|
    && ItemsSince(db, invoice, from.nextId, rows, ids)
    && HitlsAre(db, ids, routed, matched)
    && Old(db, invoice, from.nextId) == Old(from, invoice, from.nextId)
  }

  /** A statement of somebody else: another invoice's job, or a reviewer task. */
  predicate Foreign(db: Db, s: Statement, invoice: Id) {
    match s
    case InsertItem(row) => row.invoice != invoice
    case InsertHitl(x, _) => x in db.items ==> db.items[x].invoice != invoice
    case InsertTask(_) => true
    case DeleteItems(other) => other != invoice
  }

  // ---------- Each statement keeps the progress ----------

  lemma SameHitls(db: Db, db': Db, x: Id, routed: bool, matched: bool)
    requires Routed(db, x, routed, matched)
    requires forall h | h in db'.hitls && db'.hitls[h].item == x :: h in db.hitls && db.hitls[h] == db'.hitls[h]
    requires forall h | h in db.hitls && db.hitls[h].item == x :: h in db'.hitls && db'.hitls[h] == db.hitls[h]
    ensures Routed(db', x, routed, matched)
  {
    assert HitlsOf(db', x) == HitlsOf(db, x);
    if routed {
      var h :| HitlsOf(db, x) == {h} && h in db.hitls && db.hitls[h] == Hitl(x, WorkerReason(matched), Pending);
      assert h in HitlsOf(db, x);
    }
  }

  /** The HITL rows of these items: ocr_mismatch if the OCR did not match, classification_needed if it did. */
  lemma ReasonsAre(db: Db, ids: seq<Id>, routed: seq<bool>, matched: bool)
    requires |ids| == |routed| && HitlsAre(db, ids, routed, matched)
    ensures forall h, x | h in db.hitls && db.hitls[h].item == x && x in ids ::
              db.hitls[h].reason == if matched then ClassificationNeeded else OcrMismatch
  {
    forall h, x | h in db.hitls && db.hitls[h].item == x && x in ids
      ensures db.hitls[h].reason == if matched then ClassificationNeeded else OcrMismatch
    {
      var k :| 0 <= k < |ids| && ids[k] == x;
      assert Routed(db, ids[k], routed[k], matched) && h in HitlsOf(db, x);
    }
  }

  /** Which lines are saved, and which of these get a HITL row. */
  lemma OneLineMore(j: Job, n: nat)
    requires JobOk(j) && n < |j.lines|
    ensures var saved := j.lines[n].description != "" && !j.kinds[n].Unlisted? && j.takes[n];
      && AcceptedRows(j, n + 1) == AcceptedRows(j, n) + (if saved then [Item(j.invoice, j.lines[n], j.kinds[n])] else [])
      && RoutedRows(j, n + 1) == RoutedRows(j, n)
         + if saved then [(j.kinds[n] == Unclassified || !j.matched) && j.routes[n]] else []
  {
  }

  lemma OldStays(db: Db, db': Db, invoice: Id, start: Id)
    requires forall x :: IsOld(db', x, invoice, start) <==> IsOld(db, x, invoice, start)
    requires forall x | IsOld(db, x, invoice, start) :: x in db'.items && db'.items[x] == db.items[x]
    requires forall h | h in db.hitls && IsOld(db, db.hitls[h].item, invoice, start) :: h in db'.hitls && db'.hitls[h] == db.hitls[h]
    requires forall h | h in db'.hitls && IsOld(db', db'.hitls[h].item, invoice, start) :: h in db.hitls && db'.hitls[h] == db.hitls[h]
    ensures Old(db', invoice, start) == Old(db, invoice, start)
  {
    assert Old(db', invoice, start).0 == Old(db, invoice, start).0;
    assert Old(db', invoice, start).1 == Old(db, invoice, start).1;
  }

  lemma ForeignKeepsOld(db: Db, s: Statement, invoice: Id, start: Id)
    requires Valid(db) && start <= db.nextId && Foreign(db, s, invoice)
    ensures Old(Execute(db, s), invoice, start) == Old(db, invoice, start)
  {
    OldStays(db, Execute(db, s), invoice, start);
  }

  lemma ForeignKeepsProgress(from: Db, db: Db, s: Statement, invoice: Id, matched: bool, rows: seq<Item>, ids: seq<Id>, routed: seq<bool>)
    requires Progress(from, db, invoice, matched, rows, ids, routed) && Foreign(db, s, invoice)
    ensures Progress(from, Execute(db, s), invoice, matched, rows, ids, routed)
  {
    ForeignKeepsOld(db, s, invoice, from.nextId);
    ForeignKeepsHitls(db, s, invoice, matched, ids, routed);
  }

  lemma ForeignKeepsHitls(db: Db, s: Statement, invoice: Id, matched: bool, ids: seq<Id>, routed: seq<bool>)
    requires Valid(db) && Foreign(db, s, invoice) && |ids| == |routed| && HitlsAre(db, ids, routed, matched)
    requires forall k | 0 <= k < |ids| :: ids[k] in db.items && db.items[ids[k]].invoice == invoice
    ensures HitlsAre(Execute(db, s), ids, routed, matched)
  {
    var db' := Execute(db, s);
    forall k | 0 <= k < |ids| ensures Routed(db', ids[k], routed[k], matched) {
      SameHitls(db, db', ids[k], routed[k], matched);
    }
  }

  lemma InsertItemProgress(from: Db, db: Db, matched: bool, rows: seq<Item>, ids: seq<Id>, routed: seq<bool>, row: Item)
    requires Progress(from, db, row.invoice, matched, rows, ids, routed)
    ensures Progress(from, Execute(db, InsertItem(row)), row.invoice, matched, rows + [row], ids + [db.nextId], routed + [false])
  {
    OldStays(db, Execute(db, InsertItem(row)), row.invoice, from.nextId);
    InsertItemKeepsHitls(db, row, matched, ids, routed);
  }

  lemma InsertItemKeepsHitls(db: Db, row: Item, matched: bool, ids: seq<Id>, routed: seq<bool>)
    requires Valid(db) && |ids| == |routed| && HitlsAre(db, ids, routed, matched)
    ensures HitlsAre(Execute(db, InsertItem(row)), ids + [db.nextId], routed + [false], matched)
  {
    var db' := Execute(db, InsertItem(row));
    forall k | 0 <= k < |ids| ensures Routed(db', ids[k], routed[k], matched) {
      SameHitls(db, db', ids[k], routed[k], matched);
    }
    assert HitlsOf(db', db.nextId) == {};
  }

  lemma InsertHitlKeepsOld(db: Db, x: Id, reason: Reason, invoice: Id, start: Id)
    requires Valid(db) && x in db.items && start <= x
    ensures Old(Execute(db, InsertHitl(x, reason)), invoice, start) == Old(db, invoice, start)
  {
    OldStays(db, Execute(db, InsertHitl(x, reason)), invoice, start);
  }

  lemma InsertHitlRoutes(db: Db, ids: seq<Id>, routed: seq<bool>, matched: bool)
    requires Valid(db) && ids != [] && |ids| == |routed| && Increasing(ids) && ids[|ids| - 1] in db.items
    requires HitlsAre(db, ids, routed, matched) && !routed[|ids| - 1]
    ensures HitlsAre(Execute(db, InsertHitl(ids[|ids| - 1], WorkerReason(matched))), ids, routed[..|ids| - 1] + [true], matched)
  {
    var n := |ids| - 1;
    var db' := Execute(db, InsertHitl(ids[n], WorkerReason(matched)));
    forall k | 0 <= k < n ensures Routed(db', ids[k], routed[k], matched) {
      SameHitls(db, db', ids[k], routed[k], matched);
    }
    assert Routed(db, ids[n], routed[n], matched);
    assert HitlsOf(db', ids[n]) == {db.nextId};
  }

  lemma InsertHitlProgress(from: Db, db: Db, invoice: Id, matched: bool, rows: seq<Item>, ids: seq<Id>, routed: seq<bool>)
    requires ids != [] && Progress(from, db, invoice, matched, rows, ids, routed) && !routed[|ids| - 1]
    ensures Progress(from, Execute(db, InsertHitl(ids[|ids| - 1], WorkerReason(matched))), invoice, matched, rows, ids,
                     routed[..|ids| - 1] + [true])
  {
    InsertHitlKeepsOld(db, ids[|ids| - 1], WorkerReason(matched), invoice, from.nextId);
    InsertHitlRoutes(db, ids, routed, matched);
  }

  lemma DeleteProgress(db: Db, invoice: Id)
    requires Valid(db)
    ensures Valid(Delete(db, invoice)) && Old(Delete(db, invoice), invoice, db.nextId) == (map[], map[])
  {
    assert forall h | h in Delete(db, invoice).hitls :: db.hitls[h].item in Delete(db, invoice).items;
  }

  lemma StartProgress(db: Db, invoice: Id, matched: bool)
    requires Valid(db)
    ensures Progress(db, db, invoice, matched, [], [], [])
  {
  }

  lemma DeleteStaysHome(db: Db, invoice: Id)
    requires Valid(db)
    ensures Elsewhere(Delete(db, invoice), invoice) == Elsewhere(db, invoice)
  {
    var db' := Delete(db, invoice);
    assert forall h :: h in db'.hitls <==> h in db.hitls && !Concerns(db, h, invoice);
    assert forall h :: !Concerns(db', h, invoice);
    assert Elsewhere(db', invoice).0 == Elsewhere(db, invoice).0;
    assert Elsewhere(db', invoice).1 == Elsewhere(db, invoice).1;
    assert Elsewhere(db', invoice).2 == Elsewhere(db, invoice).2;
  }

  lemma InsertItemStaysHome(db: Db, row: Item)
    requires Valid(db)
    ensures Elsewhere(Execute(db, InsertItem(row)), row.invoice) == Elsewhere(db, row.invoice)
  {
    var db', invoice := Execute(db, InsertItem(row)), row.invoice;
    assert forall h :: Concerns(db', h, invoice) == Concerns(db, h, invoice);
    assert Elsewhere(db', invoice).0 == Elsewhere(db, invoice).0;
    assert Elsewhere(db', invoice).1 == Elsewhere(db, invoice).1;
    assert Elsewhere(db', invoice).2 == Elsewhere(db, invoice).2;
  }

  lemma InsertHitlStaysHome(db: Db, x: Id, reason: Reason)
    requires Valid(db) && x in db.items
    ensures Elsewhere(Execute(db, InsertHitl(x, reason)), db.items[x].invoice) == Elsewhere(db, db.items[x].invoice)
  {
    var db', invoice := Execute(db, InsertHitl(x, reason)), db.items[x].invoice;
    assert forall h :: Concerns(db', h, invoice) == (Concerns(db, h, invoice) || h == db.nextId);
    assert Elsewhere(db', invoice).0 == Elsewhere(db, invoice).0;
    assert Elsewhere(db', invoice).1 == Elsewhere(db, invoice).1;
    assert Elsewhere(db', invoice).2 == Elsewhere(db, invoice).2;
  }

  // ---------- When the items are what the OCR read ----------

  /** Nothing old is left of the invoice, down to tasks, if no old item is. */
  lemma NoOldItems(from: Db, db: Db, invoice: Id, matched: bool, rows: seq<Item>, ids: seq<Id>, routed: seq<bool>)
    requires Progress(from, db, invoice, matched, rows, ids, routed) && Old(from, invoice, from.nextId).0 == map[]
    ensures NothingOld(db, invoice, from.nextId) && ItemsAre(db, invoice, rows, ids)
  {
    assert forall x :: IsOld(db, x, invoice, from.nextId) ==> x in Old(db, invoice, from.nextId).0;
    forall x | x in db.items && db.items[x].invoice == invoice ensures from.nextId <= x {
      assert IsOld(db, x, invoice, from.nextId) <==> x < from.nextId;
    }
  }

  lemma IncreasingIsDistinct(ids: seq<Id>)
    requires Increasing(ids)
    ensures |Elements(ids)| == |ids|
  {
    DistinctCount(ids);
  }

  lemma TooMany(ids: seq<Id>, x: Id, other: seq<Id>)
    requires Increasing(ids) && x !in ids && x in other && |other| == |ids|
    ensures exists y | y in ids :: y !in other
  {
    if forall y | y in ids :: y in other {
      IncreasingIsDistinct(ids);
      FewElements(other);
      SubsetIsSmaller(Elements(ids) + {x}, Elements(other));
    }
  }

  /** One old item is one too many. */
  lemma OldItemIsTooMany(from: Db, db: Db, invoice: Id, matched: bool, rows: seq<Item>, ids: seq<Id>, routed: seq<bool>, x: Id, other: seq<Id>)
    requires Progress(from, db, invoice, matched, rows, ids, routed) && x in Old(from, invoice, from.nextId).0
    ensures !ItemsAre(db, invoice, rows, other)
  {
    assert x in Old(db, invoice, from.nextId).0;
    assert IsOld(db, x, invoice, from.nextId) && x !in ids;
    assert forall y | y in ids :: y in db.items && db.items[y].invoice == invoice;
    if x in other && |other| == |ids| {
      TooMany(ids, x, other);
    }
  }

  /** The items are exactly the accepted rows if and only if nothing of the invoice was left when the inserts began. */
  lemma ItemsAreIff(from: Db, db: Db, invoice: Id, matched: bool, rows: seq<Item>, ids: seq<Id>, routed: seq<bool>)
    requires Progress(from, db, invoice, matched, rows, ids, routed)
    ensures Exactly(db, invoice, rows) <==> Old(from, invoice, from.nextId).0 == map[]
  {
    var old_ := Old(from, invoice, from.nextId).0;
    if old_ == map[] {
      NoOldItems(from, db, invoice, matched, rows, ids, routed);
    } else {
      assert old_.Keys != {};
      var x :| x in old_;
      forall other ensures !ItemsAre(db, invoice, rows, other) {
        OldItemIsTooMany(from, db, invoice, matched, rows, ids, routed, x, other);
      }
    }
  }

  function HasItems(db: Db, invoice: Id): bool {
    exists x | x in db.items :: db.items[x].invoice == invoice
  }

  lemma NothingLeftIff(db: Db, invoice: Id, deletes: bool)
    requires Valid(db)
    ensures var from := if deletes then Delete(db, invoice) else db;
      Valid(from) && from.nextId == db.nextId && (Old(from, invoice, from.nextId).0 == map[] <==> deletes || !HasItems(db, invoice))
  {
    DeleteProgress(db, invoice);
    if !deletes {
      if x :| x in db.items && db.items[x].invoice == invoice {
        assert x in Old(db, invoice, db.nextId).0;
      } else {
        assert Old(db, invoice, db.nextId).0 == map[];
      }
    }
  }

  lemma OneStatement(db: Db, s: Statement)
    ensures ExecuteAll(db, [s]) == Execute(db, s)
  {
    assert [s][1..] == [];
  }

  /** A DELETE that fails is passed over, and then a line read twice is there twice: the first run saved the
      line, the second could not clear it and saved it again. */
  lemma FailedDeleteRepeats(row: Item)
    ensures var first := ExecuteAll(EMPTY, [DeleteItems(row.invoice), InsertItem(row)]);
      var second := ExecuteAll(first, [InsertItem(row)]);
      && ItemsAre(first, row.invoice, [row], [0])
      && second.items == map[0 := row, 1 := row]
      && !Exactly(second, row.invoice, [row])
  {
    var e := [DeleteItems(row.invoice), InsertItem(row)];
    assert e[1..] == [InsertItem(row)] && [InsertItem(row)][1..] == [];
    assert Execute(EMPTY, DeleteItems(row.invoice)) == EMPTY;
    var first := ExecuteAll(EMPTY, e);
    OneStatement(EMPTY, InsertItem(row));
    OneStatement(first, InsertItem(row));
    assert first.items == map[0 := row];
    var second := ExecuteAll(first, [InsertItem(row)]);
    assert second.items == map[0 := row, 1 := row];
    forall ids ensures !ItemsAre(second, row.invoice, [row], ids) {
      if |ids| == 1 {
        assert ids == [ids[0]];
        assert 0 in second.items && 1 in second.items;
      }
    }
  }

  // ---------- Jobs of one invoice that overlap ----------

  /** A statement that took effect, and which run it belongs to. */
  datatype Step = Step(run: nat, statement: Statement)

  predicate Clears(s: Statement, invoice: Id) {
    s.DeleteItems? && s.invoice == invoice
  }

  predicate Adds(s: Statement, invoice: Id) {
    s.InsertItem? && s.row.invoice == invoice
  }

  function Statements(steps: seq<Step>): seq<Statement> {
    seq(|steps|, i requires 0 <= i < |steps| => steps[i].statement)
  }

  /** What one run does to the items of the invoice. */
  function PartOf(steps: seq<Step>, run: nat, invoice: Id): seq<Statement> {
    if steps == [] then []
    else (if steps[0].run == run && (Clears(steps[0].statement, invoice) || Adds(steps[0].statement, invoice))
          then [steps[0].statement] else []) + PartOf(steps[1..], run, invoice)
  }

  /** The rows these statements add to the invoice. */
  function RowsIn(statements: seq<Statement>, invoice: Id): seq<Item> {
    if statements == [] then []
    else (if Adds(statements[0], invoice) then [statements[0].row] else []) + RowsIn(statements[1..], invoice)
  }

  ghost predicate OthersAdd(steps: seq<Step>, run: nat, invoice: Id) {
    exists i :: 0 <= i < |steps| && steps[i].run != run && Adds(steps[i].statement, invoice)
  }

  /** What a job does to the items: one DELETE that takes effect, then its accepted rows. */
  ghost function JobPart(j: Job): seq<Statement>
    requires JobOk(j)
  {
    [DeleteItems(j.invoice)] + Inserts(AcceptedRows(j, |j.lines|))
  }

  function Inserts(rows: seq<Item>): seq<Statement> {
    seq(|rows|, i requires 0 <= i < |rows| => InsertItem(rows[i]))
  }

  lemma {:induction false} PartsJoin(xs: seq<Step>, ys: seq<Step>, run: nat, invoice: Id)
    ensures PartOf(xs + ys, run, invoice) == PartOf(xs, run, invoice) + PartOf(ys, run, invoice)
    decreases |xs|
  {
    if xs == [] {
      assert xs + ys == ys;
    } else {
      assert (xs + ys)[1..] == xs[1..] + ys;
      PartsJoin(xs[1..], ys, run, invoice);
    }
  }

  lemma {:induction false} InsertsAreRows(rows: seq<Item>, invoice: Id)
    requires forall i | 0 <= i < |rows| :: rows[i].invoice == invoice
    ensures RowsIn(Inserts(rows), invoice) == rows
    decreases |rows|
  {
    if rows != [] {
      assert Inserts(rows)[1..] == Inserts(rows[1..]);
      InsertsAreRows(rows[1..], invoice);
    }
  }

  lemma {:induction false} AcceptedBelong(j: Job, n: nat)
    requires JobOk(j) && n <= |j.lines|
    ensures forall i | 0 <= i < |AcceptedRows(j, n)| :: AcceptedRows(j, n)[i].invoice == j.invoice
    decreases n
  {
    if n > 0 {
      AcceptedBelong(j, n - 1);
    }
  }

  /** A job clears the items only once, so after that statement come all of its rows. */
  lemma RowsAfterClear(before: seq<Step>, after: seq<Step>, run: nat, j: Job)
    requires JobOk(j)
    requires PartOf(before + [Step(run, DeleteItems(j.invoice))] + after, run, j.invoice) == JobPart(j)
    ensures RowsIn(PartOf(after, run, j.invoice), j.invoice) == AcceptedRows(j, |j.lines|)
  {
    var clear := [Step(run, DeleteItems(j.invoice))];
    var first, rest := PartOf(before, run, j.invoice), PartOf(after, run, j.invoice);
    PartsJoin(before + clear, after, run, j.invoice);
    PartsJoin(before, clear, run, j.invoice);
    assert PartOf(clear, run, j.invoice) == [DeleteItems(j.invoice)];
    var rows := AcceptedRows(j, |j.lines|);
    assert first + [DeleteItems(j.invoice)] + rest == [DeleteItems(j.invoice)] + Inserts(rows);
    OnlyOneClear(first, rest, DeleteItems(j.invoice), rows);
    AcceptedBelong(j, |j.lines|);
    InsertsAreRows(rows, j.invoice);
  }

  lemma OnlyOneClear(first: seq<Statement>, rest: seq<Statement>, clear: Statement, rows: seq<Item>)
    requires first + [clear] + rest == [clear] + Inserts(rows) && clear.DeleteItems?
    ensures first == [] && rest == Inserts(rows)
  {
    var all := first + [clear] + rest;
    assert all[|first|] == clear;
    assert forall i | 0 < i < |all| :: all[i].InsertItem?;
    assert all[1..] == Inserts(rows);
  }

  /** The rows added are those of the run exactly if the others add none; else they are more. */
  lemma {:induction false} RowsSplit(steps: seq<Step>, run: nat, invoice: Id)
    ensures var all, own := RowsIn(Statements(steps), invoice), RowsIn(PartOf(steps, run, invoice), invoice);
      if OthersAdd(steps, run, invoice) then |all| > |own| else all == own
    decreases |steps|
  {
    if steps != [] {
      var rest := steps[1..];
      RowsSplit(rest, run, invoice);
      assert Statements(steps)[1..] == Statements(rest);
      OwnFirst(steps, run, invoice);
      OthersAddIff(steps, run, invoice);
    }
  }

  lemma OthersAddIff(steps: seq<Step>, run: nat, invoice: Id)
    requires steps != []
    ensures OthersAdd(steps, run, invoice) <==>
            (steps[0].run != run && Adds(steps[0].statement, invoice)) || OthersAdd(steps[1..], run, invoice)
  {
    var rest := steps[1..];
    assert forall i | 0 < i < |steps| :: steps[i] == rest[i - 1];
    if OthersAdd(rest, run, invoice) {
      var i :| 0 <= i < |rest| && rest[i].run != run && Adds(rest[i].statement, invoice);
      assert steps[i + 1] == rest[i];
    }
  }

  lemma OwnFirst(steps: seq<Step>, run: nat, invoice: Id)
    requires steps != []
    ensures RowsIn(PartOf(steps, run, invoice), invoice) ==
            (if steps[0].run == run && Adds(steps[0].statement, invoice) then [steps[0].statement.row] else [])
            + RowsIn(PartOf(steps[1..], run, invoice), invoice)
  {
    var part, rest := PartOf(steps, run, invoice), PartOf(steps[1..], run, invoice);
    if steps[0].run == run && (Clears(steps[0].statement, invoice) || Adds(steps[0].statement, invoice)) {
      assert part == [steps[0].statement] + rest && part[1..] == rest;
    } else {
      assert part == rest && [] + RowsIn(rest, invoice) == RowsIn(rest, invoice);
    }
  }

  /** Statements that do not clear the invoice leave its items as they are and add their rows. */
  lemma {:induction false} RowsAreItems(db: Db, statements: seq<Statement>, invoice: Id, rows: seq<Item>, ids: seq<Id>) returns (all: seq<Id>)
    requires Valid(db) && ItemsAre(db, invoice, rows, ids) && forall s | s in statements :: !Clears(s, invoice)
    ensures ItemsAre(ExecuteAll(db, statements), invoice, rows + RowsIn(statements, invoice), all)
    decreases |statements|
  {
    if statements == [] {
      all := ids;
      assert rows + [] == rows;
    } else {
      var s, db' := statements[0], Execute(db, statements[0]);
      AnythingLeavesValid(db, [s]);
      OneStatement(db, s);
      var rows', ids' := OneAdded(db, s, invoice, rows, ids);
      all := RowsAreItems(db', statements[1..], invoice, rows', ids');
      assert rows + RowsIn(statements, invoice) == rows' + RowsIn(statements[1..], invoice);
    }
  }

  lemma OneAdded(db: Db, s: Statement, invoice: Id, rows: seq<Item>, ids: seq<Id>) returns (rows': seq<Item>, ids': seq<Id>)
    requires Valid(db) && ItemsAre(db, invoice, rows, ids) && !Clears(s, invoice)
    ensures rows' == rows + if Adds(s, invoice) then [s.row] else []
    ensures ItemsAre(Execute(db, s), invoice, rows', ids')
  {
    if Adds(s, invoice) {
      rows', ids' := rows + [s.row], ids + [db.nextId];
    } else {
      rows', ids' := rows, ids;
    }
  }

  lemma SameCount(db: Db, invoice: Id, rows: seq<Item>, ids: seq<Id>, other: seq<Item>, ids': seq<Id>)
    requires ItemsAre(db, invoice, rows, ids) && ItemsAre(db, invoice, other, ids')
    ensures |rows| == |other|
  {
    assert Elements(ids) == Elements(ids') by {
      forall x ensures x in ids <==> x in ids' {
        if x in ids {
          var k :| 0 <= k < |ids| && ids[k] == x;
          assert db.items[ids[k]] == rows[k];
        }
        if x in ids' {
          var k :| 0 <= k < |ids'| && ids'[k] == x;
          assert db.items[ids'[k]] == other[k];
        }
      }
    }
    IncreasingIsDistinct(ids);
    IncreasingIsDistinct(ids');
  }

  lemma AfterClearIff(cleared: Db, after: seq<Step>, run: nat, invoice: Id, own: seq<Item>)
    requires Valid(cleared) && ItemsAre(cleared, invoice, [], []) && forall x | x in after :: !Clears(x.statement, invoice)
    requires own == RowsIn(PartOf(after, run, invoice), invoice)
    ensures Exactly(ExecuteAll(cleared, Statements(after)), invoice, own) <==> !OthersAdd(after, run, invoice)
  {
    var end, rows := ExecuteAll(cleared, Statements(after)), RowsIn(Statements(after), invoice);
    var all := RowsAreItems(cleared, Statements(after), invoice, [], []);
    assert [] + rows == rows;
    RowsSplit(after, run, invoice);
    if Exactly(end, invoice, own) {
      var ids :| ItemsAre(end, invoice, own, ids);
      SameCount(end, invoice, rows, all, own, ids);
    }
  }

  /** Any number of runs of one invoice, interleaved in any way with each other and with everything else; j is
      the one whose DELETE comes last. The items are exactly its accepted lines if and only if no other run
      adds an item after that DELETE. */
  lemma OverlappingJobsIff(db: Db, before: seq<Step>, after: seq<Step>, run: nat, j: Job)
    requires Valid(db) && JobOk(j)
    requires PartOf(before + [Step(run, DeleteItems(j.invoice))] + after, run, j.invoice) == JobPart(j)
    requires forall x | x in after :: !Clears(x.statement, j.invoice)
    ensures var cleared := Delete(ExecuteAll(db, Statements(before)), j.invoice);
      Exactly(ExecuteAll(cleared, Statements(after)), j.invoice, AcceptedRows(j, |j.lines|)) <==> !OthersAdd(after, run, j.invoice)
  {
    AnythingLeavesValid(db, Statements(before));
    var was := ExecuteAll(db, Statements(before));
    DeleteProgress(was, j.invoice);
    RowsAfterClear(before, after, run, j);
    AfterClearIff(Delete(was, j.invoice), after, run, j.invoice, AcceptedRows(j, |j.lines|));
  }

  /** Two runs that both clear before either inserts leave the line twice. */
  lemma OverlapRepeats(row: Item)
    ensures var end := ExecuteAll(EMPTY, [DeleteItems(row.invoice), DeleteItems(row.invoice), InsertItem(row), InsertItem(row)]);
      end.items == map[0 := row, 1 := row]
  {
    var d, i := DeleteItems(row.invoice), InsertItem(row);
    var e := [d, d, i, i];
    assert e[1..] == [d, i, i] && [d, i, i][1..] == [i, i] && [i, i][1..] == [i];
    assert Execute(EMPTY, d) == EMPTY;
    assert ExecuteAll(EMPTY, e) == ExecuteAll(EMPTY, [i, i]);
    OneStatement(Execute(EMPTY, i), i);
  }

  // ---------- The program ----------

  class Tables {
    var items: map<Id, Item>
    var hitls: map<Id, Hitl>
    var tasks: map<Id, Id>
    var nextId: Id

    ghost function Contents(): Db
      reads this
    {
      Db(items, hitls, tasks, nextId)
    }

    constructor ()
      ensures Contents() == EMPTY
    {
      items, hitls, tasks, nextId := map[], map[], map[], 0;
    }

    method Do(s: Statement) returns (id: Id)
      modifies this
      ensures Contents() == Execute(old(Contents()), s)
      ensures id == old(nextId)
    {
      id := nextId;
      var after := Execute(Db(items, hitls, tasks, nextId), s);
      items, hitls, tasks, nextId := after.items, after.hitls, after.tasks, after.nextId;
    }

    /** Whatever others do at one point of the run. A statement that concerns this invoice is left out:
        jobs of one invoice do not overlap. */
    method Interlude(statements: seq<Statement>, invoice: Id, ghost from: Db, ghost matched: bool,
                     ghost rows: seq<Item>, ghost ids: seq<Id>, ghost routed: seq<bool>)
      requires Progress(from, Contents(), invoice, matched, rows, ids, routed)
      modifies this
      ensures Progress(from, Contents(), invoice, matched, rows, ids, routed)
      ensures statements == [] ==> Contents() == old(Contents())
    {
      for k := 0 to |statements|
        invariant Progress(from, Contents(), invoice, matched, rows, ids, routed)
        invariant k == 0 ==> Contents() == old(Contents())
      {
        if Foreign(Db(items, hitls, tasks, nextId), statements[k], invoice) {
          ForeignKeepsProgress(from, Contents(), statements[k], invoice, matched, rows, ids, routed);
          var _ := Do(statements[k]);
        }
      }
    }

    /** One line: save it, then route the saved item. Either insert may fail and is then passed over. */
    method SaveLine(row: Item, matched: bool, takes: bool, routes: bool, meanwhile: seq<Statement>, ghost from: Db,
                    ghost rows: seq<Item>, ghost ids: seq<Id>, ghost routed: seq<bool>)
      returns (ghost ids': seq<Id>)
      requires Progress(from, Contents(), row.invoice, matched, rows, ids, routed)
      modifies this
      ensures var saved := Saved(row.line, row.kind, takes);
        Progress(from, Contents(), row.invoice, matched, rows + (if saved then [row] else []), ids',
                 routed + if saved then [NeedsHitl(row, matched) && routes] else [])
      ensures row.line.description != "" && !row.kind.Unlisted? && takes ==>
                |ids'| == |ids| + 1 && var x := ids'[|ids|]; x in items && items[x] == row
      ensures row.line.description != "" && !row.kind.Unlisted? && takes && (row.kind == Unclassified || !matched) && routes ==>
                exists h :: HitlsOf(Contents(), ids'[|ids|]) == {h} && h in hitls
                            && hitls[h] == Hitl(ids'[|ids|], if matched then ClassificationNeeded else OcrMismatch, Pending)
      ensures row.line.description != "" && !row.kind.Unlisted? && takes && !((row.kind == Unclassified || !matched) && routes) ==>
                HitlsOf(Contents(), ids'[|ids|]) == {}
      ensures !(row.line.description != "" && !row.kind.Unlisted? && takes) ==> ids' == ids
      ensures meanwhile == [] ==> Elsewhere(Contents(), row.invoice) == Elsewhere(old(Contents()), row.invoice)
    {
      ids' := ids;
      if row.line.description == "" || row.kind.Unlisted? || !takes {
        assert rows + [] == rows && routed + [] == routed;
        return;
      }
      InsertItemProgress(from, Contents(), matched, rows, ids, routed, row);
      InsertItemStaysHome(Contents(), row);
      var saved := Do(InsertItem(row));
      ids' := ids + [saved];
      Interlude(meanwhile, row.invoice, from, matched, rows + [row], ids', routed + [false]);
      if (row.kind == Unclassified || !matched) && routes {
        assert (routed + [false])[..|ids|] == routed;
        InsertHitlProgress(from, Contents(), row.invoice, matched, rows + [row], ids', routed + [false]);
        InsertHitlStaysHome(Contents(), saved, WorkerReason(matched));
        var _ := Do(InsertHitl(saved, WorkerReason(matched)));
      }
    }

    /** The lines of an invoice that is no duplicate: save and route each. */
    method SaveLines(j: Job, others: nat -> seq<Statement>, ghost from: Db) returns (ghost ids: seq<Id>)
      requires JobOk(j) && Valid(Contents()) && from == Contents()
      modifies this
      ensures Progress(from, Contents(), j.invoice, j.matched, AcceptedRows(j, |j.lines|), ids, RoutedRows(j, |j.lines|))
      ensures (forall n :: others(n) == []) ==> Elsewhere(Contents(), j.invoice) == Elsewhere(from, j.invoice)
    {
      ids := [];
      StartProgress(Contents(), j.invoice, j.matched);
      for i := 0 to |j.lines|
        invariant Progress(from, Contents(), j.invoice, j.matched, AcceptedRows(j, i), ids, RoutedRows(j, i))
        invariant (forall n :: others(n) == []) ==> Elsewhere(Contents(), j.invoice) == Elsewhere(from, j.invoice)
      {
        Interlude(others(2 * i), j.invoice, from, j.matched, AcceptedRows(j, i), ids, RoutedRows(j, i));
        var row := Item(j.invoice, j.lines[i], j.kinds[i]);
        ids := SaveLine(row, j.matched, j.takes[i], j.routes[i], others(2 * i + 1), from, AcceptedRows(j, i), ids, RoutedRows(j, i));
      }
    }

    /** A run to its end, from any valid tables: clear the old items, and for an invoice that is no duplicate
        save and route every line. Each statement takes effect or is passed over, and between any two of them
        others may do theirs. */
    method ProcessItems(j: Job, duplicate: bool, others: nat -> seq<Statement>) returns (ghost ids: seq<Id>)
      requires JobOk(j) && Valid(Contents())
      modifies this
      ensures var before := old(Contents());
        var from := if j.deletes then Delete(before, j.invoice) else before;
        var rows := if duplicate then [] else AcceptedRows(j, |j.lines|);
        && Progress(from, Contents(), j.invoice, j.matched, rows, ids, if duplicate then [] else RoutedRows(j, |j.lines|))
        && (Exactly(Contents(), j.invoice, rows) <==> j.deletes || !HasItems(before, j.invoice))
        && (j.deletes ==> NothingOld(Contents(), j.invoice, before.nextId) && ItemsAre(Contents(), j.invoice, rows, ids))
      ensures forall h, x | h in hitls && hitls[h].item == x && x in ids ::
                hitls[h].reason == if j.matched then ClassificationNeeded else OcrMismatch
      ensures (forall n :: others(n) == []) ==> Elsewhere(Contents(), j.invoice) == Elsewhere(old(Contents()), j.invoice)
    {
      ghost var before := Contents();
      NothingLeftIff(before, j.invoice, j.deletes);
      DeleteProgress(before, j.invoice);
      DeleteStaysHome(before, j.invoice);
      if j.deletes {
        var _ := Do(DeleteItems(j.invoice));
      }
      ghost var from := Contents();
      ghost var rows, routed: seq<bool> := [], [];
      ids := [];
      StartProgress(from, j.invoice, j.matched);
      if !duplicate {
        rows, routed := AcceptedRows(j, |j.lines|), RoutedRows(j, |j.lines|);
        ids := SaveLines(j, others, from);
      }
      ItemsAreIff(from, Contents(), j.invoice, j.matched, rows, ids, routed);
      if j.deletes {
        NoOldItems(from, Contents(), j.invoice, j.matched, rows, ids, routed);
      }
      ReasonsAre(Contents(), ids, routed, j.matched);
    }

    /** Any number of earlier runs, each cut off after any of its statements, then a run to its end: if that one
        could clear the items, or there were none, the earlier runs leave no trace on the invoice. */
    method Redeliver(earlier: seq<Statement>, j: Job) returns (ghost ids: seq<Id>)
      requires JobOk(j) && Valid(Contents())
      modifies this
      ensures var before := ExecuteAll(old(Contents()), earlier);
        var rows := AcceptedRows(j, |j.lines|);
        && (Exactly(Contents(), j.invoice, rows) <==> j.deletes || !HasItems(before, j.invoice))
        && |ids| == |rows| && HitlsAre(Contents(), ids, RoutedRows(j, |j.lines|), j.matched)
        && ItemsSince(Contents(), j.invoice, before.nextId, rows, ids)
        && (j.deletes ==> ItemsAre(Contents(), j.invoice, rows, ids) && NothingOld(Contents(), j.invoice, before.nextId))
        && Elsewhere(Contents(), j.invoice) == Elsewhere(before, j.invoice)
      ensures forall h, x | h in hitls && hitls[h].item == x && x in ids ::
                hitls[h].reason == if j.matched then ClassificationNeeded else OcrMismatch
    {
      AnythingLeavesValid(Contents(), earlier);
      var k := 0;
      while k < |earlier|
        invariant 0 <= k <= |earlier|
        invariant ExecuteAll(Contents(), earlier[k..]) == ExecuteAll(old(Contents()), earlier)
      {
        assert earlier[k..][1..] == earlier[k + 1..];
        var _ := Do(earlier[k]);
        k := k + 1;
      }
      ids := ProcessItems(j, false, n => []);
    }
  }
}
